/** The repository crawl of fetchRepos.js: discovering the repositories users contributed to,
    refreshing each one's metadata, removing repositories nobody references any more, the deep
    fetch of contributors, pull request authors, languages and settings, and the copies made for
    renamed repositories. */
module FetchRepos {
  import opened Records

  /** How long a fetched repository stays fresh, in hours, on a first run and otherwise. */
  const FirstTimeMaxAgeHours := 24 * 365
  const MaxAgeHours := 12
  const HourMs := 60 * 60 * 1000
  /** A paginated scan that reaches this page is taken to be looping. */
  const MaxPage := 10000
  const ReposComment := "DO NOT EDIT MANUALLY - See ../../../README.md"
  const PullsUrlSuffix := "{/number}"
  /** Where a repository may keep its settings, in the order they are tried. */
  const SettingsFileNames := [".ghuser.io.json", ".github/ghuser.io.json"]

  /** Fields of the GitHub reply that are dropped to keep the database small: API links, and
      counters, flags and nested records. Only the set matters; the names are grouped in short
      pieces so that each piece can be searched on its own. */
  const DeniedNames: seq<string> :=
    DeniedLinks0 + DeniedLinks1 + DeniedLinks2 + DeniedOthers0 + DeniedOthers1
  const DeniedLinks0: seq<string> := [
    "keys_url", "collaborators_url", "teams_url", "hooks_url", "issue_events_url", "events_url",
    "assignees_url", "branches_url", "tags_url", "blobs_url", "git_tags_url", "git_refs_url",
    "trees_url"]
  const DeniedLinks1: seq<string> := [
    "statuses_url", "contributors_url", "subscribers_url", "subscription_url",
    "commits_url", "git_commits_url", "comments_url", "issue_comment_url", "contents_url",
    "compare_url", "merges_url", "archive_url", "downloads_url"]
  const DeniedLinks2: seq<string> := [
    "issues_url", "milestones_url", "notifications_url", "labels_url", "releases_url",
    "deployments_url", "ssh_url", "git_url", "clone_url", "svn_url", "forks_url", "stargazers_url"]
  const DeniedOthers0: seq<string> := [
    "node_id", "has_issues", "has_projects", "has_downloads", "has_wiki", "has_pages", "id",
    "permissions", "allow_squash_merge", "allow_merge_commit", "allow_rebase_merge"]
  const DeniedOthers1: seq<string> := [
    "watchers_count", "forks_count", "open_issues_count", "forks", "open_issues", "watchers",
    "parent", "source", "network_count", "subscribers_count"]
  const RepoDenylist: set<string> := set i | 0 <= i < |DeniedNames| :: DeniedNames[i]

  /** The fields the crawler itself maintains are never dropped. */
  lemma DenylistSpares()
    ensures "fetching_since" !in RepoDenylist && "ghuser_insignificant" !in RepoDenylist
    ensures "owner" !in RepoDenylist
  {
    DeniedLinks0Spared();
    DeniedLinks1Spared();
    DeniedLinks2Spared();
    DeniedOthers0Spared();
    DeniedOthers1Spared();
  }

  /** None of the crawler's own fields occurs in a piece of the list. */
  predicate Spares(names: seq<string>)
  {
    "fetching_since" !in names && "ghuser_insignificant" !in names && "owner" !in names
  }

  lemma DeniedLinks0Spared()
    ensures Spares(DeniedLinks0)
  {
  }

  lemma DeniedLinks1Spared()
    ensures Spares(DeniedLinks1)
  {
  }

  lemma DeniedLinks2Spared()
    ensures Spares(DeniedLinks2)
  {
  }

  lemma DeniedOthers0Spared()
    ensures Spares(DeniedOthers0)
  {
  }

  lemma DeniedOthers1Spared()
    ensures Spares(DeniedOthers1)
  {
  }

  // ---------------------------------------------------------------------------------------------
  // Discovery

  predicate Deleted(user: Record)
  {
    Has(user, "ghuser_deleted_because")
  }

  /** `user.contribs && user.contribs.repos || []` */
  function ContribRepos(user: Record): seq<Value>
  {
    var contribs := Field(user, "contribs");
    if contribs.Obj? && "repos" in contribs.fields && contribs.fields["repos"].Arr?
    then contribs.fields["repos"].items
    else []
  }

  /** A usable repository reference: a non-empty full name. */
  predicate IsName(v: Value)
  {
    v.Str? && v.s != ""
  }

  function Names(vs: seq<Value>): set<string>
  {
    set v | v in vs && v.Str? :: v.s
  }

  /** No remaining user holds an unusable reference (discovery throws on the first one). */
  predicate AllNamed(users: seq<Record>)
  {
    forall i, j :: 0 <= i < |users| && !Deleted(users[i]) && 0 <= j < |ContribRepos(users[i])|
      ==> IsName(ContribRepos(users[i])[j])
  }

  /** The repositories referenced by the users not marked as deleted. */
  function Referenced(users: seq<Record>): set<string>
  {
    if users == [] then {}
    else
      var last := users[|users| - 1];
      Referenced(users[..|users| - 1]) + (if Deleted(last) then {} else Names(ContribRepos(last)))
  }

  /** A name is referenced exactly when some non-deleted user lists it. */
  lemma {:induction false} ReferencedSpec(users: seq<Record>, name: string)
    ensures name in Referenced(users)
        <==> exists u :: u in users && !Deleted(u) && Str(name) in ContribRepos(u)
  {
    if users != [] {
      var init, last := users[..|users| - 1], users[|users| - 1];
      ReferencedSpec(init, name);
      assert users == init + [last];
      if name in Referenced(users) {
        if name !in Referenced(init) {
          var v :| v in ContribRepos(last) && v.Str? && v.s == name;
          assert v == Str(name);
        }
      } else {
        forall u | u in users && !Deleted(u)
          ensures Str(name) !in ContribRepos(u)
        {
          if u !in init {
            assert u == last;
            assert Str(name) in ContribRepos(last) ==> name in Names(ContribRepos(last));
          }
        }
      }
    }
  }

  /** The stored files plus an empty placeholder for each name that has none. */
  function Placeholders(files: map<string, Record>, names: set<string>): map<string, Record>
  {
    map k | k in files.Keys + names :: if k in files then files[k] else map[]
  }

  /** One more name adds a placeholder exactly when there is no file for it yet. */
  lemma PlaceholdersAdd(files: map<string, Record>, names: set<string>, n: string)
    ensures Placeholders(files, names + {n})
         == if n in Placeholders(files, names) then Placeholders(files, names)
            else Placeholders(files, names)[n := map[]]
  {
  }

  /** Records one user's references, creating a placeholder file for each new name. */
  method AddReferences(entries: seq<Value>, referenced: set<string>, files: map<string, Record>,
                       repos: map<string, Record>)
    returns (ok: bool, names: set<string>, placed: map<string, Record>)
    requires repos == Placeholders(files, referenced)
    ensures ok <==> forall j :: 0 <= j < |entries| ==> IsName(entries[j])
    ensures ok ==> names == referenced + Names(entries) && placed == Placeholders(files, names)
  {
    names, placed := referenced, repos;
    for j := 0 to |entries|
      invariant forall jj :: 0 <= jj < j ==> IsName(entries[jj])
      invariant names == referenced + Names(entries[..j])
      invariant placed == Placeholders(files, names)
    {
      var fullName := entries[j];
      if !IsName(fullName) {
        return false, names, placed;
      }
      assert Names(entries[..j + 1]) == Names(entries[..j]) + {fullName.s} by {
        assert entries[..j + 1] == entries[..j] + [fullName];
      }
      PlaceholdersAdd(files, names, fullName.s);
      if fullName.s !in placed {
        placed := placed[fullName.s := map[]];
      }
      names := names + {fullName.s};
    }
    assert entries[..|entries|] == entries;
    return true, names, placed;
  }

  /** Collects the referenced repositories and makes sure each has a file: a missing one is
      created empty, an existing one is left as it is. */
  method Discover(users: seq<Record>, files: map<string, Record>)
    returns (r: Result<(set<string>, map<string, Record>)>)
    ensures r.Success? <==> AllNamed(users)
    ensures r.Success? ==> r.value.0 == Referenced(users)
    ensures r.Success? ==> r.value.1 == Placeholders(files, Referenced(users))
  {
    var referenced: set<string> := {};
    var repos := files;
    assert repos == Placeholders(files, referenced);
    for i := 0 to |users|
      invariant AllNamed(users[..i])
      invariant referenced == Referenced(users[..i])
      invariant repos == Placeholders(files, referenced)
    {
      assert users[..i + 1][..i] == users[..i];
      var user := users[i];
      if !Deleted(user) {
        var ok;
        ok, referenced, repos := AddReferences(ContribRepos(user), referenced, files, repos);
        if !ok {
          var j :| 0 <= j < |ContribRepos(user)| && !IsName(ContribRepos(user)[j]);
          assert !IsName(ContribRepos(users[i])[j]);
          return Failure("user.contribs.repos[j] is undefined");
        }
      }
      assert AllNamed(users[..i + 1]) by {
        var done := users[..i + 1];
        forall ii | 0 <= ii < i
          ensures done[ii] == users[..i][ii]
        {
        }
      }
    }
    assert users[..|users|] == users;
    return Success((referenced, repos));
  }

  /** Every repository file is stamped with the do-not-edit comment. */
  method StampRepos(files: map<string, Record>) returns (repos: map<string, Record>)
    ensures repos.Keys == files.Keys
    ensures forall k :: k in repos ==> repos[k] == files[k]["_comment" := Str(ReposComment)]
  {
    repos := files;
    var todo := files.Keys;
    while todo != {}
      invariant todo <= files.Keys && repos.Keys == files.Keys
      invariant forall k :: k in repos ==>
        repos[k] == if k in todo then files[k] else files[k]["_comment" := Str(ReposComment)]
      decreases todo
    {
      var k :| k in todo;
      repos := repos[k := repos[k]["_comment" := Str(ReposComment)]];
      todo := todo - {k};
    }
  }

  // ---------------------------------------------------------------------------------------------
  // Refreshing one repository

  /** What one refresh does to a repository file: nothing, a write, or an exception. */
  datatype Outcome = Skipped | Written(rec: Record) | Thrown(error: string)

  function MaxAgeMs(firsttime: bool): int
  {
    (if firsttime then FirstTimeMaxAgeHours else MaxAgeHours) * HourMs
  }

  /** A deep fetch is pending, or the last full fetch is recent enough. */
  predicate StillFresh(repo: Record, now: int, firsttime: bool)
  {
    Has(repo, "fetching_since")
    || (Has(repo, "fetched_at") && ParseTime(repo, "fetched_at").Some?
        && now - ParseTime(repo, "fetched_at").value < MaxAgeMs(firsttime))
  }

  /** The refresh leaves the repository alone and makes no request. */
  predicate Skips(repo: Record, now: int, firsttime: bool)
  {
    StillFresh(repo, now, firsttime) || Has(repo, "removed_from_github")
  }

  /** `stargazers_count < 1 || size === 0` */
  predicate Insignificant(repo: Record)
  {
    (match Field(repo, "stargazers_count")
     case Num(n) => n < 1
     case Null => "stargazers_count" in repo
     case Bool(b) => !b
     case _ => false)
    || Field(repo, "size") == Num(0)
  }

  /** `reply.owner.login`, or the TypeError of reading it from a missing owner. `None` is an
      undefined login, which is not written. */
  function OwnerLogin(reply: Record): Result<Option<Value>>
  {
    match Field(reply, "owner")
    case Null => Failure("TypeError: Cannot read property 'login' of owner")
    case Obj(fields) => Success(if "login" in fields then Some(fields["login"]) else None)
    case _ => Success(None)
  }

  /** `Object.assign(rec, reply)` once the reply's owner is replaced by its login. */
  function AssignReply(rec: Record, reply: Record, owner: Option<Value>): (r: Record)
    ensures owner.Some? ==> "owner" in r && r["owner"] == owner.value
    ensures owner.None? ==> "owner" !in r
    ensures forall k :: k != "owner" ==>
      (k in r <==> k in rec || k in reply) && (k in r ==> r[k] == if k in reply then reply[k] else rec[k])
  {
    if owner.Some? then rec + reply["owner" := owner.value] else (rec + reply) - {"owner"}
  }

  /** `repo.ghuser_insignificant = repo.stargazers_count < 1 || repo.size === 0` */
  function Flagged(rec: Record): (r: Record)
    ensures "ghuser_insignificant" in r && r["ghuser_insignificant"] == Bool(Insignificant(r))
    ensures OnlyChanged(rec, r, "ghuser_insignificant")
  {
    rec["ghuser_insignificant" := Bool(Insignificant(rec))]
  }

  /** The repository after a fetch that returned `reply`: marked as being fetched, overwritten by
      the reply with its owner flattened to a login, pruned, and flagged when insignificant. */
  function Refreshed(repo: Record, now: int, reply: Record, owner: Option<Value>): (r: Record)
    ensures forall f :: f in RepoDenylist ==> f !in r
    ensures "fetching_since" !in reply ==> "fetching_since" in r && r["fetching_since"] == Time(now)
    ensures owner.Some? ==> "owner" in r && r["owner"] == owner.value
    ensures owner.None? ==> "owner" !in r
    ensures "ghuser_insignificant" in r && r["ghuser_insignificant"] == Bool(Insignificant(r))
  {
    DenylistSpares();
    var merged := AssignReply(repo["fetching_since" := Time(now)], reply, owner);
    PrunedFlagged(merged, RepoDenylist);
    Flagged(Pruned(merged, RepoDenylist))
  }

  /** Pruning fields other than the crawler's own and then flagging keeps those fields and drops
      the pruned ones. */
  lemma PrunedFlagged(merged: Record, fields: set<string>)
    requires "fetching_since" !in fields && "owner" !in fields && "ghuser_insignificant" !in fields
    ensures forall f :: f in fields ==> f !in Flagged(Pruned(merged, fields))
    ensures forall k :: k != "ghuser_insignificant" ==>
      (k in Flagged(Pruned(merged, fields)) <==> k in merged && k !in fields)
    ensures forall k :: k != "ghuser_insignificant" && k in merged && k !in fields ==>
      Flagged(Pruned(merged, fields))[k] == merged[k]
  {
  }

  /** Every other field comes from the reply when it has it, and is kept from the stored
      repository otherwise; nothing else is added. */
  lemma RefreshedKeeps(repo: Record, now: int, reply: Record, owner: Option<Value>, k: string)
    requires k !in RepoDenylist && k != "owner" && k != "fetching_since" && k != "ghuser_insignificant"
    ensures k in Refreshed(repo, now, reply, owner) <==> k in repo || k in reply
    ensures k in reply ==> Refreshed(repo, now, reply, owner)[k] == reply[k]
    ensures k in repo && k !in reply ==> Refreshed(repo, now, reply, owner)[k] == repo[k]
  {
    var merged := AssignReply(repo["fetching_since" := Time(now)], reply, owner);
    assert k in merged <==> k in repo || k in reply;
  }

  /** The refresh of one repository file, given the GitHub reply it would receive. */
  function FetchRepoOutcome(repo: Record, now: int, firsttime: bool, reply: Response): (out: Outcome)
    ensures out.Skipped? <==> Skips(repo, now, firsttime)
    ensures !Skips(repo, now, firsttime) && reply == Status(304) ==>
      out.Written? && OnlyChanged(repo, out.rec, "fetched_at")
      && "fetched_at" in out.rec && out.rec["fetched_at"] == Time(now)
    ensures !Skips(repo, now, firsttime) && (reply == Status(404) || reply == Status(451)) ==>
      out.Written? && OnlyChanged(repo, out.rec, "removed_from_github")
      && "removed_from_github" in out.rec && out.rec["removed_from_github"] == Bool(true)
    ensures !Skips(repo, now, firsttime) && reply.Status? && reply.code !in {304, 404, 451} ==>
      out.Thrown?
    ensures !Skips(repo, now, firsttime) && reply.Payload? ==>
      (out.Written? <==> OwnerLogin(reply.body).Success?)
      && (out.Written? ==> out.rec == Refreshed(repo, now, reply.body, OwnerLogin(reply.body).value))
  {
    if Skips(repo, now, firsttime) then Skipped
    else match reply
      case Status(code) =>
        if code == 304 then Written(repo["fetched_at" := Time(now)])
        else if code == 404 || code == 451 then Written(repo["removed_from_github" := Bool(true)])
        else Thrown("unexpected HTTP status")
      case Payload(body) =>
        match OwnerLogin(body)
        case Failure(e) => Thrown(e)
        case Success(owner) => Written(Refreshed(repo, now, body, owner))
  }

  method FetchRepo(repo: Record, now: int, firsttime: bool, reply: Response) returns (out: Outcome)
    ensures out == FetchRepoOutcome(repo, now, firsttime, reply)
  {
    var maxAgeHours := if firsttime then FirstTimeMaxAgeHours else MaxAgeHours;
    if Has(repo, "fetching_since")
       || (Has(repo, "fetched_at") && ParseTime(repo, "fetched_at").Some?
           && now - ParseTime(repo, "fetched_at").value < maxAgeHours * HourMs) {
      return Skipped;
    }
    if Has(repo, "removed_from_github") {
      return Skipped;
    }
    if reply.Status? {
      if reply.code == 304 {
        return Written(repo["fetched_at" := Time(now)]);
      } else if reply.code == 404 || reply.code == 451 {
        return Written(repo["removed_from_github" := Bool(true)]);
      }
      return Thrown("unexpected HTTP status");
    }
    var rec := repo["fetching_since" := Time(now)];
    var owner := OwnerLogin(reply.body);
    if owner.Failure? {
      return Thrown(owner.error);
    }
    rec := AssignReply(rec, reply.body, owner.value);
    rec := DeleteFields(rec, RepoDenylist);
    rec := rec["ghuser_insignificant" := Bool(Insignificant(rec))];
    return Written(rec);
  }

  /** A repository that a refresh has just written is not requested again during the next 12
      hours, whatever the kind of run. */
  lemma FreshAfterRefresh(repo: Record, now: int, firsttime: bool, reply: Response,
                          later: int, firsttime': bool)
    requires FetchRepoOutcome(repo, now, firsttime, reply).Written?
    requires reply.Payload? ==> "fetching_since" !in reply.body
    requires now <= later < now + MaxAgeHours * HourMs
    ensures Skips(FetchRepoOutcome(repo, now, firsttime, reply).rec, later, firsttime')
  {
    var rec := FetchRepoOutcome(repo, now, firsttime, reply).rec;
    match reply
    case Status(code) =>
      if code == 304 {
        assert rec == repo["fetched_at" := Time(now)];
        assert ParseTime(rec, "fetched_at") == Some(now);
      } else {
        assert rec == repo["removed_from_github" := Bool(true)];
      }
    case Payload(body) =>
      assert rec == Refreshed(repo, now, body, OwnerLogin(body).value);
      assert Has(rec, "fetching_since");
  }

  function Applied(out: Outcome, rec: Record): Record
  {
    if out.Written? then out.rec else rec
  }

  /** Refreshes every referenced repository; the first exception aborts the run. */
  method FetchReferencedRepos(repos: map<string, Record>, referenced: set<string>, now: int,
                              firsttime: bool, replies: string -> Response)
    returns (r: Result<map<string, Record>>)
    requires referenced <= repos.Keys
    ensures r.Success? <==>
      forall k :: k in referenced ==> !FetchRepoOutcome(repos[k], now, firsttime, replies(k)).Thrown?
    ensures r.Success? ==> r.value.Keys == repos.Keys
    ensures r.Success? ==> forall k :: k in repos ==>
      r.value[k] == if k in referenced then Applied(FetchRepoOutcome(repos[k], now, firsttime, replies(k)), repos[k])
                    else repos[k]
  {
    var current := repos;
    var todo := referenced;
    while todo != {}
      invariant todo <= referenced && current.Keys == repos.Keys
      invariant forall k :: k in referenced - todo ==>
        !FetchRepoOutcome(repos[k], now, firsttime, replies(k)).Thrown?
      invariant forall k :: k in repos ==>
        current[k] == if k in referenced - todo
                      then Applied(FetchRepoOutcome(repos[k], now, firsttime, replies(k)), repos[k])
                      else repos[k]
      decreases todo
    {
      var k :| k in todo;
      var out := FetchRepo(current[k], now, firsttime, replies(k));
      if out.Thrown? {
        return Failure(out.error);
      }
      current := current[k := Applied(out, current[k])];
      todo := todo - {k};
    }
    return Success(current);
  }

  /** Deletes the repositories no user references. */
  method StripUnreferencedRepos(repos: map<string, Record>, referenced: set<string>)
    returns (r: map<string, Record>)
    ensures r.Keys == repos.Keys * referenced
    ensures forall k :: k in r ==> r[k] == repos[k]
  {
    var toBeDeleted: set<string> := {};
    var todo := repos.Keys;
    while todo != {}
      invariant todo <= repos.Keys
      invariant toBeDeleted == (repos.Keys - todo) - referenced
      decreases todo
    {
      var k :| k in todo;
      if k !in referenced {
        toBeDeleted := toBeDeleted + {k};
      }
      todo := todo - {k};
    }
    r := repos;
    todo := toBeDeleted;
    while todo != {}
      invariant todo <= toBeDeleted
      invariant r.Keys == repos.Keys - (toBeDeleted - todo)
      invariant forall k :: k in r ==> r[k] == repos[k]
      decreases todo
    {
      var k :| k in todo;
      r := r - {k};
      todo := todo - {k};
    }
  }

  // ---------------------------------------------------------------------------------------------
  // Deep fetch: what GitHub says about a repository, per step

  /** One entry of the contributor statistics; `author` is `None` when GitHub gives none. */
  datatype StatEntry = StatEntry(author: Option<string>, total: int)
  /** One entry of the contributors listing. */
  datatype Contributor = Contributor(login: string, contributions: int)
  /** A page of the contributors listing, or the 403 GitHub answers for huge repositories. */
  datatype ContributorsPage = Forbidden | Listed(entries: seq<Contributor>)
  /** The logins of a commit's author and committer, `None` when GitHub knows no account. */
  datatype Commit = Commit(author: Option<string>, committer: Option<string>)
  /** A pull request: its author's login and its creation time. */
  datatype PullRequest = PullRequest(author: string, createdAt: int)

  /** The replies GitHub would give, per repository full name (and attempt or page). */
  datatype Network = Network(
    repo: string -> Response,
    stats: Value -> nat -> seq<StatEntry>,
    contributors: Value -> nat -> ContributorsPage,
    commits: Value -> nat -> seq<Commit>,
    pulls: string -> nat -> seq<PullRequest>,
    languages: Value -> map<string, int>,
    settings: Value -> string -> Response,
    color: string -> Value)

  /** The repository changed since its last full fetch. Every deep-fetch step does nothing
      otherwise. */
  predicate Changed(repo: Record)
  {
    Has(repo, "fetching_since") && !(Has(repo, "fetched_at") && Later(repo, "fetched_at", "pushed_at"))
  }

  /** `repo.contributors || {}` */
  function ContributorsOf(repo: Record): map<string, Value>
  {
    if "contributors" in repo && repo["contributors"].Obj? then repo["contributors"].fields else map[]
  }

  /** The statistics reply: the first non-empty one of the four attempts, `None` when GitHub was
      still computing the statistics every time. */
  function StatsReply(attempts: nat -> seq<StatEntry>, attempt: nat): Option<seq<StatEntry>>
    decreases 4 - attempt
  {
    if attempt >= 4 then None
    else if |attempts(attempt)| > 0 then Some(attempts(attempt))
    else StatsReply(attempts, attempt + 1)
  }

  /** The contributors after recording each statistics entry's total under its author. */
  function WithStats(m: map<string, Value>, entries: seq<StatEntry>): (r: map<string, Value>)
    ensures m.Keys <= r.Keys
    ensures forall i :: 0 <= i < |entries| && entries[i].author.Some? ==> entries[i].author.value in r
  {
    if entries == [] then m
    else
      var e := entries[|entries| - 1];
      var m' := WithStats(m, entries[..|entries| - 1]);
      if e.author.Some? then m'[e.author.value := Num(e.total)] else m'
  }

  /** Some entry of the statistics is by `k`. */
  predicate StatsAuthor(entries: seq<StatEntry>, k: string)
  {
    exists i :: 0 <= i < |entries| && entries[i].author == Some(k)
  }

  /** Entry `i` has an author and no later entry has the same one. */
  predicate LastStatsEntry(entries: seq<StatEntry>, i: int)
  {
    0 <= i < |entries| && entries[i].author.Some?
    && forall j :: i < j < |entries| ==> entries[j].author != entries[i].author
  }

  /** Recording statistics adds exactly the entries' authors, and keeps every other contributor
      as it was. */
  lemma {:induction false} WithStatsKeys(m: map<string, Value>, entries: seq<StatEntry>)
    ensures forall k :: k in WithStats(m, entries) <==> k in m || StatsAuthor(entries, k)
    ensures forall k :: k in m && !StatsAuthor(entries, k) ==> WithStats(m, entries)[k] == m[k]
  {
    if entries != [] {
      var n := |entries| - 1;
      var init := entries[..n];
      WithStatsKeys(m, init);
      forall k
        ensures StatsAuthor(entries, k) <==> StatsAuthor(init, k) || entries[n].author == Some(k)
      {
        if StatsAuthor(init, k) {
          var i :| 0 <= i < |init| && init[i].author == Some(k);
          assert entries[i] == init[i];
        }
        if StatsAuthor(entries, k) && entries[n].author != Some(k) {
          var i :| 0 <= i < |entries| && entries[i].author == Some(k);
          assert init[i] == entries[i];
        }
      }
    }
  }

  /** An author named by several entries holds the total of the last one. */
  lemma {:induction false} WithStatsLast(m: map<string, Value>, entries: seq<StatEntry>)
    ensures forall i :: LastStatsEntry(entries, i) ==>
      WithStats(m, entries)[entries[i].author.value] == Num(entries[i].total)
  {
    if entries != [] {
      var n := |entries| - 1;
      var init := entries[..n];
      WithStatsLast(m, init);
      forall i | LastStatsEntry(entries, i)
        ensures WithStats(m, entries)[entries[i].author.value] == Num(entries[i].total)
      {
        if i < n {
          assert init[i] == entries[i];
          assert LastStatsEntry(init, i);
        }
      }
    }
  }

  /** The contributors after recording one page of the contributors listing. */
  function WithListed(m: map<string, Value>, entries: seq<Contributor>): (r: map<string, Value>)
    ensures m.Keys <= r.Keys
    ensures forall i :: 0 <= i < |entries| ==> entries[i].login in r
  {
    if entries == [] then m
    else WithListed(m, entries[..|entries| - 1])[entries[|entries| - 1].login := Num(entries[|entries| - 1].contributions)]
  }

  /** Some entry of the listing page is `k`'s. */
  predicate ListedLogin(entries: seq<Contributor>, k: string)
  {
    exists i :: 0 <= i < |entries| && entries[i].login == k
  }

  /** No later entry of the page has entry `i`'s login. */
  predicate LastListedEntry(entries: seq<Contributor>, i: int)
  {
    0 <= i < |entries| && forall j :: i < j < |entries| ==> entries[j].login != entries[i].login
  }

  /** Recording a listing page adds exactly the page's logins, and keeps every other contributor
      as it was. */
  lemma {:induction false} WithListedKeys(m: map<string, Value>, entries: seq<Contributor>)
    ensures forall k :: k in WithListed(m, entries) <==> k in m || ListedLogin(entries, k)
    ensures forall k :: k in m && !ListedLogin(entries, k) ==> WithListed(m, entries)[k] == m[k]
  {
    if entries != [] {
      var n := |entries| - 1;
      var init := entries[..n];
      WithListedKeys(m, init);
      forall k
        ensures ListedLogin(entries, k) <==> ListedLogin(init, k) || entries[n].login == k
      {
        if ListedLogin(init, k) {
          var i :| 0 <= i < |init| && init[i].login == k;
          assert entries[i] == init[i];
        }
        if ListedLogin(entries, k) && entries[n].login != k {
          var i :| 0 <= i < |entries| && entries[i].login == k;
          assert init[i] == entries[i];
        }
      }
    }
  }

  /** A login listed twice holds the count of its last entry. */
  lemma {:induction false} WithListedLast(m: map<string, Value>, entries: seq<Contributor>)
    ensures forall i :: LastListedEntry(entries, i) ==>
      WithListed(m, entries)[entries[i].login] == Num(entries[i].contributions)
  {
    if entries != [] {
      var n := |entries| - 1;
      var init := entries[..n];
      WithListedLast(m, init);
      forall i | LastListedEntry(entries, i)
        ensures WithListed(m, entries)[entries[i].login] == Num(entries[i].contributions)
      {
        if i < n {
          assert init[i] == entries[i];
          assert LastListedEntry(init, i);
        }
      }
    }
  }

  /** Pages `page` to 5 of the contributors listing, up to the first short page: the recorded
      contributors, and whether GitHub refused the listing. */
  function ListedFrom(m: map<string, Value>, pages: nat -> ContributorsPage, page: nat)
    : (r: (map<string, Value>, bool))
    ensures m.Keys <= r.0.Keys
    decreases 6 - page
  {
    if page > 5 then (m, false)
    else match pages(page)
      case Forbidden => (m, true)
      case Listed(entries) =>
        var m' := WithListed(m, entries);
        if |entries| < PerPage then (m', false) else ListedFrom(m', pages, page + 1)
  }

  /** The first page from `page` on that is short, if one comes before the scan gives up. */
  function FirstShortPage<T>(pages: nat -> seq<T>, page: nat): Option<nat>
    decreases if page <= MaxPage then MaxPage + 1 - page else 0
  {
    if page > MaxPage then None
    else if |pages(page)| < PerPage then Some(page)
    else FirstShortPage(pages, page + 1)
  }

  /** The scan stops at the first short page, and fails when pages up to `MaxPage` are full. */
  lemma {:induction false} FirstShortPageSpec<T>(pages: nat -> seq<T>, page: nat, k: nat)
    requires 1 <= page
    ensures FirstShortPage(pages, page) == Some(k) <==>
      page <= k <= MaxPage && |pages(k)| < PerPage && forall j :: page <= j < k ==> |pages(j)| >= PerPage
    ensures FirstShortPage(pages, page).None? <==> forall j :: page <= j <= MaxPage ==> |pages(j)| >= PerPage
    decreases if page <= MaxPage then MaxPage + 1 - page else 0
  {
    if page <= MaxPage && |pages(page)| >= PerPage {
      FirstShortPageSpec(pages, page + 1, k);
    }
  }

  /** Credit one commit to `login`. */
  function Credit(counts: map<string, int>, login: string): map<string, int>
  {
    counts[login := (if login in counts then counts[login] else 0) + 1]
  }

  /** One commit counted: once for its author, once for a committer who is someone else. */
  function CountCommit(counts: map<string, int>, c: Commit): map<string, int>
  {
    var byAuthor := if c.author.Some? && c.author.value != "" then Credit(counts, c.author.value) else counts;
    if c.committer.Some? && c.committer.value != "" && c.committer != c.author
    then Credit(byAuthor, c.committer.value)
    else byAuthor
  }

  /** The commit counts per login over `commits`, in order. */
  function Tally(commits: seq<Commit>): map<string, int>
  {
    if commits == [] then map[]
    else CountCommit(Tally(commits[..|commits| - 1]), commits[|commits| - 1])
  }

  predicate TookPart(c: Commit, login: string)
  {
    login != "" && (c.author == Some(login) || c.committer == Some(login))
  }

  /** In how many of `commits` the account took part, as author or committer. */
  function Participations(commits: seq<Commit>, login: string): nat
  {
    if commits == [] then 0
    else Participations(commits[..|commits| - 1], login) + if TookPart(commits[|commits| - 1], login) then 1 else 0
  }

  /** The counts are exactly the participations: a commit counts once for each distinct account
      in it, and an account that authored and committed a commit is not counted twice. */
  lemma {:induction false} TallyIsParticipations(commits: seq<Commit>)
    ensures forall l :: l in Tally(commits) <==> Participations(commits, l) > 0
    ensures forall l :: l in Tally(commits) ==> Tally(commits)[l] == Participations(commits, l)
  {
    if commits != [] {
      var init, c := commits[..|commits| - 1], commits[|commits| - 1];
      TallyIsParticipations(init);
      forall l
        ensures l in Tally(commits) <==> Participations(commits, l) > 0
        ensures l in Tally(commits) ==> Tally(commits)[l] == Participations(commits, l)
      {
        assert Tally(commits) == CountCommit(Tally(init), c);
      }
    }
  }

  /** The commit scan: the counts of every commit up to the first short page. */
  function CommitScan(pages: nat -> seq<Commit>): Result<map<string, int>>
  {
    match FirstShortPage(pages, 1)
    case Some(k) => Success(Tally(Concat(pages, k)))
    case None => Failure("fetchRepoContributors(): Infinite loop?")
  }

  /** `Object.assign(contributors, counts)` */
  function MergeTally(m: map<string, Value>, counts: map<string, int>): map<string, Value>
  {
    m + map l | l in counts :: Num(counts[l])
  }

  /** The contributors a deep fetch records (fetchRepos.js:223-336): statistics when fewer than
      100 are known, the listing when statistics failed or 100 to 499 are known, and a count over
      all commits when the listing is refused or 500 or more are known. */
  function ContributorsStep(repo: Record, net: Network): Result<map<string, Value>>
  {
    var c0 := ContributorsOf(repo);
    if !Changed(repo) then Success(c0)
    else
      var fullName := Field(repo, "full_name");
      var stats := if |c0| < 100 then StatsReply(net.stats(fullName), 0) else None;
      var firstMethodFailed := |c0| < 100 && stats.None?;
      var c1 := if stats.Some? then WithStats(c0, stats.value) else c0;
      var listed := if firstMethodFailed || (100 <= |c1| && |c1| < 500)
                    then ListedFrom(c1, net.contributors(fullName), 1) else (c1, false);
      if listed.1 || |listed.0| >= 500 then
        match CommitScan(net.commits(fullName))
        case Failure(e) => Failure(e)
        case Success(counts) => Success(MergeTally(listed.0, counts))
      else Success(listed.0)
  }

  /** No contributor is ever forgotten, and an unchanged repository keeps its contributors. */
  lemma ContributorsGrow(repo: Record, net: Network)
    ensures ContributorsStep(repo, net).Success? ==>
      ContributorsOf(repo).Keys <= ContributorsStep(repo, net).value.Keys
    ensures !Changed(repo) ==> ContributorsStep(repo, net) == Success(ContributorsOf(repo))
  {
  }

  /** The contributors step fails only when every commit page up to the last allowed one is full. */
  lemma ContributorsFailure(repo: Record, net: Network)
    ensures ContributorsStep(repo, net).Failure? ==>
      Changed(repo) && forall j :: 1 <= j <= MaxPage ==> |net.commits(Field(repo, "full_name"))(j)| >= PerPage
  {
    var fullName := Field(repo, "full_name");
    FirstShortPageSpec(net.commits(fullName), 1, 0);
  }

  /** When the commit scan runs, each account that took part in a scanned commit is recorded
      with the number of commits it took part in, and every other contributor keeps its count. */
  lemma CommitCountsRecorded(m: map<string, Value>, pages: nat -> seq<Commit>, k: nat, login: string)
    requires FirstShortPage(pages, 1) == Some(k)
    ensures CommitScan(pages).Success?
    ensures Participations(Concat(pages, k), login) > 0 ==>
      login in MergeTally(m, CommitScan(pages).value)
      && MergeTally(m, CommitScan(pages).value)[login] == Num(Participations(Concat(pages, k), login))
    ensures Participations(Concat(pages, k), login) == 0 ==>
      (login in MergeTally(m, CommitScan(pages).value) <==> login in m)
      && (login in m ==> MergeTally(m, CommitScan(pages).value)[login] == m[login])
  {
    TallyIsParticipations(Concat(pages, k));
  }

  method ScanCommits(pages: nat -> seq<Commit>) returns (r: Result<map<string, int>>)
    ensures r == CommitScan(pages)
  {
    var counts: map<string, int> := map[];
    var page := 1;
    while true
      invariant 1 <= page <= MaxPage
      invariant FirstShortPage(pages, page) == FirstShortPage(pages, 1)
      invariant counts == Tally(Concat(pages, page - 1))
      decreases MaxPage - page
    {
      var commits := pages(page);
      assert Concat(pages, page - 1) + commits[..0] == Concat(pages, page - 1);
      for i := 0 to |commits|
        invariant counts == Tally(Concat(pages, page - 1) + commits[..i])
      {
        var before := Concat(pages, page - 1) + commits[..i];
        assert Concat(pages, page - 1) + commits[..i + 1] == before + [commits[i]];
        assert (before + [commits[i]])[..|before|] == before;
        counts := CountCommit(counts, commits[i]);
      }
      assert commits[..|commits|] == commits;
      if |commits| < PerPage {
        return Success(counts);
      }
      if page >= MaxPage {
        return Failure("fetchRepoContributors(): Infinite loop?");
      }
      page := page + 1;
    }
  }

  /** Asks for the statistics up to four times while GitHub is still computing them. */
  method FetchStats(attempts: nat -> seq<StatEntry>) returns (reply: Option<seq<StatEntry>>)
    ensures reply == StatsReply(attempts, 0)
  {
    var i := 3;
    while true
      invariant 0 <= i <= 3
      invariant StatsReply(attempts, 3 - i) == StatsReply(attempts, 0)
      decreases i
    {
      var entries := attempts(3 - i);
      if |entries| > 0 {
        return Some(entries);
      }
      if i == 0 {
        return None;
      }
      i := i - 1;
    }
  }

  method RecordStats(m: map<string, Value>, entries: seq<StatEntry>) returns (r: map<string, Value>)
    ensures r == WithStats(m, entries)
  {
    r := m;
    for j := 0 to |entries|
      invariant r == WithStats(m, entries[..j])
    {
      assert entries[..j + 1][..j] == entries[..j];
      if entries[j].author.Some? {
        r := r[entries[j].author.value := Num(entries[j].total)];
      }
    }
    assert entries[..|entries|] == entries;
  }

  method RecordListed(m: map<string, Value>, entries: seq<Contributor>) returns (r: map<string, Value>)
    ensures r == WithListed(m, entries)
  {
    r := m;
    for j := 0 to |entries|
      invariant r == WithListed(m, entries[..j])
    {
      assert entries[..j + 1][..j] == entries[..j];
      r := r[entries[j].login := Num(entries[j].contributions)];
    }
    assert entries[..|entries|] == entries;
  }

  /** Reads up to five pages of the contributors listing. */
  method FetchListed(m: map<string, Value>, pages: nat -> ContributorsPage)
    returns (contributors: map<string, Value>, forbidden: bool)
    ensures (contributors, forbidden) == ListedFrom(m, pages, 1)
  {
    contributors := m;
    var page := 1;
    while page <= 5
      invariant 1 <= page <= 6
      invariant ListedFrom(contributors, pages, page) == ListedFrom(m, pages, 1)
      decreases 6 - page
    {
      var reply := pages(page);
      if reply.Forbidden? {
        return contributors, true;
      }
      contributors := RecordListed(contributors, reply.entries);
      if |reply.entries| < PerPage {
        return contributors, false;
      }
      page := page + 1;
    }
    return contributors, false;
  }

  method FetchRepoContributors(repo: Record, net: Network) returns (r: Result<Record>)
    ensures r == match ContributorsStep(repo, net)
      case Success(c) => Success(repo["contributors" := Obj(c)])
      case Failure(e) => Failure(e)
  {
    var contributors := ContributorsOf(repo);
    if !Changed(repo) {
      return Success(repo["contributors" := Obj(contributors)]);
    }
    var fullName := Field(repo, "full_name");

    var firstMethodFailed := false;
    if |contributors| < 100 {
      var reply := FetchStats(net.stats(fullName));
      if reply.None? {
        firstMethodFailed := true;
      } else {
        contributors := RecordStats(contributors, reply.value);
      }
    }

    var secondMethodFailed := false;
    if firstMethodFailed || (100 <= |contributors| && |contributors| < 500) {
      contributors, secondMethodFailed := FetchListed(contributors, net.contributors(fullName));
    }

    if secondMethodFailed || |contributors| >= 500 {
      var counts := ScanCommits(net.commits(fullName));
      if counts.Failure? {
        return Failure(counts.error);
      }
      contributors := MergeTally(contributors, counts.value);
    }
    return Success(repo["contributors" := Obj(contributors)]);
  }

  /** `new Set(repo.pulls_authors || [])` */
  function PriorAuthors(repo: Record): seq<Value>
  {
    if "pulls_authors" in repo && repo["pulls_authors"].Arr? then repo["pulls_authors"].items else []
  }

  /** The pull request listing's address: `pulls_url` without its `{/number}` template suffix,
      `None` when the suffix is missing (an assertion failure). */
  function PullsPrefix(repo: Record): Option<string>
  {
    var url := Field(repo, "pulls_url");
    if url.Str? && |url.s| >= |PullsUrlSuffix| && url.s[|url.s| - |PullsUrlSuffix|..] == PullsUrlSuffix
    then Some(url.s[..|url.s| - |PullsUrlSuffix|])
    else None
  }

  /** The page ends with a pull request created before the last full fetch; pages run from newest
      to oldest, so later pages hold nothing new. */
  predicate OlderThan(prs: seq<PullRequest>, fetchedAt: Option<int>)
  {
    |prs| > 0 && fetchedAt.Some? && fetchedAt.value > prs[|prs| - 1].createdAt
  }

  /** The page at which the pull request scan stops, if it stops before giving up. */
  function PullsStopPage(pages: nat -> seq<PullRequest>, fetchedAt: Option<int>, page: nat): Option<nat>
    decreases if page <= MaxPage then MaxPage + 1 - page else 0
  {
    if page > MaxPage then None
    else if |pages(page)| < PerPage || OlderThan(pages(page), fetchedAt) then Some(page)
    else PullsStopPage(pages, fetchedAt, page + 1)
  }

  function Authors(prs: seq<PullRequest>): seq<Value>
  {
    if prs == [] then [] else Authors(prs[..|prs| - 1]) + [Str(prs[|prs| - 1].author)]
  }

  lemma {:induction false} AuthorsMembers(prs: seq<PullRequest>)
    ensures forall a :: a in Authors(prs) <==> exists p :: p in prs && a == Str(p.author)
  {
    if prs != [] {
      var init, last := prs[..|prs| - 1], prs[|prs| - 1];
      AuthorsMembers(init);
      assert prs == init + [last];
    }
  }

  /** The pull request authors a deep fetch records (fetchRepos.js:338-382). */
  function PullsStep(repo: Record, net: Network): Result<Record>
  {
    if !Changed(repo) then Success(repo)
    else match PullsPrefix(repo)
      case None => Failure("AssertionError: pulls_url does not end with {/number}")
      case Some(prefix) =>
        match PullsStopPage(net.pulls(prefix), DateOf(repo, "fetched_at"), 1)
        case None => Failure("fetchRepoPullRequests(): Infinite loop?")
        case Some(k) =>
          Success(repo["pulls_authors" := Arr(AppendNew(AppendNew([], PriorAuthors(repo)),
                                                        Authors(Concat(net.pulls(prefix), k))))])
  }

  /** The recorded authors hold no duplicate, keep the earlier authors first and in order, and add
      the author of every pull request on the scanned pages. */
  lemma PullsAuthorsSpec(repo: Record, net: Network)
    requires Changed(repo) && PullsStep(repo, net).Success?
    ensures OnlyChanged(repo, PullsStep(repo, net).value, "pulls_authors")
    ensures var authors := PullsStep(repo, net).value["pulls_authors"];
      authors.Arr? && NoDups(authors.items)
      && (forall a :: a in PriorAuthors(repo) ==> a in authors.items)
      && |authors.items| >= |AppendNew([], PriorAuthors(repo))|
      && authors.items[..|AppendNew([], PriorAuthors(repo))|] == AppendNew([], PriorAuthors(repo))
      && exists k :: (PullsStopPage(net.pulls(PullsPrefix(repo).value), DateOf(repo, "fetched_at"), 1) == Some(k)
                      && forall p :: p in Concat(net.pulls(PullsPrefix(repo).value), k) ==> Str(p.author) in authors.items)
  {
    var prefix := PullsPrefix(repo).value;
    var k := PullsStopPage(net.pulls(prefix), DateOf(repo, "fetched_at"), 1).value;
    var prior := AppendNew([], PriorAuthors(repo));
    var found := Authors(Concat(net.pulls(prefix), k));
    AppendNewSpec([], PriorAuthors(repo));
    AppendNewSpec(prior, found);
    AuthorsMembers(Concat(net.pulls(prefix), k));
  }

  lemma {:induction false} AuthorsConcat(a: seq<PullRequest>, b: seq<PullRequest>)
    ensures Authors(a + b) == Authors(a) + Authors(b)
    decreases |b|
  {
    if b == [] {
      assert a + b == a;
    } else {
      var init, last := b[..|b| - 1], b[|b| - 1];
      AuthorsConcat(a, init);
      assert (a + b)[..|a + b| - 1] == a + init;
      assert (a + b)[|a + b| - 1] == last;
    }
  }

  /** Reading one more page pushes its authors. */
  lemma AuthorsOfNextPage(pulls: nat -> seq<PullRequest>, prior: seq<Value>, page: nat)
    requires page >= 1
    ensures AppendNew(prior, Authors(Concat(pulls, page)))
         == AppendNew(AppendNew(prior, Authors(Concat(pulls, page - 1))), Authors(pulls(page)))
  {
    AuthorsConcat(Concat(pulls, page - 1), pulls(page));
    AppendNewConcat(prior, Authors(Concat(pulls, page - 1)), Authors(pulls(page)));
  }

  /** The scan from `page` on, with `authors` collected so far, as the loop runs it. */
  function ScanFrom(pulls: nat -> seq<PullRequest>, fetchedAt: Option<int>, authors: seq<Value>, page: nat)
    : Option<seq<Value>>
    decreases if page <= MaxPage then MaxPage + 1 - page else 0
  {
    if page > MaxPage then None
    else
      var next := AppendNew(authors, Authors(pulls(page)));
      if |pulls(page)| < PerPage || OlderThan(pulls(page), fetchedAt) then Some(next)
      else ScanFrom(pulls, fetchedAt, next, page + 1)
  }

  /** The authors a scan ending at `stop` gathers after `prior`; `None` when it gives up. */
  function Expected(pulls: nat -> seq<PullRequest>, prior: seq<Value>, stop: Option<nat>): Option<seq<Value>>
  {
    match stop
    case None => None
    case Some(k) => Some(AppendNew(prior, Authors(Concat(pulls, k))))
  }

  /** The authors pages 1 to `k` add after `prior`, page by page. */
  function Gathered(pulls: nat -> seq<PullRequest>, prior: seq<Value>, k: nat): seq<Value>
  {
    if k == 0 then prior else AppendNew(Gathered(pulls, prior, k - 1), Authors(pulls(k)))
  }

  /** Adding page by page is adding the concatenated pages at once. */
  lemma {:induction false} GatheredIsConcat(pulls: nat -> seq<PullRequest>, prior: seq<Value>, k: nat)
    ensures Gathered(pulls, prior, k) == AppendNew(prior, Authors(Concat(pulls, k)))
  {
    if k > 0 {
      GatheredIsConcat(pulls, prior, k - 1);
      AuthorsOfNextPage(pulls, prior, k);
    }
  }

  /** The scan from `page` on, started with what the earlier pages gathered, ends with what the
      pages up to the stop page gather. */
  lemma {:induction false} ScanFromGathers(pulls: nat -> seq<PullRequest>, fetchedAt: Option<int>,
                                            prior: seq<Value>, page: nat)
    requires page >= 1
    ensures ScanFrom(pulls, fetchedAt, Gathered(pulls, prior, page - 1), page)
         == match PullsStopPage(pulls, fetchedAt, page)
            case None => None
            case Some(k) => Some(Gathered(pulls, prior, k))
    decreases if page <= MaxPage then MaxPage + 1 - page else 0
  {
    if page <= MaxPage {
      assert Gathered(pulls, prior, page) == AppendNew(Gathered(pulls, prior, page - 1), Authors(pulls(page)));
      if !(|pulls(page)| < PerPage || OlderThan(pulls(page), fetchedAt)) {
        ScanFromGathers(pulls, fetchedAt, prior, page + 1);
      }
    }
  }

  /** Scanning from the first page adds the authors of every page up to the stop page, or gives
      up exactly when there is no stop page. */
  lemma ScanFromStops(pulls: nat -> seq<PullRequest>, fetchedAt: Option<int>, prior: seq<Value>)
    ensures ScanFrom(pulls, fetchedAt, prior, 1) == Expected(pulls, prior, PullsStopPage(pulls, fetchedAt, 1))
  {
    ScanFromGathers(pulls, fetchedAt, prior, 1);
    match PullsStopPage(pulls, fetchedAt, 1)
    case None =>
    case Some(k) => GatheredIsConcat(pulls, prior, k);
  }

  /** Reads the pull request pages until the first short page or the first page that reaches
      back before the last full fetch, adding each new author after `prior`. */
  method ScanPulls(pulls: nat -> seq<PullRequest>, fetchedAt: Option<int>, prior: seq<Value>)
    returns (r: Option<seq<Value>>)
    ensures r == Expected(pulls, prior, PullsStopPage(pulls, fetchedAt, 1))
  {
    ScanFromStops(pulls, fetchedAt, prior);
    var authors := prior;
    var page := 1;
    while true
      invariant 1 <= page <= MaxPage
      invariant ScanFrom(pulls, fetchedAt, authors, page) == ScanFrom(pulls, fetchedAt, prior, 1)
      decreases MaxPage - page
    {
      var prs := pulls(page);
      authors := PushAbsent(authors, Authors(prs));
      if |prs| < PerPage || OlderThan(prs, fetchedAt) {
        return Some(authors);
      }
      if page >= MaxPage {
        return None;
      }
      page := page + 1;
    }
  }

  method FetchRepoPullRequests(repo: Record, net: Network) returns (r: Result<Record>)
    ensures r == PullsStep(repo, net)
  {
    if !Changed(repo) {
      return Success(repo);
    }
    var authors := PushAbsent([], PriorAuthors(repo));
    var prefix := PullsPrefix(repo);
    if prefix.None? {
      return Failure("AssertionError: pulls_url does not end with {/number}");
    }
    var scanned := ScanPulls(net.pulls(prefix.value), DateOf(repo, "fetched_at"), authors);
    if scanned.None? {
      return Failure("fetchRepoPullRequests(): Infinite loop?");
    }
    return Success(repo["pulls_authors" := Arr(scanned.value)]);
  }

  /** A language's entry: its byte count and its display colour. */
  function Annotation(bytes: int, color: Value): Value
  {
    Obj(map["bytes" := Num(bytes), "color" := color])
  }

  function Annotated(languages: map<string, int>, color: string -> Value): map<string, Value>
  {
    map l | l in languages :: Annotation(languages[l], color(l))
  }

  /** The reply with the languages outside `todo` annotated already. */
  function PartlyAnnotated(reply: map<string, int>, color: string -> Value, todo: set<string>): map<string, Value>
  {
    map l | l in reply :: if l in todo then Num(reply[l]) else Annotation(reply[l], color(l))
  }

  /** Annotating one more language. */
  lemma AnnotateOne(reply: map<string, int>, color: string -> Value, todo: set<string>, l: string)
    requires l in todo && l in reply
    ensures PartlyAnnotated(reply, color, todo)[l := Annotation(reply[l], color(l))]
         == PartlyAnnotated(reply, color, todo - {l})
  {
  }

  /** Replaces each byte count of the reply, in place, by its annotated entry. */
  method AnnotateLanguages(reply: map<string, int>, color: string -> Value) returns (languages: map<string, Value>)
    ensures languages == Annotated(reply, color)
  {
    languages := map l | l in reply :: Num(reply[l]);
    var todo := reply.Keys;
    assert languages == PartlyAnnotated(reply, color, todo);
    while todo != {}
      invariant todo <= reply.Keys
      invariant languages == PartlyAnnotated(reply, color, todo)
      decreases todo
    {
      var l :| l in todo;
      AnnotateOne(reply, color, todo, l);
      languages := languages[l := Annotation(languages[l].n, color(l))];
      todo := todo - {l};
    }
    assert PartlyAnnotated(reply, color, {}) == Annotated(reply, color);
  }

  method FetchRepoLanguages(repo: Record, net: Network) returns (r: Record)
    ensures !Changed(repo) ==> r == repo
    ensures Changed(repo) ==>
      r == repo["languages" := Obj(Annotated(net.languages(Field(repo, "full_name")), net.color))]
  {
    if !Changed(repo) {
      return repo;
    }
    var languages := AnnotateLanguages(net.languages(Field(repo, "full_name")), net.color);
    return repo["languages" := Obj(languages)];
  }

  /** The settings file found from the `i`-th candidate on: the first one that exists wins, and an
      error other than 404 throws. */
  function SettingsFrom(repo: Record, replies: string -> Response, i: nat): Result<Record>
    decreases |SettingsFileNames| - i
  {
    if i >= |SettingsFileNames| then Success(repo)
    else match replies(SettingsFileNames[i])
      case Payload(body) => Success(repo["settings" := Obj(body)])
      case Status(code) =>
        if code == 404 then SettingsFrom(repo, replies, i + 1) else Failure("HTTP error")
  }

  method FetchRepoSettings(repo: Record, net: Network) returns (r: Result<Record>)
    ensures !Changed(repo) ==> r == Success(repo)
    ensures Changed(repo) ==> r == SettingsFrom(repo, net.settings(Field(repo, "full_name")), 0)
  {
    if !Changed(repo) {
      return Success(repo);
    }
    var replies := net.settings(Field(repo, "full_name"));
    for i := 0 to |SettingsFileNames|
      invariant SettingsFrom(repo, replies, i) == SettingsFrom(repo, replies, 0)
    {
      var reply := replies(SettingsFileNames[i]);
      if reply == Status(404) {
        continue;
      }
      if reply.Status? {
        return Failure("HTTP error");
      }
      return Success(repo["settings" := Obj(reply.body)]);
    }
    return Success(repo);
  }

  /** The first settings file that exists is stored; with none, nothing changes. */
  lemma SettingsSpec(repo: Record, replies: string -> Response)
    ensures replies(SettingsFileNames[0]).Payload? ==>
      SettingsFrom(repo, replies, 0) == Success(repo["settings" := Obj(replies(SettingsFileNames[0]).body)])
    ensures replies(SettingsFileNames[0]) == Status(404) && replies(SettingsFileNames[1]).Payload? ==>
      SettingsFrom(repo, replies, 0) == Success(repo["settings" := Obj(replies(SettingsFileNames[1]).body)])
    ensures replies(SettingsFileNames[0]) == Status(404) && replies(SettingsFileNames[1]) == Status(404) ==>
      SettingsFrom(repo, replies, 0) == Success(repo)
    ensures SettingsFrom(repo, replies, 0).Success? ==> OnlyChanged(repo, SettingsFrom(repo, replies, 0).value, "settings")
  {
  }

  /** The contents of the first settings file that exists from the `i`-th candidate on, `None`
      when none does; an error other than 404 throws. */
  function SettingsFile(replies: string -> Response, i: nat): Result<Option<map<string, Value>>>
    decreases |SettingsFileNames| - i
  {
    if i >= |SettingsFileNames| then Success(None)
    else match replies(SettingsFileNames[i])
      case Payload(body) => Success(Some(body))
      case Status(code) =>
        if code == 404 then SettingsFile(replies, i + 1) else Failure("HTTP error")
  }

  /** The repository with the settings file stored, when there is one. */
  function WithSettingsFile(repo: Record, file: Option<map<string, Value>>): Record
  {
    if file.Some? then repo["settings" := Obj(file.value)] else repo
  }

  /** The settings step fails exactly when looking for the file does, and otherwise stores what the
      first existing file holds. */
  lemma {:induction false} SettingsFromFile(repo: Record, replies: string -> Response, i: nat)
    decreases |SettingsFileNames| - i
    ensures SettingsFrom(repo, replies, i).Success? <==> SettingsFile(replies, i).Success?
    ensures SettingsFrom(repo, replies, i).Success? ==>
      SettingsFrom(repo, replies, i).value == WithSettingsFile(repo, SettingsFile(replies, i).value)
  {
    if i < |SettingsFileNames| && replies(SettingsFileNames[i]) == Status(404) {
      SettingsFromFile(repo, replies, i + 1);
    }
  }

  /** Completes a deep fetch: its start becomes the time of the last full fetch. */
  function MarkRepoAsFullyFetched(repo: Record): (r: Record)
    ensures !Has(repo, "fetching_since") ==> r == repo
    ensures Has(repo, "fetching_since") ==>
      "fetching_since" !in r && "fetched_at" in r && r["fetched_at"] == repo["fetching_since"]
    ensures forall k :: k != "fetching_since" && k != "fetched_at" ==>
      (k in r <==> k in repo) && (k in r ==> r[k] == repo[k])
  {
    if Has(repo, "fetching_since") then repo["fetched_at" := repo["fetching_since"]] - {"fetching_since"}
    else repo
  }

  /** The fields a deep fetch may change. */
  const DeepFields := {"contributors", "pulls_authors", "languages", "settings", "fetched_at", "fetching_since"}

  /** `a` and `b` agree on every field a deep fetch does not touch. */
  ghost predicate SameOutside(a: Record, b: Record)
  {
    forall k :: k !in DeepFields ==> (k in a <==> k in b) && (k in a ==> a[k] == b[k])
  }

  /** `b` is `a` after a completed deep fetch: marked as fully fetched at the time the refresh
      started, with nothing changed outside the fields the deep fetch writes. */
  ghost predicate Completed(a: Record, b: Record)
  {
    "fetching_since" in a && "fetching_since" !in b && "fetched_at" in b
    && b["fetched_at"] == a["fetching_since"] && SameOutside(a, b)
  }

  /** A step that writes one of the fetched fields keeps what the next steps read. */
  lemma StepKeeps(a: Record, b: Record, f: string)
    requires f in {"contributors", "pulls_authors", "languages", "settings"} && OnlyChanged(a, b, f)
    ensures SameOutside(a, b) && Changed(a) == Changed(b)
    ensures Has(a, "fetching_since") == Has(b, "fetching_since")
    ensures "fetching_since" in a ==> "fetching_since" in b && a["fetching_since"] == b["fetching_since"]
    ensures Field(a, "full_name") == Field(b, "full_name")
    ensures f != "contributors" ==> ContributorsOf(a) == ContributorsOf(b)
    ensures f != "pulls_authors" ==> Field(a, "pulls_authors") == Field(b, "pulls_authors")
  {
    assert Field(a, "fetched_at") == Field(b, "fetched_at") && Field(a, "pushed_at") == Field(b, "pushed_at");
    assert DateOf(a, "fetched_at") == DateOf(b, "fetched_at") && DateOf(a, "pushed_at") == DateOf(b, "pushed_at");
  }

  lemma SameOutsideTrans(a: Record, b: Record, c: Record)
    requires SameOutside(a, b) && SameOutside(b, c)
    ensures SameOutside(a, c)
  {
  }

  /** The languages step (fetchRepos.js:384-406). */
  function LanguagesStep(repo: Record, net: Network): Record
  {
    if !Changed(repo) then repo
    else repo["languages" := Obj(Annotated(net.languages(Field(repo, "full_name")), net.color))]
  }

  /** The settings step (fetchRepos.js:408-431). */
  function SettingsStep(repo: Record, net: Network): Result<Record>
  {
    if !Changed(repo) then Success(repo) else SettingsFrom(repo, net.settings(Field(repo, "full_name")), 0)
  }

  /** The contributors step, then the pull request authors step. */
  function Participants(repo: Record, net: Network): Result<Record>
  {
    var contributors :- ContributorsStep(repo, net);
    PullsStep(repo["contributors" := Obj(contributors)], net)
  }

  /** The languages step, then the settings step. */
  function Presentation(repo: Record, net: Network): Result<Record>
  {
    SettingsStep(LanguagesStep(repo, net), net)
  }

  /** The four deep-fetch steps, in memory. */
  function Details(repo: Record, net: Network): Result<Record>
  {
    var participants :- Participants(repo, net);
    Presentation(participants, net)
  }

  /** The deep fetch of one repository, as stored on disk once it is over. Each step writes the
      repository only when its `fetching_since` is set, so a repository without it keeps its file
      unchanged even though the first step fills in an empty contributor map in memory. */
  function DeepFetched(repo: Record, net: Network): Result<Record>
  {
    var details :- Details(repo, net);
    Success(if Has(repo, "fetching_since") then MarkRepoAsFullyFetched(details) else repo)
  }

  /** Filling in the contributors changes nothing the pull request step reads. */
  lemma PullsStepFrame(a: Record, b: Record, net: Network)
    requires OnlyChanged(a, b, "contributors")
    ensures PullsStep(a, net).Success? <==> PullsStep(b, net).Success?
    ensures PullsStep(a, net).Success? ==>
      Field(PullsStep(b, net).value, "pulls_authors") == Field(PullsStep(a, net).value, "pulls_authors")
  {
    PullsInputsKept(a, b);
  }

  /** What the pull request step reads of a repository other than its contributors. */
  lemma PullsInputsKept(a: Record, b: Record)
    requires OnlyChanged(a, b, "contributors")
    ensures Changed(a) == Changed(b) && PullsPrefix(a) == PullsPrefix(b) && PriorAuthors(a) == PriorAuthors(b)
    ensures DateOf(a, "fetched_at") == DateOf(b, "fetched_at")
  {
    StepKeeps(a, b, "contributors");
    assert Field(a, "pulls_url") == Field(b, "pulls_url");
    assert Field(a, "fetched_at") == Field(b, "fetched_at");
  }

  /** The records a successful deep fetch of a changed repository goes through, step by step. */
  lemma DetailsSteps(repo: Record, net: Network)
    requires Changed(repo) && Participants(repo, net).Success?
    ensures ContributorsStep(repo, net).Success? && PullsStep(repo, net).Success?
    ensures var p := Participants(repo, net).value;
      SameOutside(repo, p) && Changed(p) && Field(p, "full_name") == Field(repo, "full_name")
      && Field(p, "fetching_since") == Field(repo, "fetching_since")
      && Field(p, "contributors") == Obj(ContributorsStep(repo, net).value)
      && Field(p, "pulls_authors") == Field(PullsStep(repo, net).value, "pulls_authors")
      && Field(p, "languages") == Field(repo, "languages") && Field(p, "settings") == Field(repo, "settings")
  {
    var rec1 := repo["contributors" := Obj(ContributorsStep(repo, net).value)];
    StepKeeps(repo, rec1, "contributors");
    PullsStepFrame(repo, rec1, net);
    var p := PullsStep(rec1, net).value;
    PullsAuthorsSpec(rec1, net);
    StepKeeps(rec1, p, "pulls_authors");
    SameOutsideTrans(repo, rec1, p);
  }

  /** The first two steps of a changed repository fail exactly when one of them throws. */
  lemma ParticipantsFails(repo: Record, net: Network)
    requires Changed(repo)
    ensures Participants(repo, net).Success? <==> ContributorsStep(repo, net).Success? && PullsStep(repo, net).Success?
  {
    if ContributorsStep(repo, net).Success? {
      var rec1 := repo["contributors" := Obj(ContributorsStep(repo, net).value)];
      PullsStepFrame(repo, rec1, net);
    }
  }

  /** The last two steps of a changed repository fail exactly when reading a settings file does. */
  lemma PresentationFails(repo: Record, net: Network)
    requires Changed(repo)
    ensures Presentation(repo, net).Success? <==> SettingsFile(net.settings(Field(repo, "full_name")), 0).Success?
  {
    var rec := LanguagesStep(repo, net);
    StepKeeps(repo, rec, "languages");
    SettingsFromFile(rec, net.settings(Field(rec, "full_name")), 0);
  }

  /** A deep fetch fails exactly when one of its steps throws: the commit scan, the pull request
      listing (a malformed `pulls_url`, or no last page before page 10000), or reading a settings
      file. */
  lemma DeepFetchedFails(repo: Record, net: Network)
    ensures DeepFetched(repo, net).Success? <==>
      !Changed(repo)
      || (ContributorsStep(repo, net).Success? && PullsStep(repo, net).Success?
          && SettingsFile(net.settings(Field(repo, "full_name")), 0).Success?)
  {
    if Changed(repo) {
      ParticipantsFails(repo, net);
      if Participants(repo, net).Success? {
        DetailsSteps(repo, net);
        PresentationFails(Participants(repo, net).value, net);
      }
    }
  }

  /** What the last two steps of a changed repository store: the annotated languages and the first
      existing settings file; everything else is kept. */
  lemma PresentationValues(repo: Record, net: Network)
    requires Changed(repo) && Presentation(repo, net).Success?
    ensures var q := Presentation(repo, net).value;
      SameOutside(repo, q) && Field(q, "fetching_since") == Field(repo, "fetching_since")
      && Field(q, "contributors") == Field(repo, "contributors")
      && Field(q, "pulls_authors") == Field(repo, "pulls_authors")
      && Field(q, "languages") == Obj(Annotated(net.languages(Field(repo, "full_name")), net.color))
    ensures SettingsFile(net.settings(Field(repo, "full_name")), 0).Success?
      && Field(Presentation(repo, net).value, "settings")
         == match SettingsFile(net.settings(Field(repo, "full_name")), 0).value
            case Some(file) => Obj(file)
            case None => Field(repo, "settings")
  {
    var rec := LanguagesStep(repo, net);
    StepKeeps(repo, rec, "languages");
    var replies := net.settings(Field(repo, "full_name"));
    SettingsFromFile(rec, replies, 0);
    var q := SettingsFrom(rec, replies, 0).value;
    SettingsSpec(rec, replies);
    StepKeeps(rec, q, "settings");
    SameOutsideTrans(repo, rec, q);
  }

  /** What a successful deep fetch of a changed repository stores: each fetched field is what its
      step computes, and the repository is marked as fully fetched. */
  lemma DeepFetchedValues(repo: Record, net: Network)
    requires Changed(repo) && DeepFetched(repo, net).Success?
    ensures Completed(repo, DeepFetched(repo, net).value)
    ensures ContributorsStep(repo, net).Success?
      && Field(DeepFetched(repo, net).value, "contributors") == Obj(ContributorsStep(repo, net).value)
    ensures PullsStep(repo, net).Success?
      && Field(DeepFetched(repo, net).value, "pulls_authors") == Field(PullsStep(repo, net).value, "pulls_authors")
    ensures Field(DeepFetched(repo, net).value, "languages")
      == Obj(Annotated(net.languages(Field(repo, "full_name")), net.color))
    ensures SettingsFile(net.settings(Field(repo, "full_name")), 0).Success?
      && Field(DeepFetched(repo, net).value, "settings")
         == match SettingsFile(net.settings(Field(repo, "full_name")), 0).value
            case Some(file) => Obj(file)
            case None => Field(repo, "settings")
  {
    DetailsSteps(repo, net);
    var p := Participants(repo, net).value;
    PresentationValues(p, net);
    var q := Presentation(p, net).value;
    SameOutsideTrans(repo, p, q);
    var r := MarkRepoAsFullyFetched(q);
    assert r == DeepFetched(repo, net).value;
  }

  /** The contributors and pull request authors steps, in memory. */
  method FetchParticipants(repo: Record, net: Network) returns (r: Result<Record>)
    ensures r == Participants(repo, net)
    ensures !Changed(repo) ==> r == Success(repo["contributors" := Obj(ContributorsOf(repo))])
    ensures r.Failure? ==> Changed(repo)
    ensures r.Success? ==>
      SameOutside(repo, r.value) && Changed(r.value) == Changed(repo)
      && Field(r.value, "fetching_since") == Field(repo, "fetching_since")
      && Field(r.value, "full_name") == Field(repo, "full_name")
    ensures r.Success? && Changed(repo) ==> ContributorsOf(repo).Keys <= ContributorsOf(r.value).Keys
    ensures r.Success? && Changed(repo) ==>
      "pulls_authors" in r.value && r.value["pulls_authors"].Arr? && NoDups(r.value["pulls_authors"].items)
      && forall a :: a in PriorAuthors(repo) ==> a in r.value["pulls_authors"].items
  {
    ContributorsGrow(repo, net);
    var withContributors := FetchRepoContributors(repo, net);
    if withContributors.Failure? {
      return Failure(withContributors.error);
    }
    var rec1 := withContributors.value;
    StepKeeps(repo, rec1, "contributors");
    assert PriorAuthors(rec1) == PriorAuthors(repo);

    var withPulls := FetchRepoPullRequests(rec1, net);
    if withPulls.Failure? {
      return Failure(withPulls.error);
    }
    var rec2 := withPulls.value;
    if Changed(rec1) {
      PullsAuthorsSpec(rec1, net);
    }
    StepKeeps(rec1, rec2, "pulls_authors");
    SameOutsideTrans(repo, rec1, rec2);
    return Success(rec2);
  }

  /** The languages and settings steps, in memory. */
  method FetchPresentation(repo: Record, net: Network) returns (r: Result<Record>)
    ensures r == Presentation(repo, net)
    ensures !Changed(repo) ==> r == Success(repo)
    ensures r.Failure? ==> Changed(repo)
    ensures r.Success? ==>
      SameOutside(repo, r.value)
      && Field(r.value, "fetching_since") == Field(repo, "fetching_since")
      && ContributorsOf(r.value) == ContributorsOf(repo)
      && Field(r.value, "pulls_authors") == Field(repo, "pulls_authors")
  {
    var rec1 := FetchRepoLanguages(repo, net);
    StepKeeps(repo, rec1, "languages");
    var withSettings := FetchRepoSettings(rec1, net);
    if withSettings.Failure? {
      return Failure(withSettings.error);
    }
    var rec2 := withSettings.value;
    SettingsSpec(rec1, net.settings(Field(rec1, "full_name")));
    StepKeeps(rec1, rec2, "settings");
    SameOutsideTrans(repo, rec1, rec2);
    return Success(rec2);
  }

  /** The contributors, pull request authors, languages and settings steps, in memory. */
  method FetchDetails(repo: Record, net: Network) returns (r: Result<Record>)
    ensures r == Details(repo, net)
    ensures !Changed(repo) ==> r == Success(repo["contributors" := Obj(ContributorsOf(repo))])
    ensures r.Failure? ==> Changed(repo)
    ensures r.Success? ==> SameOutside(repo, r.value) && Field(r.value, "fetching_since") == Field(repo, "fetching_since")
    ensures r.Success? && Changed(repo) ==> ContributorsOf(repo).Keys <= ContributorsOf(r.value).Keys
    ensures r.Success? && Changed(repo) ==>
      "pulls_authors" in r.value && r.value["pulls_authors"].Arr? && NoDups(r.value["pulls_authors"].items)
      && forall a :: a in PriorAuthors(repo) ==> a in r.value["pulls_authors"].items
  {
    var participants := FetchParticipants(repo, net);
    if participants.Failure? {
      return Failure(participants.error);
    }
    var rec := FetchPresentation(participants.value, net);
    if rec.Failure? {
      return Failure(rec.error);
    }
    SameOutsideTrans(repo, participants.value, rec.value);
    return rec;
  }

  /** The deep fetch of one repository (fetchRepos.js:124-133). */
  method DeepFetch(repo: Record, net: Network) returns (r: Result<Record>)
    ensures r == DeepFetched(repo, net)
    ensures !Has(repo, "fetching_since") ==> r == Success(repo)
    ensures Has(repo, "fetching_since") && !Changed(repo) ==>
      r == Success(MarkRepoAsFullyFetched(repo["contributors" := Obj(ContributorsOf(repo))]))
    ensures r.Failure? ==> Changed(repo)
    ensures r.Success? && Has(repo, "fetching_since") ==> Completed(repo, r.value)
    ensures r.Success? && Changed(repo) ==> ContributorsOf(repo).Keys <= ContributorsOf(r.value).Keys
    ensures r.Success? && Changed(repo) ==>
      "pulls_authors" in r.value && r.value["pulls_authors"].Arr? && NoDups(r.value["pulls_authors"].items)
      && forall a :: a in PriorAuthors(repo) ==> a in r.value["pulls_authors"].items
  {
    var fetched := FetchDetails(repo, net);
    if fetched.Failure? {
      return Failure(fetched.error);
    }
    if !Has(repo, "fetching_since") {
      return Success(repo);
    }
    var rec := MarkRepoAsFullyFetched(fetched.value);
    assert SameOutside(fetched.value, rec);
    SameOutsideTrans(repo, fetched.value, rec);
    assert ContributorsOf(rec) == ContributorsOf(fetched.value);
    assert Field(rec, "pulls_authors") == Field(fetched.value, "pulls_authors");
    return Success(rec);
  }

  /** A repository the deep fetch works on: still on GitHub and significant. */
  predicate Wanted(repo: Record)
  {
    !Has(repo, "removed_from_github") && !Has(repo, "ghuser_insignificant")
  }

  /** A wanted repository that a refresh has just written. */
  predicate DeepFetchDue(repo: Record)
  {
    Wanted(repo) && Has(repo, "fetching_since")
  }

  /** The deep fetch of every wanted repository succeeds. */
  predicate AllDeepFetched(repos: map<string, Record>, net: Network)
  {
    forall k :: k in repos && Wanted(repos[k]) ==> DeepFetched(repos[k], net).Success?
  }

  /** The repository deep-fetched when it is wanted, as it was otherwise. */
  function DeepResult(repo: Record, net: Network): Record
  {
    if Wanted(repo) && DeepFetched(repo, net).Success? then DeepFetched(repo, net).value else repo
  }

  /** Each wanted repository deep-fetched, the others as they were. */
  function DeepResults(repos: map<string, Record>, net: Network): map<string, Record>
  {
    map k | k in repos :: DeepResult(repos[k], net)
  }

  /** A successful deep fetch leaves a repository without `fetching_since` as it was, and
      completes any other. */
  lemma DeepFetchedKeeps(repo: Record, net: Network)
    requires DeepFetched(repo, net).Success?
    ensures !Has(repo, "fetching_since") ==> DeepFetched(repo, net).value == repo
    ensures Has(repo, "fetching_since") ==> Completed(repo, DeepFetched(repo, net).value)
  {
    if Changed(repo) {
      DeepFetchedValues(repo, net);
    } else if Has(repo, "fetching_since") {
      var rec1 := repo["contributors" := Obj(ContributorsOf(repo))];
      StepKeeps(repo, rec1, "contributors");
      assert Details(repo, net) == Success(rec1);
      assert SameOutside(rec1, MarkRepoAsFullyFetched(rec1));
      SameOutsideTrans(repo, rec1, MarkRepoAsFullyFetched(rec1));
    }
  }

  /** After the deep fetch of every wanted repository, those due are completed and the others are
      as they were. */
  lemma DeepResultsKeep(repos: map<string, Record>, net: Network)
    requires AllDeepFetched(repos, net)
    ensures forall k :: k in repos && !DeepFetchDue(repos[k]) ==> DeepResults(repos, net)[k] == repos[k]
    ensures forall k :: k in repos && DeepFetchDue(repos[k]) ==> Completed(repos[k], DeepResults(repos, net)[k])
  {
    forall k | k in repos && Wanted(repos[k])
      ensures !Has(repos[k], "fetching_since") ==> DeepResult(repos[k], net) == repos[k]
      ensures Has(repos[k], "fetching_since") ==> Completed(repos[k], DeepResult(repos[k], net))
    {
      DeepFetchedKeeps(repos[k], net);
    }
  }

  /** Deep-fetches every repository that exists on GitHub and is significant; the first exception
      aborts the run. */
  method DeepFetchAll(repos: map<string, Record>, net: Network) returns (r: Result<map<string, Record>>)
    ensures r.Success? <==> AllDeepFetched(repos, net)
    ensures r.Success? ==> r.value == DeepResults(repos, net)
    ensures r.Success? ==> r.value.Keys == repos.Keys
    ensures r.Success? ==> forall k :: k in repos && !DeepFetchDue(repos[k]) ==> r.value[k] == repos[k]
    ensures r.Success? ==> forall k :: k in repos && DeepFetchDue(repos[k]) ==> Completed(repos[k], r.value[k])
  {
    var current := repos;
    var todo := repos.Keys;
    while todo != {}
      invariant todo <= repos.Keys && current.Keys == repos.Keys
      invariant forall k :: k in repos - todo && Wanted(repos[k]) ==> DeepFetched(repos[k], net).Success?
      invariant forall k :: k in repos ==> current[k] == if k in todo then repos[k] else DeepResult(repos[k], net)
      decreases todo
    {
      var k :| k in todo;
      var repo := current[k];
      assert repo == repos[k];
      if !Has(repo, "removed_from_github") && !Has(repo, "ghuser_insignificant") {
        var fetched := DeepFetch(repo, net);
        if fetched.Failure? {
          return Failure(fetched.error);
        }
        current := current[k := fetched.value];
      }
      assert current[k] == DeepResult(repos[k], net);
      todo := todo - {k};
    }
    assert current == DeepResults(repos, net);
    DeepResultsKeep(repos, net);
    return Success(current);
  }

  // ---------------------------------------------------------------------------------------------
  // Renamed repositories

  /** The repository's current full name, when it has one. */
  function FullName(repo: Record): Option<string>
  {
    if "full_name" in repo && repo["full_name"].Str? && repo["full_name"].s != ""
    then Some(repo["full_name"].s) else None
  }

  /** Every repository still on GitHub can be found under its current full name. */
  ghost predicate RenamesResolved(repos: map<string, Record>)
  {
    forall k :: k in repos && !Has(repos[k], "removed_from_github") ==>
      FullName(repos[k]).Some? && FullName(repos[k]).value in repos
  }

  /** Every repository still on GitHub has a current full name. */
  predicate Resolvable(repos: map<string, Record>)
  {
    forall k :: k in repos && !Has(repos[k], "removed_from_github") ==> FullName(repos[k]).Some?
  }

  /** Copies each repository that GitHub reports under a new name to a file of that name, unless
      one exists already. */
  method CreateRenamedRepos(repos: map<string, Record>) returns (r: Result<map<string, Record>>)
    ensures r.Success? <==> Resolvable(repos)
    ensures r.Success? ==> repos.Keys <= r.value.Keys && forall k :: k in repos ==> r.value[k] == repos[k]
    ensures r.Success? ==> forall k :: k in r.value && k !in repos ==>
      exists o :: o in repos && !Has(repos[o], "removed_from_github") && FullName(repos[o]) == Some(k) && r.value[k] == repos[o]
    ensures r.Success? ==> RenamesResolved(r.value)
    ensures RenamesResolved(repos) ==> r == Success(repos)
  {
    var current := repos;
    var todo := repos.Keys;
    while todo != {}
      invariant todo <= repos.Keys && repos.Keys <= current.Keys
      invariant forall k :: k in repos ==> current[k] == repos[k]
      invariant forall k :: k in current && k !in repos ==>
        exists o :: o in repos && !Has(repos[o], "removed_from_github") && FullName(repos[o]) == Some(k) && current[k] == repos[o]
      invariant forall k :: k in repos - todo && !Has(repos[k], "removed_from_github") ==>
        FullName(repos[k]).Some? && FullName(repos[k]).value in current
      invariant RenamesResolved(repos) ==> current == repos
      decreases todo
    {
      var k :| k in todo;
      var repo := current[k];
      if !Has(repo, "removed_from_github") {
        var latest := FullName(repo);
        if latest.None? {
          return Failure(k + " has no full name");
        }
        if k != latest.value && latest.value !in current {
          current := current[latest.value := repo];
        }
      }
      todo := todo - {k};
    }
    forall k | k in current && !Has(current[k], "removed_from_github")
      ensures FullName(current[k]).Some? && FullName(current[k]).value in current
    {
      if k !in repos {
        var o :| o in repos && !Has(repos[o], "removed_from_github") && FullName(repos[o]) == Some(k) && current[k] == repos[o];
      }
    }
    return Success(current);
  }

  // ---------------------------------------------------------------------------------------------
  // The whole run

  /** The file a referenced repository is refreshed from: its stored file, or an empty one, with the
      do-not-edit comment. */
  function Prepared(stored: map<string, Record>, k: string): Record
  {
    (if k in stored then stored[k] else map[])["_comment" := Str(ReposComment)]
  }

  /** No refresh of a referenced repository throws. */
  predicate RefreshSucceeds(referenced: set<string>, stored: map<string, Record>, now: int, firsttime: bool,
                            replies: string -> Response)
  {
    forall k :: k in referenced ==> !FetchRepoOutcome(Prepared(stored, k), now, firsttime, replies(k)).Thrown?
  }

  /** The referenced repositories once refreshed; no other file is left. */
  function RefreshedRepos(referenced: set<string>, stored: map<string, Record>, now: int, firsttime: bool,
                          replies: string -> Response): map<string, Record>
  {
    map k | k in referenced ::
      Applied(FetchRepoOutcome(Prepared(stored, k), now, firsttime, replies(k)), Prepared(stored, k))
  }

  /** Refreshing the stamped files, then dropping the unreferenced ones, leaves exactly the
      refreshed referenced repositories. */
  lemma StrippedRefreshed(repos: map<string, Record>, fetched: map<string, Record>, stripped: map<string, Record>,
                          referenced: set<string>, stored: map<string, Record>, now: int, firsttime: bool,
                          replies: string -> Response)
    requires referenced <= repos.Keys && fetched.Keys == repos.Keys
    requires forall k :: k in referenced ==> repos[k] == Prepared(stored, k)
    requires forall k :: k in repos ==>
      fetched[k] == if k in referenced then Applied(FetchRepoOutcome(repos[k], now, firsttime, replies(k)), repos[k])
                    else repos[k]
    requires stripped.Keys == fetched.Keys * referenced && forall k :: k in stripped ==> stripped[k] == fetched[k]
    ensures stripped == RefreshedRepos(referenced, stored, now, firsttime, replies)
  {
    assert stripped.Keys == referenced;
  }

  /** The first half of a run: discovery, the do-not-edit stamp, the refresh of every referenced
      repository and the removal of the others. */
  method RefreshReferenced(users: seq<Record>, stored: map<string, Record>, firsttime: bool, now: int,
                           replies: string -> Response)
    returns (r: Result<map<string, Record>>)
    ensures r.Success? <==> AllNamed(users) && RefreshSucceeds(Referenced(users), stored, now, firsttime, replies)
    ensures r.Success? ==> r.value == RefreshedRepos(Referenced(users), stored, now, firsttime, replies)
  {
    var discovered := Discover(users, stored);
    if discovered.Failure? {
      return Failure(discovered.error);
    }
    var referenced := discovered.value.0;
    var repos := StampRepos(discovered.value.1);
    assert forall k :: k in referenced ==> repos[k] == Prepared(stored, k);
    assert RefreshSucceeds(referenced, stored, now, firsttime, replies)
       <==> forall k :: k in referenced ==> !FetchRepoOutcome(repos[k], now, firsttime, replies(k)).Thrown?;
    var fetched := FetchReferencedRepos(repos, referenced, now, firsttime, replies);
    if fetched.Failure? {
      return Failure(fetched.error);
    }
    var stripped := StripUnreferencedRepos(fetched.value, referenced);
    StrippedRefreshed(repos, fetched.value, stripped, referenced, stored, now, firsttime, replies);
    return Success(stripped);
  }

  /** One run of the repository crawl over the users and the stored repository files. */
  method FetchRepos(users: seq<Record>, stored: map<string, Record>, firsttime: bool, now: int, net: Network)
    returns (r: Result<map<string, Record>>)
    ensures r.Success? <==>
      AllNamed(users) && RefreshSucceeds(Referenced(users), stored, now, firsttime, net.repo)
      && AllDeepFetched(RefreshedRepos(Referenced(users), stored, now, firsttime, net.repo), net)
      && Resolvable(DeepResults(RefreshedRepos(Referenced(users), stored, now, firsttime, net.repo), net))
    ensures r.Success? ==> AllNamed(users)
    ensures r.Success? ==> Referenced(users) <= r.value.Keys
    ensures r.Success? ==> forall k :: k in Referenced(users) ==>
      r.value[k] == DeepResult(RefreshedRepos(Referenced(users), stored, now, firsttime, net.repo)[k], net)
    ensures r.Success? ==> forall k :: k in r.value && k !in Referenced(users) ==>
      exists o :: o in Referenced(users) && !Has(r.value[o], "removed_from_github")
        && FullName(r.value[o]) == Some(k) && r.value[k] == r.value[o]
    ensures r.Success? ==> RenamesResolved(r.value)
  {
    var refreshed := RefreshReferenced(users, stored, firsttime, now, net.repo);
    if refreshed.Failure? {
      return Failure(refreshed.error);
    }
    var deep := DeepFetchAll(refreshed.value, net);
    if deep.Failure? {
      return Failure(deep.error);
    }
    var renamed := CreateRenamedRepos(deep.value);
    if renamed.Failure? {
      return Failure(renamed.error);
    }
    return Success(renamed.value);
  }
}
