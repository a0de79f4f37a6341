/** The user crawl of fetchUserDetailsAndContribs.js: refreshing a user's GitHub record, the
    organizations the user belongs to, the repositories the user contributed to, the user's
    popular forks and the user's settings. */
module FetchUserDetails {
  import opened Records

  /** Fields of a user's GitHub record that are dropped to keep the database small. */
  const UserDenylist: set<string> := {
    "id", "node_id", "gravatar_id", "followers_url", "following_url", "gists_url", "starred_url",
    "subscriptions_url", "events_url", "received_events_url", "site_admin", "hireable",
    "public_repos", "followers", "following", "private_gists", "total_private_repos",
    "owned_private_repos", "disk_usage", "collaborators", "two_factor_authentication", "plan", "url"}

  /** 2000-01-01T00:00:00.000Z, the date of a contribution list that was never fetched. */
  const ContribsEpoch := 946684800000
  /** Popular forks are looked for on the first pages of the user's repositories only. */
  const MaxForkPages := 5
  const NullEntry := "TypeError: Cannot read property of null"

  /** What GitHub and the contribution crawler answer about one user. */
  datatype UserNetwork = UserNetwork(
    details: Response,          // the user's record, or 304 when unchanged since the last fetch
    orgs: seq<Value>,           // the organizations listed at the user's `organizations_url`
    contribs: seq<Value>,       // the repositories the user contributed to since the last fetch
    forks: nat -> seq<Value>,   // the pages of the user's repositories
    settings: Response)         // the user's settings file, or 404

  // ---------------------------------------------------------------------------------------------
  // Details

  /** The user's record after the details reply. */
  function Detailed(user: Record, reply: Response): Result<Record>
  {
    match reply
    case Status(code) => if code == 304 then Success(user) else Failure("HTTP error")
    case Payload(body) => Success(Pruned(user + body, UserDenylist))
  }

  /** The user's GitHub record, merged over the stored one and trimmed; a 304 changes nothing. */
  method FetchDetails(user: Record, reply: Response) returns (r: Result<Record>)
    ensures r == Detailed(user, reply)
    ensures reply == Status(304) ==> r == Success(user)
    ensures reply.Status? && reply.code != 304 ==> r.Failure?
    ensures reply.Payload? ==>
      (r.Success? && (forall f :: f in UserDenylist ==> f !in r.value)
       && forall k :: k !in UserDenylist ==>
            (k in r.value <==> k in user || k in reply.body)
            && (k in reply.body ==> r.value[k] == reply.body[k])
            && (k in user && k !in reply.body ==> r.value[k] == user[k]))
  {
    match reply
    case Status(code) =>
      if code == 304 {
        return Success(user);
      }
      return Failure("HTTP error");
    case Payload(body) =>
      var merged := user + body;
      var trimmed := DeleteFields(merged, UserDenylist);
      return Success(trimmed);
  }

  // ---------------------------------------------------------------------------------------------
  // Organizations

  /** `org.login`; reading it from `null` throws, and a missing login is stored as `null`. */
  function OrgLogin(org: Value): Result<Value>
  {
    match org
    case Null => Failure(NullEntry)
    case Obj(fields) => Success(if "login" in fields then fields["login"] else Null)
    case _ => Success(Null)
  }

  /** The logins of `orgs`, in order. */
  function OrgLogins(orgs: seq<Value>): (r: Result<seq<Value>>)
    ensures r.Success? <==> forall i :: 0 <= i < |orgs| ==> orgs[i] != Null
    ensures r.Failure? ==> r == Failure(NullEntry)
    ensures r.Success? ==> |r.value| == |orgs| && forall i :: 0 <= i < |orgs| ==> OrgLogin(orgs[i]) == Success(r.value[i])
  {
    if orgs == [] then Success([])
    else
      var init :- OrgLogins(orgs[..|orgs| - 1]);
      var last :- OrgLogin(orgs[|orgs| - 1]);
      Success(init + [last])
  }

  /** The user's record with the listed organizations. */
  function WithOrgs(user: Record, orgs: seq<Value>): Result<Record>
  {
    var logins :- OrgLogins(orgs);
    Success(user["organizations" := Arr(logins)])
  }

  /** Replaces the user's organizations with the logins GitHub lists, in its order. */
  method FetchOrgs(user: Record, orgs: seq<Value>) returns (r: Result<Record>)
    ensures r == WithOrgs(user, orgs)
    ensures r.Success? <==> forall i :: 0 <= i < |orgs| ==> orgs[i] != Null
    ensures r.Success? ==>
      (OnlyChanged(user, r.value, "organizations")
       && "organizations" in r.value && r.value["organizations"].Arr?
       && |r.value["organizations"].items| == |orgs|
       && forall i :: 0 <= i < |orgs| ==> OrgLogin(orgs[i]) == Success(r.value["organizations"].items[i]))
  {
    var logins: seq<Value> := [];
    for i := 0 to |orgs|
      invariant OrgLogins(orgs[..i]) == Success(logins)
    {
      assert orgs[..i + 1][..i] == orgs[..i];
      if orgs[i] == Null {
        assert OrgLogins(orgs).Failure?;
        return Failure(NullEntry);
      }
      var login := OrgLogin(orgs[i]).value;
      logins := logins + [login];
    }
    assert orgs[..|orgs|] == orgs;
    return Success(user["organizations" := Arr(logins)]);
  }

  // ---------------------------------------------------------------------------------------------
  // Contributions

  /** The user's contribution list and its repositories; a user without one starts from an
      empty list dated 2000-01-01. */
  function Contribs(user: Record): Result<(map<string, Value>, seq<Value>)>
  {
    if !Has(user, "contribs") then
      Success((map["fetched_at" := Time(ContribsEpoch), "repos" := Arr([])], []))
    else
      var contribs := user["contribs"];
      if contribs.Obj? && "repos" in contribs.fields && contribs.fields["repos"].Arr?
      then Success((contribs.fields, contribs.fields["repos"].items))
      else Failure("TypeError: contribs.repos is not a list")
  }

  /** The contribution list with `repos` in place of its repositories. */
  function WithRepos(contribs: map<string, Value>, repos: seq<Value>): Value
  {
    Obj(contribs["repos" := Arr(repos)])
  }

  /** The user's record with the fetched repositories added to its contribution list. */
  function WithContribs(user: Record, fetched: seq<Value>, now: int): Result<Record>
  {
    var read :- Contribs(user);
    Success(user["contribs" := Obj(read.0["repos" := Arr(AppendNew(read.1, fetched))]["fetched_at" := Time(now)])])
  }

  /** Adds the repositories the user contributed to since the last fetch, after the known ones
      and only when new, and dates the list `now`. */
  method FetchContribs(user: Record, fetched: seq<Value>, now: int) returns (r: Result<Record>)
    ensures r == WithContribs(user, fetched, now)
    ensures r.Success? <==> Contribs(user).Success?
    ensures r.Success? ==>
      (OnlyChanged(user, r.value, "contribs")
       && var (contribs, repos) := Contribs(user).value;
          "contribs" in r.value
          && r.value["contribs"] == Obj(contribs["repos" := Arr(AppendNew(repos, fetched))]["fetched_at" := Time(now)]))
    ensures r.Success? ==> var repos := Contribs(user).value.1;
      var after := AppendNew(repos, fetched);
      |after| >= |repos| && after[..|repos|] == repos && (forall v :: v in after <==> v in repos || v in fetched)
      && (NoDups(repos) ==> NoDups(after))
  {
    var read :- Contribs(user);
    var (contribs, repos) := read;
    AppendNewSpec(repos, fetched);
    var merged := PushAbsent(repos, fetched);
    var updated := contribs["repos" := Arr(merged)]["fetched_at" := Time(now)];
    return Success(user["contribs" := Obj(updated)]);
  }

  // ---------------------------------------------------------------------------------------------
  // Popular forks

  /** `repo.fork && repo.stargazers_count >= 1` */
  predicate PopularFork(repo: Value)
  {
    repo.Obj? && "fork" in repo.fields && Truthy(repo.fields["fork"])
    && "stargazers_count" in repo.fields && repo.fields["stargazers_count"].Num?
    && repo.fields["stargazers_count"].n >= 1
  }

  /** `repo.full_name`, `null` when missing. */
  function FullName(repo: Value): Value
    requires repo.Obj?
  {
    if "full_name" in repo.fields then repo.fields["full_name"] else Null
  }

  /** The names of the popular forks among `repos`, in order; a `null` entry throws. */
  function ForkNames(repos: seq<Value>): (r: Result<seq<Value>>)
    ensures r.Success? <==> Null !in repos
    ensures r.Failure? ==> r == Failure(NullEntry)
  {
    if repos == [] then Success([])
    else
      var init := repos[..|repos| - 1];
      var last := repos[|repos| - 1];
      assert repos == init + [last];
      var names :- ForkNames(init);
      if last == Null then Failure(NullEntry)
      else Success(names + if PopularFork(last) then [FullName(last)] else [])
  }

  /** The names are those of the popular forks listed. */
  lemma {:induction false} ForkNamesMembers(repos: seq<Value>)
    requires Null !in repos
    ensures forall v :: v in ForkNames(repos).value <==> exists repo :: repo in repos && PopularFork(repo) && v == FullName(repo)
  {
    if repos != [] {
      var init := repos[..|repos| - 1];
      assert repos == init + [repos[|repos| - 1]];
      ForkNamesMembers(init);
    }
  }

  lemma {:induction false} ForkNamesConcat(a: seq<Value>, b: seq<Value>)
    requires Null !in a && Null !in b
    ensures ForkNames(a + b) == Success(ForkNames(a).value + ForkNames(b).value)
    decreases |b|
  {
    if b == [] {
      assert a + b == a;
      assert ForkNames(b) == Success([]);
      assert ForkNames(a).value + [] == ForkNames(a).value;
    } else {
      var init, last := b[..|b| - 1], b[|b| - 1];
      assert b == init + [last];
      ForkNamesConcat(a, init);
      var tail := if PopularFork(last) then [FullName(last)] else [];
      assert (a + b)[..|a + b| - 1] == a + init;
      assert (a + b)[|a + b| - 1] == last;
      assert ForkNames(b) == Success(ForkNames(init).value + tail);
      assert ForkNames(a + b) == Success(ForkNames(a + init).value + tail);
      assert ForkNames(a).value + ForkNames(init).value + tail == ForkNames(a).value + (ForkNames(init).value + tail);
    }
  }

  /** The last page of repositories read: the first short page, or the fifth. */
  function ForkStop(forks: nat -> seq<Value>, page: nat): nat
    decreases MaxForkPages - page
  {
    if page >= MaxForkPages || |forks(page)| < PerPage then page else ForkStop(forks, page + 1)
  }

  /** At most five pages are read; reading stops at the first short page. */
  lemma {:induction false} ForkStopSpec(forks: nat -> seq<Value>, page: nat)
    requires 1 <= page <= MaxForkPages
    ensures var k := ForkStop(forks, page);
      page <= k <= MaxForkPages && (k < MaxForkPages ==> |forks(k)| < PerPage)
      && forall j :: page <= j < k ==> |forks(j)| >= PerPage
    decreases MaxForkPages - page
  {
    if page < MaxForkPages && |forks(page)| >= PerPage {
      ForkStopSpec(forks, page + 1);
    }
  }

  /** The contribution list after adding the popular forks on the pages read. */
  function Forked(user: Record, forks: nat -> seq<Value>): Result<Record>
    requires Contribs(user).Success? && Has(user, "contribs")
  {
    var (contribs, repos) := Contribs(user).value;
    var names :- ForkNames(Concat(forks, ForkStop(forks, 1)));
    Success(user["contribs" := WithRepos(contribs, AppendNew(repos, names))])
  }

  /** The forks are added after the known repositories, each only once, and nothing else in the
      user's record changes. */
  lemma ForkedSpec(user: Record, forks: nat -> seq<Value>)
    requires Contribs(user).Success? && Has(user, "contribs") && Forked(user, forks).Success?
    ensures OnlyChanged(user, Forked(user, forks).value, "contribs")
    ensures var repos := Contribs(user).value.1;
      var names := ForkNames(Concat(forks, ForkStop(forks, 1))).value;
      var after := Contribs(Forked(user, forks).value);
      after.Success? && after.value.1 == AppendNew(repos, names)
      && |after.value.1| >= |repos| && after.value.1[..|repos|] == repos
      && (forall v :: v in after.value.1 <==> v in repos || v in names)
      && (NoDups(repos) ==> NoDups(after.value.1))
  {
    var repos := Contribs(user).value.1;
    var names := ForkNames(Concat(forks, ForkStop(forks, 1))).value;
    AppendNewSpec(repos, names);
  }

  /** Adds the popular forks of one page. */
  method AddForks(repos: seq<Value>, page: seq<Value>) returns (r: Result<seq<Value>>)
    ensures r.Success? <==> ForkNames(page).Success?
    ensures r.Success? ==> r.value == AppendNew(repos, ForkNames(page).value)
    ensures r.Failure? ==> r == Failure(NullEntry)
  {
    var current := repos;
    for i := 0 to |page|
      invariant Null !in page[..i]
      invariant current == AppendNew(repos, ForkNames(page[..i]).value)
    {
      var repo := page[i];
      if repo == Null {
        assert Null in page;
        return Failure(NullEntry);
      }
      assert page[..i + 1] == page[..i] + [repo];
      ForkNamesConcat(page[..i], [repo]);
      var name := if PopularFork(repo) then [FullName(repo)] else [];
      AppendNewConcat(repos, ForkNames(page[..i]).value, name);
      if PopularFork(repo) && FullName(repo) !in current {
        current := current + [FullName(repo)];
      }
    }
    assert page[..|page|] == page;
    return Success(current);
  }

  /** The list after adding the popular forks of pages 1 to `k`, page by page. */
  function ForksAdded(repos: seq<Value>, forks: nat -> seq<Value>, k: nat): Result<seq<Value>>
  {
    if k == 0 then Success(repos)
    else
      var before :- ForksAdded(repos, forks, k - 1);
      var names :- ForkNames(forks(k));
      Success(AppendNew(before, names))
  }

  /** Adding page by page is adding the concatenated pages at once, and fails exactly when one of
      them holds `null`. */
  lemma {:induction false} ForksAddedIsConcat(repos: seq<Value>, forks: nat -> seq<Value>, k: nat)
    ensures ForksAdded(repos, forks, k)
         == if Null in Concat(forks, k) then Failure(NullEntry)
            else Success(AppendNew(repos, ForkNames(Concat(forks, k)).value))
  {
    if k > 0 {
      ForksAddedIsConcat(repos, forks, k - 1);
      var before, page := Concat(forks, k - 1), forks(k);
      assert Concat(forks, k) == before + page;
      NullInConcat(before, page);
      if Null in before {
        assert ForksAdded(repos, forks, k - 1) == Failure(NullEntry);
      } else if Null in page {
        assert ForkNames(page) == Failure(NullEntry);
      } else {
        ForksAppended(repos, before, page);
      }
    }
  }

  /** A concatenation holds `null` exactly when one of its parts does. */
  lemma NullInConcat(before: seq<Value>, page: seq<Value>)
    ensures Null in before + page <==> Null in before || Null in page
  {
  }

  /** Adding the forks of two lists one after the other is adding those of their concatenation. */
  lemma ForksAppended(repos: seq<Value>, before: seq<Value>, page: seq<Value>)
    requires Null !in before && Null !in page
    ensures AppendNew(AppendNew(repos, ForkNames(before).value), ForkNames(page).value)
         == AppendNew(repos, ForkNames(before + page).value)
  {
    ForkNamesConcat(before, page);
    AppendNewConcat(repos, ForkNames(before).value, ForkNames(page).value);
  }

  /** Reads the user's repositories, at most five pages and up to the first short page, and
      adds the popular forks to the contribution list. */
  method FetchPopularForks(user: Record, forks: nat -> seq<Value>) returns (r: Result<Record>)
    requires Contribs(user).Success? && Has(user, "contribs")
    ensures r == Forked(user, forks)
  {
    var repos := Contribs(user).value.1;
    var page := 1;
    var current := repos;
    while true
      invariant 1 <= page <= MaxForkPages
      invariant ForkStop(forks, page) == ForkStop(forks, 1)
      invariant ForksAdded(repos, forks, page - 1) == Success(current)
      decreases MaxForkPages - page
    {
      var listed := forks(page);
      var added := AddForks(current, listed);
      if added.Failure? {
        ForkedAt(user, forks, page);
        return Failure(NullEntry);
      }
      current := added.value;
      if |listed| < PerPage || page >= MaxForkPages {
        ForkedAt(user, forks, page);
        return Success(user["contribs" := WithRepos(Contribs(user).value.0, current)]);
      }
      page := page + 1;
    }
  }

  /** When reading reaches `page`, the scan's outcome is decided by the pages up to it: a failure
      there fails the scan, and a last page gives the forks added up to it. */
  lemma ForkedAt(user: Record, forks: nat -> seq<Value>, page: nat)
    requires Contribs(user).Success? && Has(user, "contribs")
    requires 1 <= page <= MaxForkPages && ForkStop(forks, page) == ForkStop(forks, 1)
    ensures var added := ForksAdded(Contribs(user).value.1, forks, page);
      (added.Failure? ==> Forked(user, forks) == Failure(NullEntry))
      && (added.Success? && page == ForkStop(forks, 1) ==>
            Forked(user, forks) == Success(user["contribs" := WithRepos(Contribs(user).value.0, added.value)]))
  {
    var repos := Contribs(user).value.1;
    ForksAddedIsConcat(repos, forks, page);
    ForksAddedIsConcat(repos, forks, ForkStop(forks, 1));
    ForkStopSpec(forks, page);
    ConcatGrows(forks, page, ForkStop(forks, page));
  }

  // ---------------------------------------------------------------------------------------------
  // Settings

  /** The user's record after the settings reply. */
  function WithSettings(user: Record, reply: Response): Result<Record>
  {
    match reply
    case Status(code) => if code == 404 then Success(user) else Failure("HTTP error")
    case Payload(body) => Success(user["settings" := Obj(body)])
  }

  /** The user's settings file replaces the stored settings; without one they are kept. */
  method FetchSettings(user: Record, reply: Response) returns (r: Result<Record>)
    ensures r == WithSettings(user, reply)
    ensures reply == Status(404) ==> r == Success(user)
    ensures reply.Status? && reply.code != 404 ==> r.Failure?
    ensures reply.Payload? ==>
      (r.Success? && OnlyChanged(user, r.value, "settings")
       && "settings" in r.value && r.value["settings"] == Obj(reply.body))
  {
    match reply
    case Status(code) =>
      if code == 404 {
        return Success(user);
      }
      return Failure("HTTP error");
    case Payload(body) =>
      return Success(user["settings" := Obj(body)]);
  }

  // ---------------------------------------------------------------------------------------------
  // One user

  /** The user after the organizations, contributions, popular forks and settings steps, each
      applied to the record the previous one left, starting from the record the details step
      left. */
  function RefreshedFrom(detailed: Record, net: UserNetwork, now: int): Result<Record>
  {
    var withOrgs :- WithOrgs(detailed, net.orgs);
    var withContribs :- WithContribs(withOrgs, net.contribs, now);
    var withForks :- Forked(withContribs, net.forks);
    WithSettings(withForks, net.settings)
  }

  /** The refreshed user: a record without a login is malformed, a deleted user is left alone,
      and otherwise the details step comes first. */
  function Refreshed(user: Record, net: UserNetwork, now: int): Result<Record>
  {
    if !Has(user, "login") then Failure("user file is malformed")
    else if Has(user, "ghuser_deleted_because") then Success(user)
    else
      var detailed :- Detailed(user, net.details);
      RefreshedFrom(detailed, net, now)
  }

  /** The refresh of a user who is neither malformed nor deleted fails exactly when GitHub
      answers the details with an error other than 304, lists a `null` organization, the stored
      contribution list is not a list, a `null` repository is on the pages read, or the settings
      request fails with anything but 404. */
  lemma RefreshedFails(user: Record, net: UserNetwork, now: int)
    requires Has(user, "login") && !Has(user, "ghuser_deleted_because")
    ensures Refreshed(user, net, now).Success? <==>
      (net.details.Payload? || net.details == Status(304))
      && (forall i :: 0 <= i < |net.orgs| ==> net.orgs[i] != Null)
      && Contribs(Detailed(user, net.details).value).Success?
      && Null !in Concat(net.forks, ForkStop(net.forks, 1))
      && (net.settings.Status? ==> net.settings.code == 404)
  {
    var d := Detailed(user, net.details);
    if d.Success? && OrgLogins(net.orgs).Success? {
      var withOrgs := WithOrgs(d.value, net.orgs).value;
      assert Contribs(withOrgs) == Contribs(d.value);
    }
  }

  /** After the details step, the refreshed user holds the listed organizations, in order. */
  lemma RefreshedOrgs(detailed: Record, net: UserNetwork, now: int)
    requires RefreshedFrom(detailed, net, now).Success?
    ensures OrgLogins(net.orgs).Success?
    ensures var r := RefreshedFrom(detailed, net, now).value;
      "organizations" in r && r["organizations"] == Arr(OrgLogins(net.orgs).value)
  {
    var withOrgs := WithOrgs(detailed, net.orgs).value;
    var withContribs := WithContribs(withOrgs, net.contribs, now).value;
    ForkedSpec(withContribs, net.forks);
  }

  /** After the details step, the refreshed user's contribution list holds the known
      repositories followed by the new contributions and then the popular forks, each once, and
      is dated now. */
  lemma RefreshedContribs(detailed: Record, net: UserNetwork, now: int)
    requires RefreshedFrom(detailed, net, now).Success?
    ensures Contribs(detailed).Success? && ForkNames(Concat(net.forks, ForkStop(net.forks, 1))).Success?
    ensures var r := RefreshedFrom(detailed, net, now).value;
      var forks := ForkNames(Concat(net.forks, ForkStop(net.forks, 1))).value;
      Contribs(r).Success?
      && Contribs(r).value.1 == AppendNew(AppendNew(Contribs(detailed).value.1, net.contribs), forks)
      && "fetched_at" in Contribs(r).value.0 && Contribs(r).value.0["fetched_at"] == Time(now)
  {
    var withOrgs := WithOrgs(detailed, net.orgs).value;
    assert Contribs(withOrgs) == Contribs(detailed);
    var withContribs := WithContribs(withOrgs, net.contribs, now).value;
    var (contribs, known) := Contribs(withContribs).value;
    assert contribs["fetched_at"] == Time(now);
    var forks := ForkNames(Concat(net.forks, ForkStop(net.forks, 1))).value;
    var withForks := Forked(withContribs, net.forks).value;
    assert withForks["contribs"] == WithRepos(contribs, AppendNew(known, forks));
    var r := RefreshedFrom(detailed, net, now).value;
    assert r["contribs"] == withForks["contribs"];
    AppendNewConcat(Contribs(detailed).value.1, net.contribs, forks);
  }

  /** After the details step, the refreshed user holds the settings file when there is one, and
      every field outside `organizations`, `contribs` and `settings` as the details step left
      it. */
  lemma RefreshedKeeps(detailed: Record, net: UserNetwork, now: int)
    requires RefreshedFrom(detailed, net, now).Success?
    ensures var r := RefreshedFrom(detailed, net, now).value;
      net.settings.Payload? ==> "settings" in r && r["settings"] == Obj(net.settings.body)
    ensures var r := RefreshedFrom(detailed, net, now).value;
      forall k :: k != "organizations" && k != "contribs" && k != "settings" ==>
        (k in r <==> k in detailed) && (k in r ==> r[k] == detailed[k])
  {
    var withOrgs := WithOrgs(detailed, net.orgs).value;
    var withContribs := WithContribs(withOrgs, net.contribs, now).value;
    ForkedSpec(withContribs, net.forks);
  }

  /** Refreshes one user: a record without a login is malformed, a deleted user is skipped, and
      otherwise the details, organizations, contributions, popular forks and settings are fetched
      in turn. */
  method FetchUserDetailsAndContribs(user: Record, net: UserNetwork, now: int) returns (r: Result<Record>)
    ensures r == Refreshed(user, net, now)
    ensures !Has(user, "login") ==> r.Failure?
    ensures Has(user, "login") && Has(user, "ghuser_deleted_because") ==> r == Success(user)
  {
    if !Has(user, "login") {
      return Failure("user file is malformed");
    }
    if Has(user, "ghuser_deleted_because") {
      return Success(user);
    }
    var detailed :- FetchDetails(user, net.details);
    var withOrgs :- FetchOrgs(detailed, net.orgs);
    var withContribs :- FetchContribs(withOrgs, net.contribs, now);
    assert Has(withContribs, "contribs");
    var withForks :- FetchPopularForks(withContribs, net.forks);
    ForkedSpec(withContribs, net.forks);
    r := FetchSettings(withForks, net.settings);
  }
}
