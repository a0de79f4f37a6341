/** The scoring pass of calculateContribsAndMeta.js: each user's contribution list is rebuilt
    from the repositories the user contributed to, with a popularity, maturity, activity and total
    score per repository; contributions of 0% to forks are dropped, the organizations behind the
    contributions are collected, and the database totals are counted. */
module Scoring {
  import opened Records

  const ContribsComment := "DO NOT EDIT MANUALLY - See ../../README.md"
  const MetaComment := "DO NOT EDIT MANUALLY - See ../README.md"
  /** Every score also records this formula and `max_total_score`. */
  const TotalScoreHumanFormula := "(3 + percentage * 13) * popularity + 2 * maturity + activity"
  const MaxTotalScore := 95
  const DayMs := 24 * 60 * 60 * 1000

  // ---------------------------------------------------------------------------------------------
  // Logarithmic scores

  /** What the scores rely on about `Math.log10`. */
  ghost predicate Log10Facts(log10: real -> real)
  {
    log10(1.0) == 0.0 && log10(100000.0) == 5.0
    && forall x: real, y: real :: 1.0 <= x <= y ==> log10(x) <= log10(y)
  }

  /** `Math.min(100000, Math.max(1, x))` */
  function Clamp(x: real): real
  {
    if x < 1.0 then 1.0 else if x > 100000.0 then 100000.0 else x
  }

  /** The input of the logarithm: `val` mapped linearly so that `valFor0` gives 1 and `valFor5`
      gives 100000, then clamped to that range; `None` is NaN. */
  function LogInput(valFor0: real, valFor5: real, val: Option<real>): (r: Option<real>)
    requires valFor0 != valFor5
    ensures r.Some? <==> val.Some?
    ensures r.Some? ==> 1.0 <= r.value <= 100000.0
  {
    match val
    case None => None
    case Some(v) => Some(Clamp((v - valFor0) * 99999.0 / (valFor5 - valFor0) + 1.0))
  }

  /** `logarithmicScoreAscending(valFor0, valFor5, val)` */
  function Ascending(log10: real -> real, valFor0: real, valFor5: real, val: Option<real>): Option<real>
    requires valFor0 != valFor5
  {
    match LogInput(valFor0, valFor5, val)
    case None => None
    case Some(x) => Some(log10(x))
  }

  /** `logarithmicScoreDescending(valFor0, valFor5, val)`: 5 minus the ascending score with the
      bounds swapped. */
  function Descending(log10: real -> real, valFor0: real, valFor5: real, val: Option<real>): Option<real>
    requires valFor0 != valFor5
  {
    match Ascending(log10, valFor5, valFor0, val)
    case None => None
    case Some(s) => Some(5.0 - s)
  }

  /** The bounds map to the ends of the logarithm's range, whichever way round they are. */
  lemma LogInputEnds(valFor0: real, valFor5: real)
    requires valFor0 != valFor5
    ensures LogInput(valFor0, valFor5, Some(valFor0)) == Some(1.0)
    ensures LogInput(valFor0, valFor5, Some(valFor5)) == Some(100000.0)
  {
    var d := valFor5 - valFor0;
    assert (valFor0 - valFor0) * 99999.0 == 0.0;
    assert 0.0 / d == 0.0;
    DivCancels(99999.0, d);
  }

  lemma DivCancels(k: real, d: real)
    requires d != 0.0
    ensures d * k / d == k
  {
    assert d / d == 1.0;
    assert d * k / d == k * (d / d);
  }

  /** A score is NaN only for a NaN input, and lies between 0 and 5. */
  lemma ScoreRange(log10: real -> real, valFor0: real, valFor5: real, val: Option<real>)
    requires Log10Facts(log10) && valFor0 != valFor5
    ensures Ascending(log10, valFor0, valFor5, val).Some? <==> val.Some?
    ensures Descending(log10, valFor0, valFor5, val).Some? <==> val.Some?
    ensures Ascending(log10, valFor0, valFor5, val).Some? ==> 0.0 <= Ascending(log10, valFor0, valFor5, val).value <= 5.0
    ensures Descending(log10, valFor0, valFor5, val).Some? ==> 0.0 <= Descending(log10, valFor0, valFor5, val).value <= 5.0
  {
    if val.Some? {
      var x := LogInput(valFor0, valFor5, val).value;
      assert log10(1.0) <= log10(x) <= log10(100000.0);
      var y := LogInput(valFor5, valFor0, val).value;
      assert log10(1.0) <= log10(y) <= log10(100000.0);
    }
  }

  function Popularity(log10: real -> real, stars: Option<real>): Option<real>
  {
    Ascending(log10, 1.0, 10000.0, stars)
  }

  function Maturity(log10: real -> real, commits: real): Option<real>
  {
    Ascending(log10, 40.0, 10000.0, Some(commits))
  }

  function Activity(log10: real -> real, days: Option<real>): Option<real>
  {
    Descending(log10, 3650.0, 30.0, days)
  }

  /** One star is popularity 0 and 10000 stars popularity 5; 40 commits are maturity 0 and 10000
      commits maturity 5; 30 days without a push are activity 5 and 3650 days activity 0. */
  lemma ScaleEnds(log10: real -> real)
    requires Log10Facts(log10)
    ensures Popularity(log10, Some(1.0)) == Some(0.0) && Popularity(log10, Some(10000.0)) == Some(5.0)
    ensures Maturity(log10, 40.0) == Some(0.0) && Maturity(log10, 10000.0) == Some(5.0)
    ensures Activity(log10, Some(30.0)) == Some(5.0) && Activity(log10, Some(3650.0)) == Some(0.0)
  {
    LogInputEnds(1.0, 10000.0);
    LogInputEnds(40.0, 10000.0);
    LogInputEnds(30.0, 3650.0);
  }

  /** `(3 + percentage * 13 / 100) * popularity + 2 * maturity + activity`, NaN when a part is. */
  function TotalScore(percentage: real, popularity: Option<real>, maturity: Option<real>, activity: Option<real>)
    : Option<real>
  {
    if popularity.Some? && maturity.Some? && activity.Some?
    then Some((3.0 + percentage * 13.0 / 100.0) * popularity.value + 2.0 * maturity.value + activity.value)
    else None
  }

  /** With every part in its range, the total score lies between 0 and `max_total_score`. */
  lemma TotalScoreRange(percentage: real, popularity: real, maturity: real, activity: real)
    requires 0.0 <= percentage <= 100.0
    requires 0.0 <= popularity <= 5.0 && 0.0 <= maturity <= 5.0 && 0.0 <= activity <= 5.0
    ensures var t := TotalScore(percentage, Some(popularity), Some(maturity), Some(activity)).value;
      0.0 <= t <= MaxTotalScore as real
  {
    var weight := 3.0 + percentage * 13.0 / 100.0;
    assert 3.0 <= weight <= 16.0;
    assert weight * popularity <= 16.0 * popularity by {
      assert (16.0 - weight) * popularity >= 0.0;
    }
    assert 0.0 <= weight * popularity;
  }

  // ---------------------------------------------------------------------------------------------
  // Contributor counts

  /** A contributor's commit count; the crawler stores positive integers. */
  function CountOf(v: Value): nat
  {
    if v.Num? && v.n > 0 then v.n else 0
  }

  /** The sum of the values of `m`, in whatever order its keys are visited. */
  ghost function Total<K>(m: map<K, int>): int
    decreases m.Keys
  {
    if m.Keys == {} then 0
    else
      var k :| k in m;
      m[k] + Total(m - {k})
  }

  /** Any key may be visited first. */
  lemma {:induction false} TotalRemove<K>(m: map<K, int>, k: K)
    requires k in m
    ensures Total(m) == m[k] + Total(m - {k})
    decreases m.Keys
  {
    var j :| j in m && Total(m) == m[j] + Total(m - {j});
    if j != k {
      var rest := m - {j} - {k};
      assert rest == m - {k} - {j};
      assert (m - {j}).Keys < m.Keys && (m - {k}).Keys < m.Keys;
      TotalRemove(m - {j}, k);
      TotalRemove(m - {k}, j);
    }
  }

  /** A sum of non-negative values is at least each of them. */
  lemma {:induction false} TotalAtLeast<K>(m: map<K, int>, k: K)
    requires k in m && forall j :: j in m ==> m[j] >= 0
    ensures Total(m) >= m[k]
  {
    TotalRemove(m, k);
    TotalNonNegative(m - {k});
  }

  lemma {:induction false} TotalNonNegative<K>(m: map<K, int>)
    requires forall j :: j in m ==> m[j] >= 0
    ensures Total(m) >= 0
    decreases m.Keys
  {
    if m.Keys != {} {
      var k :| k in m;
      TotalRemove(m, k);
      TotalNonNegative(m - {k});
    }
  }

  function Counts(contributors: map<string, Value>): map<string, int>
  {
    map k | k in contributors :: CountOf(contributors[k]) as int
  }

  /** `for (const contributor in contributors) totalContribs += contributors[contributor]`; there
      is nothing to add up in anything but an object. */
  ghost function TotalCommits(contributors: Value): int
  {
    if contributors.Obj? then Total(Counts(contributors.fields)) else 0
  }

  /** The user's share of the commits, in percent; 0 when the user has no count. */
  ghost function Percentage(contributors: Value, login: Value): (r: real)
    ensures 0.0 <= r <= 100.0
  {
    if contributors.Obj? && login.Str? && login.s in contributors.fields
       && CountOf(contributors.fields[login.s]) > 0
    then
      var counts := Counts(contributors.fields);
      TotalAtLeast(counts, login.s);
      var c := counts[login.s] as real;
      var total := Total(counts) as real;
      PercentAtMost(c, total);
      100.0 * c / total
    else 0.0
  }

  lemma DivAtMost(x: real, y: real)
    requires 0.0 <= x <= y && y > 0.0
    ensures 0.0 <= x / y <= 1.0
  {
    assert x / y * y == x;
  }

  /** A share of a total, in percent, lies between 0 and 100. */
  lemma PercentAtMost(c: real, total: real)
    requires 0.0 <= c <= total && total > 0.0
    ensures 0.0 <= 100.0 * c / total <= 100.0
  {
    DivAtMost(c, total);
    assert 100.0 * c / total == 100.0 * (c / total);
  }

  /** Adds up the commit counts, one contributor at a time. */
  method SumContributors(contributors: Value) returns (total: int)
    ensures total == TotalCommits(contributors)
  {
    total := 0;
    if !contributors.Obj? {
      return;
    }
    var rest := contributors.fields;
    while rest != map[]
      invariant total + Total(Counts(rest)) == Total(Counts(contributors.fields))
      decreases |rest|
    {
      var k :| k in rest;
      TotalRemove(Counts(rest), k);
      assert Counts(rest) - {k} == Counts(rest - {k});
      total := total + CountOf(rest[k]);
      rest := rest - {k};
    }
    assert Counts(rest) == map[];
  }

  // ---------------------------------------------------------------------------------------------
  // One repository's score

  /** A score as stored in a contribution list. */
  datatype Score = Score(
    fullName: string,
    name: Option<Value>,        // `None` when the repository has no name
    stars: Option<Value>,
    popularity: Option<real>,   // `None` is NaN
    percentage: real,
    maturity: Option<real>,
    totalCommits: int,
    activity: Option<real>,
    totalScore: Option<real>)

  /** `r.f`, `None` when undefined. */
  function Get(r: Record, f: string): Option<Value>
  {
    if f in r then Some(r[f]) else None
  }

  /** The number JavaScript arithmetic makes of a value; `None` is NaN. */
  function NumberOf(v: Option<Value>): Option<real>
  {
    match v
    case Some(Num(n)) => Some(n as real)
    case Some(Null) => Some(0.0)
    case Some(Bool(b)) => Some(if b then 1.0 else 0.0)
    case _ => None
  }

  /** Days from the last push to the last fetch; NaN when either date is not a timestamp. */
  function Inactivity(repo: Record): Option<real>
  {
    var fetched := ParseTime(repo, "fetched_at");
    var pushed := ParseTime(repo, "pushed_at");
    if fetched.Some? && pushed.Some? then Some((fetched.value - pushed.value) as real / DayMs as real)
    else None
  }

  ghost function ScoreOf(repo: Record, fullName: string, login: Value, log10: real -> real): Score
  {
    var stars := Get(repo, "stargazers_count");
    var popularity := Popularity(log10, NumberOf(stars));
    var contributors := Field(repo, "contributors");
    var total := TotalCommits(contributors);
    var percentage := Percentage(contributors, login);
    var maturity := Maturity(log10, total as real);
    var activity := Activity(log10, Inactivity(repo));
    Score(fullName, Get(repo, "name"), stars, popularity, percentage, maturity, total, activity,
          TotalScore(percentage, popularity, maturity, activity))
  }

  /** Every part of a score is in its range, maturity is never NaN, and the total score, when it
      is a number, is at most `max_total_score`. */
  lemma ScoreOfRange(repo: Record, fullName: string, login: Value, log10: real -> real)
    requires Log10Facts(log10)
    ensures var s := ScoreOf(repo, fullName, login, log10);
      0.0 <= s.percentage <= 100.0 && s.maturity.Some? && s.totalCommits >= 0
      && (s.popularity.Some? ==> 0.0 <= s.popularity.value <= 5.0)
      && 0.0 <= s.maturity.value <= 5.0
      && (s.activity.Some? ==> 0.0 <= s.activity.value <= 5.0)
      && (s.totalScore.Some? <==> s.popularity.Some? && s.activity.Some?)
      && (s.totalScore.Some? ==> 0.0 <= s.totalScore.value <= MaxTotalScore as real)
  {
    var s := ScoreOf(repo, fullName, login, log10);
    var contributors := Field(repo, "contributors");
    if contributors.Obj? {
      TotalNonNegative(Counts(contributors.fields));
    }
    ScoreRange(log10, 1.0, 10000.0, NumberOf(Get(repo, "stargazers_count")));
    ScoreRange(log10, 40.0, 10000.0, Some(s.totalCommits as real));
    ScoreRange(log10, 3650.0, 30.0, Inactivity(repo));
    if s.totalScore.Some? {
      TotalScoreRange(s.percentage, s.popularity.value, s.maturity.value, s.activity.value);
    }
  }

  /** Computes one repository's score as the script does. */
  method CalculateScore(repo: Record, fullName: string, login: Value, log10: real -> real) returns (s: Score)
    ensures s == ScoreOf(repo, fullName, login, log10)
  {
    var stars := Get(repo, "stargazers_count");
    var popularity := Popularity(log10, NumberOf(stars));
    var contributors := Field(repo, "contributors");
    var total := SumContributors(contributors);
    var percentage := 0.0;
    if contributors.Obj? && login.Str? && login.s in contributors.fields
       && CountOf(contributors.fields[login.s]) > 0 {
      TotalAtLeast(Counts(contributors.fields), login.s);
      percentage := 100.0 * (CountOf(contributors.fields[login.s]) as real) / (total as real);
    }
    var maturity := Maturity(log10, total as real);
    var activity := Activity(log10, Inactivity(repo));
    s := Score(fullName, Get(repo, "name"), stars, popularity, percentage, maturity, total, activity,
               TotalScore(percentage, popularity, maturity, activity));
  }

  // ---------------------------------------------------------------------------------------------
  // A user's scores

  /** A repository's current full name, when it has been crawled. */
  function FullNameOf(repo: Record): Option<string>
  {
    if "full_name" in repo && repo["full_name"].Str? && repo["full_name"].s != "" then Some(repo["full_name"].s)
    else None
  }

  /** The repository a list entry names, when it still exists, has been crawled, and is neither
      gone from GitHub nor insignificant. */
  function Target(repos: map<string, Record>, entry: Value): (r: Option<Record>)
    ensures r.Some? ==> FullNameOf(r.value).Some?
  {
    if entry.Str? && entry.s in repos && FullNameOf(repos[entry.s]).Some?
       && !Has(repos[entry.s], "removed_from_github") && !Has(repos[entry.s], "ghuser_insignificant")
    then Some(repos[entry.s])
    else None
  }

  /** `user.contribs.repos`, which must be a list. */
  function ListedRepos(user: Record): Result<seq<Value>>
  {
    var contribs := Field(user, "contribs");
    if contribs.Obj? && "repos" in contribs.fields && contribs.fields["repos"].Arr?
    then Success(contribs.fields["repos"].items)
    else Failure("TypeError: user.contribs.repos is not iterable")
  }

  /** The number of list entries that get a score. */
  function CountScored(list: seq<Value>, repos: map<string, Record>): (n: nat)
    ensures n <= |list|
  {
    if list == [] then 0
    else CountScored(list[..|list| - 1], repos) + (if Target(repos, list[|list| - 1]).Some? then 1 else 0)
  }

  /** The scores of the list, keyed by the repositories' current full names; a later entry for
      the same repository replaces an earlier one. */
  ghost function Scores(list: seq<Value>, login: Value, repos: map<string, Record>, log10: real -> real)
    : map<string, Score>
  {
    if list == [] then map[]
    else
      var before := Scores(list[..|list| - 1], login, repos, log10);
      match Target(repos, list[|list| - 1])
      case None => before
      case Some(repo) =>
        var fullName := FullNameOf(repo).value;
        before[fullName := ScoreOf(repo, fullName, login, log10)]
  }

  /** A full name has a score exactly when some entry of the list leads to a scored repository
      with that name. */
  lemma {:induction false} ScoresKeys(list: seq<Value>, login: Value, repos: map<string, Record>,
                                       log10: real -> real)
    ensures forall k :: k in Scores(list, login, repos, log10) <==>
      exists i :: 0 <= i < |list| && Target(repos, list[i]).Some? && FullNameOf(Target(repos, list[i]).value) == Some(k)
  {
    if list != [] {
      var init := list[..|list| - 1];
      ScoresKeys(init, login, repos, log10);
      assert forall i :: 0 <= i < |init| ==> init[i] == list[i];
    }
  }

  /** Each score is the score of a repository with that full name. */
  lemma {:induction false} ScoresValues(list: seq<Value>, login: Value, repos: map<string, Record>,
                                         log10: real -> real)
    ensures forall k :: k in Scores(list, login, repos, log10) ==>
      exists repo :: FullNameOf(repo) == Some(k) && Scores(list, login, repos, log10)[k] == ScoreOf(repo, k, login, log10)
  {
    if list != [] {
      ScoresValues(list[..|list| - 1], login, repos, log10);
    }
  }

  /** Scores the repositories of one user's list, and counts them. */
  method CalculateScores(user: Record, repos: map<string, Record>, log10: real -> real)
    returns (r: Result<(map<string, Score>, nat)>)
    ensures r.Success? <==> ListedRepos(user).Success?
    ensures r.Success? ==> var list := ListedRepos(user).value;
      r.value.0 == Scores(list, Field(user, "login"), repos, log10) && r.value.1 == CountScored(list, repos)
  {
    var list :- ListedRepos(user);
    var login := Field(user, "login");
    var scores: map<string, Score> := map[];
    var count := 0;
    for i := 0 to |list|
      invariant scores == Scores(list[..i], login, repos, log10)
      invariant count == CountScored(list[..i], repos)
    {
      assert list[..i + 1][..i] == list[..i];
      var target := Target(repos, list[i]);
      if target.Some? {
        count := count + 1;
        var fullName := FullNameOf(target.value).value;
        var score := CalculateScore(target.value, fullName, login, log10);
        scores := scores[fullName := score];
      }
    }
    assert list[..|list|] == list;
    return Success((scores, count));
  }

  // ---------------------------------------------------------------------------------------------
  // Dropping 0% contributions to forks

  /** A contribution of 0% to a repository that is a fork. */
  predicate Insignificant(repos: map<string, Record>, k: string, s: Score)
  {
    k in repos && Has(repos[k], "fork") && s.percentage == 0.0
  }

  /** Collects the contributions of 0% to forks, then deletes them. */
  method StripInsignificantContribs(scores: map<string, Score>, repos: map<string, Record>)
    returns (r: map<string, Score>)
    ensures forall k :: k in r <==> k in scores && !Insignificant(repos, k, scores[k])
    ensures forall k :: k in r ==> r[k] == scores[k]
  {
    var toBeDeleted: set<string> := {};
    var todo := scores.Keys;
    while todo != {}
      invariant todo <= scores.Keys
      invariant forall k :: k in toBeDeleted <==> k in scores && k !in todo && Insignificant(repos, k, scores[k])
      decreases todo
    {
      var k :| k in todo;
      if Insignificant(repos, k, scores[k]) {
        toBeDeleted := toBeDeleted + {k};
      }
      todo := todo - {k};
    }
    r := scores;
    todo := toBeDeleted;
    while todo != {}
      invariant todo <= toBeDeleted
      invariant forall k :: k in r <==> k in scores && (k !in toBeDeleted || k in todo)
      invariant forall k :: k in r ==> r[k] == scores[k]
      decreases todo
    {
      var k :| k in todo;
      r := r - {k};
      todo := todo - {k};
    }
  }

  // ---------------------------------------------------------------------------------------------
  // Organizations

  /** The contribution under key `k` names owner `o`: in its key, or in its current name. */
  predicate Names(scores: map<string, Score>, k: string, o: string)
  {
    k in scores && (o == OwnerOf(k) || (scores[k].fullName != "" && o == OwnerOf(scores[k].fullName)))
  }

  predicate OwnerOfContrib(scores: map<string, Score>, o: string)
  {
    exists k :: k in scores && Names(scores, k, o)
  }

  /** `getContribsOwners`: each owner once, in the order the contributions are visited. */
  method GetContribsOwners(scores: map<string, Score>) returns (owners: seq<string>)
    ensures NoDups(owners)
    ensures forall o :: o in owners <==> OwnerOfContrib(scores, o)
  {
    owners := [];
    var todo := scores.Keys;
    while todo != {}
      invariant todo <= scores.Keys && NoDups(owners)
      invariant forall o :: o in owners <==> exists j :: j !in todo && Names(scores, j, o)
      decreases todo
    {
      var k :| k in todo;
      ghost var before := owners;
      var original := OwnerOf(k);
      owners := if original in owners then owners else owners + [original];
      if scores[k].fullName != "" {
        var current := OwnerOf(scores[k].fullName);
        owners := if current in owners then owners else owners + [current];
      }
      assert forall o :: o in owners <==> o in before || Names(scores, k, o);
      todo := todo - {k};
    }
  }

  /** `orgs.orgs[owner] && orgs.orgs[owner].login`; the table must exist. */
  function OrgKnown(orgs: Record, owner: string): Result<bool>
  {
    if !HasOrgsTable(orgs) then Failure("TypeError: orgs.orgs is undefined")
    else
      var table := orgs["orgs"];
      Success(table.Obj? && owner in table.fields && table.fields[owner].Obj?
              && Has(table.fields[owner].fields, "login"))
  }

  /** `orgs.orgs` is there to be indexed. */
  predicate HasOrgsTable(orgs: Record)
  {
    "orgs" in orgs && orgs["orgs"] != Null
  }

  /** The owners that are known organizations, in order; the lookup throws as soon as there is an
      owner to look up and no organizations table. */
  function KnownOrgs(orgs: Record, owners: seq<string>): (r: Result<seq<string>>)
    ensures r.Failure? <==> owners != [] && !HasOrgsTable(orgs)
    ensures r.Success? ==> forall o :: o in r.value <==> o in owners && OrgKnown(orgs, o) == Success(true)
    ensures r.Success? && NoDups(owners) ==> NoDups(r.value)
    ensures owners == [] ==> r == Success([])
  {
    if owners == [] then Success([])
    else
      var init := owners[..|owners| - 1];
      var last := owners[|owners| - 1];
      assert owners == init + [last];
      var kept :- KnownOrgs(orgs, init);
      var known :- OrgKnown(orgs, last);
      assert NoDups(owners) ==> NoDups(init) && last !in init;
      Success(if known then kept + [last] else kept)
  }

  // ---------------------------------------------------------------------------------------------
  // The whole pass

  /** A contribution list as the pass writes it: the stored file stamped with the do-not-edit
      comment, the scores, and the organizations. */
  datatype ContribList = ContribList(file: Record, repos: map<string, Score>, organizations: seq<string>)

  /** The user files that are not marked as deleted. */
  function NonDeleted(userFiles: map<string, Record>): map<string, Record>
  {
    map f | f in userFiles && !Has(userFiles[f], "ghuser_deleted_because") :: userFiles[f]
  }

  /** The contribution files, with an empty one for each user who has none yet. */
  function EnsureContribFiles(contribFiles: map<string, Record>, users: map<string, Record>): map<string, Record>
  {
    map f | f in contribFiles.Keys + users.Keys :: if f in contribFiles then contribFiles[f] else map[]
  }

  /** Deletes the contribution lists of no user. */
  method StripUnreferencedContribs(contribs: map<string, Record>, users: map<string, Record>)
    returns (r: map<string, Record>)
    ensures r.Keys == contribs.Keys * users.Keys
    ensures forall f :: f in r ==> r[f] == contribs[f]
  {
    var toBeDeleted: set<string> := {};
    var todo := contribs.Keys;
    while todo != {}
      invariant todo <= contribs.Keys
      invariant toBeDeleted == (contribs.Keys - todo) - users.Keys
      decreases todo
    {
      var f :| f in todo;
      if f !in users {
        toBeDeleted := toBeDeleted + {f};
      }
      todo := todo - {f};
    }
    r := contribs;
    todo := toBeDeleted;
    while todo != {}
      invariant todo <= toBeDeleted
      invariant r.Keys == contribs.Keys - (toBeDeleted - todo)
      invariant forall f :: f in r ==> r[f] == contribs[f]
      decreases todo
    {
      var f :| f in todo;
      r := r - {f};
      todo := todo - {f};
    }
  }

  /** The scores kept for a user after dropping 0% contributions to forks. */
  ghost function KeptScores(user: Record, repos: map<string, Record>, log10: real -> real): map<string, Score>
    requires ListedRepos(user).Success?
  {
    var scores := Scores(ListedRepos(user).value, Field(user, "login"), repos, log10);
    map k | k in scores && !Insignificant(repos, k, scores[k]) :: scores[k]
  }

  /** The number of scored entries of a user's list. */
  function Counted(user: Record, repos: map<string, Record>): int
  {
    match ListedRepos(user)
    case Success(list) => CountScored(list, repos)
    case Failure(_) => 0
  }

  /** The number of scored entries of each user's list. */
  function UserCounts(users: map<string, Record>, repos: map<string, Record>): map<string, int>
  {
    map f | f in users :: Counted(users[f], repos)
  }

  /** The contribution list written for one user. */
  ghost predicate WrittenFor(c: ContribList, file: Record, user: Record, repos: map<string, Record>,
                             orgs: Record, log10: real -> real)
  {
    ListedRepos(user).Success?
    && c.file == file["_comment" := Str(ContribsComment)]
    && c.repos == KeptScores(user, repos, log10)
    && NoDups(c.organizations)
    && forall o :: o in c.organizations <==> OwnerOfContrib(c.repos, o) && OrgKnown(orgs, o) == Success(true)
  }

  /** A user's pass goes through: the list can be read, and the organizations table is there
      unless no contribution is kept (then there is no owner to look up). */
  ghost predicate Processable(user: Record, repos: map<string, Record>, orgs: Record, log10: real -> real)
  {
    ListedRepos(user).Success? && (HasOrgsTable(orgs) || KeptScores(user, repos, log10) == map[])
  }

  /** Every user named in `keys` is processable. */
  ghost predicate AllProcessable(users: map<string, Record>, keys: set<string>, repos: map<string, Record>,
                                 orgs: Record, log10: real -> real)
  {
    forall f :: f in keys && f in users ==> Processable(users[f], repos, orgs, log10)
  }

  /** Scores one user's contributions, drops 0% contributions to forks and collects the
      organizations; returns the list and the number of scored entries. */
  method ProcessUser(file: Record, user: Record, repos: map<string, Record>, orgs: Record, log10: real -> real)
    returns (r: Result<(ContribList, nat)>)
    ensures r.Success? <==> Processable(user, repos, orgs, log10)
    ensures r.Success? ==> (WrittenFor(r.value.0, file, user, repos, orgs, log10)
      && r.value.1 == Counted(user, repos))
  {
    var scored :- CalculateScores(user, repos, log10);
    var (scores, count) := scored;
    var kept := StripInsignificantContribs(scores, repos);
    assert kept == KeptScores(user, repos, log10);
    var owners := GetContribsOwners(kept);
    assert owners != [] ==> owners[0] in owners && OwnerOfContrib(kept, owners[0]);
    if kept != map[] {
      var k :| k in kept;
      assert Names(kept, k, OwnerOf(k));
      assert OwnerOf(k) in owners;
    }
    var organizations :- KnownOrgs(orgs, owners);
    return Success((ContribList(file["_comment" := Str(ContribsComment)], kept, organizations), count));
  }

  /** The entries of `m` under the keys in `keys`. */
  function Restrict<K>(m: map<K, int>, keys: set<K>): map<K, int>
  {
    map k | k in keys && k in m :: m[k]
  }

  /** Taking one key out of what remains to be added up. */
  lemma RestrictRemove<K>(m: map<K, int>, keys: set<K>, k: K)
    requires k in keys && k in m
    ensures Total(Restrict(m, keys)) == m[k] + Total(Restrict(m, keys - {k}))
  {
    TotalRemove(Restrict(m, keys), k);
    assert Restrict(m, keys) - {k} == Restrict(m, keys - {k});
  }

  /** Every list of `result` is the one written for its user. */
  ghost predicate AllWritten(result: map<string, ContribList>, kept: map<string, Record>, users: map<string, Record>,
                             repos: map<string, Record>, orgs: Record, log10: real -> real)
  {
    forall f :: f in result ==> f in kept && f in users && WrittenFor(result[f], kept[f], users[f], repos, orgs, log10)
  }

  lemma AllWrittenAdd(result: map<string, ContribList>, kept: map<string, Record>, users: map<string, Record>,
                      repos: map<string, Record>, orgs: Record, log10: real -> real, f: string, c: ContribList)
    requires AllWritten(result, kept, users, repos, orgs, log10)
    requires f in kept && f in users && WrittenFor(c, kept[f], users[f], repos, orgs, log10)
    ensures AllWritten(result[f := c], kept, users, repos, orgs, log10)
  {
  }

  /** The state of the loop over the users once every user outside `todo` is processed: each of
      them has its list, and `numContribs` adds up their counts. */
  ghost predicate Progress(kept: map<string, Record>, users: map<string, Record>, repos: map<string, Record>,
                           orgs: Record, log10: real -> real, counts: map<string, int>, todo: set<string>,
                           result: map<string, ContribList>, numContribs: int)
  {
    todo <= users.Keys
    && result.Keys == users.Keys - todo
    && AllWritten(result, kept, users, repos, orgs, log10)
    && AllProcessable(users, users.Keys - todo, repos, orgs, log10)
    && numContribs + Total(Restrict(counts, todo)) == Total(counts)
  }

  /** Processing one more user keeps the loop's state. */
  lemma ProgressAdd(kept: map<string, Record>, users: map<string, Record>, repos: map<string, Record>,
                    orgs: Record, log10: real -> real, counts: map<string, int>, todo: set<string>, f: string,
                    result: map<string, ContribList>, numContribs: int, c: ContribList, n: int)
    requires f in todo && f in counts && counts[f] == n
    requires Progress(kept, users, repos, orgs, log10, counts, todo, result, numContribs)
    requires AllWritten(result[f := c], kept, users, repos, orgs, log10)
    requires AllProcessable(users, (users.Keys - todo) + {f}, repos, orgs, log10)
    ensures Progress(kept, users, repos, orgs, log10, counts, todo - {f}, result[f := c], numContribs + n)
  {
    RestrictRemove(counts, todo, f);
    assert users.Keys - (todo - {f}) == (users.Keys - todo) + {f};
  }

  lemma AllProcessableAdd(users: map<string, Record>, done: set<string>, repos: map<string, Record>,
                          orgs: Record, log10: real -> real, f: string)
    requires AllProcessable(users, done, repos, orgs, log10)
    requires f in users && Processable(users[f], repos, orgs, log10)
    ensures AllProcessable(users, done + {f}, repos, orgs, log10)
  {
  }

  /** One turn of the loop over the users: processes `f` and adds its list and its count. */
  method ProcessNext(kept: map<string, Record>, users: map<string, Record>, repos: map<string, Record>,
                     orgs: Record, log10: real -> real, ghost counts: map<string, int>, todo: set<string>, f: string,
                     result: map<string, ContribList>, numContribs: int)
    returns (r: Result<(map<string, ContribList>, int)>)
    requires kept.Keys == users.Keys && f in todo && counts == UserCounts(users, repos)
    requires Progress(kept, users, repos, orgs, log10, counts, todo, result, numContribs)
    ensures r.Failure? <==> !Processable(users[f], repos, orgs, log10)
    ensures r.Success? ==> Progress(kept, users, repos, orgs, log10, counts, todo - {f}, r.value.0, r.value.1)
  {
    var written :- ProcessUser(kept[f], users[f], repos, orgs, log10);
    AllWrittenAdd(result, kept, users, repos, orgs, log10, f, written.0);
    AllProcessableAdd(users, users.Keys - todo, repos, orgs, log10, f);
    ProgressAdd(kept, users, repos, orgs, log10, counts, todo, f, result, numContribs, written.0, written.1);
    return Success((result[f := written.0], numContribs + written.1));
  }

  /** Before the loop over the users, no user is processed. */
  lemma ProgressStart(kept: map<string, Record>, users: map<string, Record>, repos: map<string, Record>,
                      orgs: Record, log10: real -> real, counts: map<string, int>)
    requires counts == UserCounts(users, repos)
    ensures Progress(kept, users, repos, orgs, log10, counts, users.Keys, map[], 0)
  {
    assert Restrict(counts, users.Keys) == counts;
  }

  /** After the loop over the users, every user is processed and the counts are added up. */
  lemma ProgressDone(kept: map<string, Record>, users: map<string, Record>, repos: map<string, Record>,
                     orgs: Record, log10: real -> real, counts: map<string, int>,
                     result: map<string, ContribList>, numContribs: int)
    requires Progress(kept, users, repos, orgs, log10, counts, {}, result, numContribs)
    ensures result.Keys == users.Keys && AllWritten(result, kept, users, repos, orgs, log10)
    ensures AllProcessable(users, users.Keys, repos, orgs, log10) && numContribs == Total(counts)
  {
    assert Restrict(counts, {}) == map[];
    assert users.Keys - {} == users.Keys;
  }

  /** Processes every contribution list, in whatever order, and adds up the scored entries. */
  method ProcessUsers(kept: map<string, Record>, users: map<string, Record>, repos: map<string, Record>,
                      orgs: Record, log10: real -> real)
    returns (r: Result<(map<string, ContribList>, int)>)
    requires kept.Keys == users.Keys
    ensures r.Success? <==> AllProcessable(users, users.Keys, repos, orgs, log10)
    ensures r.Success? ==> r.value.0.Keys == users.Keys
    ensures r.Success? ==> AllWritten(r.value.0, kept, users, repos, orgs, log10)
    ensures r.Success? ==> r.value.1 == Total(UserCounts(users, repos))
  {
    var result: map<string, ContribList> := map[];
    var numContribs := 0;
    var todo := users.Keys;
    ghost var counts := UserCounts(users, repos);
    ProgressStart(kept, users, repos, orgs, log10, counts);
    while todo != {}
      invariant Progress(kept, users, repos, orgs, log10, counts, todo, result, numContribs)
      decreases todo
    {
      var f :| f in todo;
      var next := ProcessNext(kept, users, repos, orgs, log10, counts, todo, f, result, numContribs);
      if next.Failure? {
        return Failure(next.error);
      }
      result, numContribs := next.value.0, next.value.1;
      todo := todo - {f};
    }
    ProgressDone(kept, users, repos, orgs, log10, counts, result, numContribs);
    return Success((result, numContribs));
  }

  /** The pass: every non-deleted user gets exactly one contribution list, rebuilt from the
      repositories; the meta file counts the users and the scored contributions. */
  method CalculateContribsAndMeta(userFiles: map<string, Record>, contribFiles: map<string, Record>,
                                  repos: map<string, Record>, orgs: Record, meta: Record, log10: real -> real)
    returns (r: Result<(map<string, ContribList>, Record)>)
    ensures r.Success? <==> AllProcessable(NonDeleted(userFiles), NonDeleted(userFiles).Keys, repos, orgs, log10)
    ensures r.Success? ==> r.value.0.Keys == NonDeleted(userFiles).Keys
    ensures r.Success? ==> AllWritten(r.value.0, EnsureContribFiles(contribFiles, NonDeleted(userFiles)),
                                      NonDeleted(userFiles), repos, orgs, log10)
    ensures r.Success? ==> var users := NonDeleted(userFiles);
      r.value.1 == meta["_comment" := Str(MetaComment)]["num_users" := Num(|users|)]
                       ["num_contribs" := Num(Total(UserCounts(users, repos)))]
  {
    var users := NonDeleted(userFiles);
    var numUsers := |users|;
    var files := EnsureContribFiles(contribFiles, users);
    var kept := StripUnreferencedContribs(files, users);
    assert kept.Keys == users.Keys;
    var processed :- ProcessUsers(kept, users, repos, orgs, log10);
    var (lists, numContribs) := processed;
    var written := meta["_comment" := Str(MetaComment)]["num_users" := Num(numUsers)]["num_contribs" := Num(numContribs)];
    return Success((lists, written));
  }
}
