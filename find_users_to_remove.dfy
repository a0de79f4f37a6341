/** findUsersToRemove.js: the users who have had a profile for over a month, are not marked to
    be kept, and have not starred the project's repository are listed in an issue asking them
    whether they want to keep their profile. */
module FindUsersToRemove {
  import opened Records

  const ProjectRepo := "ghuser-io/ghuser.io"
  const MinAgeMonths := 1
  const MinAgeMs := MinAgeMonths * 30 * 24 * 60 * 60 * 1000

  /** A user to consider: not deleted, not kept, not gone from GitHub, and whose profile was
      created more than `MinAgeMs` before `now` (an unreadable creation date never is). */
  predicate Candidate(user: Record, now: int)
  {
    !Has(user, "ghuser_deleted_because") && !Has(user, "ghuser_keep_because") && !Has(user, "removed_from_github")
    && ParseTime(user, "ghuser_created_at").Some?
    && now - ParseTime(user, "ghuser_created_at").value > MinAgeMs
  }

  /** The candidates among the user files, in directory order. */
  function Candidates(files: seq<Record>, now: int): seq<Record>
  {
    if files == [] then []
    else
      var last := files[|files| - 1];
      Candidates(files[..|files| - 1], now) + (if Candidate(last, now) then [last] else [])
  }

  /** The candidates are exactly the user files that qualify, in their order. */
  lemma {:induction false} CandidatesSpec(files: seq<Record>, now: int)
    ensures forall u :: u in Candidates(files, now) <==> u in files && Candidate(u, now)
    ensures |Candidates(files, now)| <= |files|
  {
    if files != [] {
      var init := files[..|files| - 1];
      CandidatesSpec(init, now);
      assert files == init + [files[|files| - 1]];
    }
  }

  /** Reads the user files and keeps the candidates. */
  method LoadCandidates(files: seq<Record>, now: int) returns (users: seq<Record>)
    ensures users == Candidates(files, now)
  {
    users := [];
    for i := 0 to |files|
      invariant users == Candidates(files[..i], now)
    {
      assert files[..i + 1][..i] == files[..i];
      if Candidate(files[i], now) {
        users := users + [files[i]];
      }
    }
    assert files[..|files|] == files;
  }

  /** `x.login`; `None` is undefined. */
  function LoginOf(user: Record): Option<Value>
  {
    if "login" in user then Some(user["login"]) else None
  }

  const NullStargazer := "TypeError: cannot read property 'login' of null"

  /** `stargazer.login` for one item of a stargazers page; reading it from `null` throws. */
  function StarLogin(item: Value): Result<Option<Value>>
  {
    match item
    case Null => Failure(NullStargazer)
    case Obj(fields) => Success(if "login" in fields then Some(fields["login"]) else None)
    case _ => Success(None)
  }

  /** The logins of a list of stargazers, in order. */
  function StarLogins(items: seq<Value>): (r: Result<seq<Option<Value>>>)
    ensures r.Success? <==> Null !in items
    ensures r.Failure? ==> r == Failure(NullStargazer)
    ensures r.Success? ==> (|r.value| == |items|
      && forall i :: 0 <= i < |items| ==> Success(r.value[i]) == StarLogin(items[i]))
  {
    if items == [] then Success([])
    else
      var init := items[..|items| - 1];
      var before := StarLogins(init);
      var last := StarLogin(items[|items| - 1]);
      assert items == init + [items[|items| - 1]];
      if before.Failure? then before
      else if last.Failure? then Failure(last.error)
      else Success(before.value + [last.value])
  }

  lemma {:induction false} StarLoginsConcat(xs: seq<Value>, ys: seq<Value>)
    requires StarLogins(xs).Success?
    ensures StarLogins(xs + ys).Success? <==> StarLogins(ys).Success?
    ensures StarLogins(xs + ys).Success? ==> StarLogins(xs + ys).value == StarLogins(xs).value + StarLogins(ys).value
  {
    var zs := xs + ys;
    assert forall i :: 0 <= i < |ys| ==> zs[|xs| + i] == ys[i];
    assert forall i :: 0 <= i < |xs| ==> zs[i] == xs[i];
    if StarLogins(zs).Success? {
      var all := StarLogins(zs).value;
      var prefix := StarLogins(xs).value;
      var suffix := StarLogins(ys).value;
      assert forall i :: 0 <= i < |xs| ==> Success(all[i]) == StarLogin(xs[i]) == Success(prefix[i]);
      assert forall i :: 0 <= i < |ys| ==> Success(all[|xs| + i]) == StarLogin(ys[i]) == Success(suffix[i]);
      assert all == prefix + suffix;
    }
  }

  /** `fetchStargazers`: the logins of pages 1 to `last`, in order, where page `last` is the first
      page with fewer than `PerPage` stargazers; `pages(p)` is what page `p` returns. */
  method FetchStargazers(pages: nat -> seq<Value>, ghost last: nat) returns (r: Result<seq<Option<Value>>>)
    requires StopsAt(pages, last)
    ensures r == StarLogins(Concat(pages, last))
  {
    var stargazers: seq<Option<Value>> := [];
    var page := 1;
    while true
      invariant 1 <= page <= last
      invariant StarLogins(Concat(pages, page - 1)) == Success(stargazers)
      decreases last - page
    {
      var items := pages(page);
      var logins := StarLogins(items);
      StarLoginsConcat(Concat(pages, page - 1), items);
      if logins.Failure? {
        assert Null in Concat(pages, page);
        ConcatGrows(pages, page, last);
        return Failure(logins.error);
      }
      stargazers := stargazers + logins.value;
      if |items| < PerPage {
        assert page == last;
        return Success(stargazers);
      }
      page := page + 1;
    }
  }

  /** `users.map(user => user.login).filter(user => stargazers.indexOf(user) === -1)` */
  function ToRemove(users: seq<Record>, stargazers: seq<Option<Value>>): seq<Option<Value>>
  {
    if users == [] then []
    else
      var login := LoginOf(users[|users| - 1]);
      ToRemove(users[..|users| - 1], stargazers) + (if login in stargazers then [] else [login])
  }

  /** A login is to be asked about exactly when it is a candidate's and not a stargazer's. */
  lemma {:induction false} ToRemoveSpec(users: seq<Record>, stargazers: seq<Option<Value>>)
    ensures forall l :: l in ToRemove(users, stargazers) <==>
      l !in stargazers && exists u :: u in users && LoginOf(u) == l
    ensures |ToRemove(users, stargazers)| <= |users|
  {
    if users != [] {
      var init := users[..|users| - 1];
      ToRemoveSpec(init, stargazers);
      assert users == init + [users[|users| - 1]];
    }
  }

  /** Everyone starred the repository: nobody is to be asked. */
  lemma {:induction false} AllStarred(users: seq<Record>, stargazers: seq<Option<Value>>)
    requires forall u :: u in users ==> LoginOf(u) in stargazers
    ensures ToRemove(users, stargazers) == []
  {
    if users != [] {
      AllStarred(users[..|users| - 1], stargazers);
    }
  }

  /** The line listing one user in the issue. */
  function Line(login: Option<Value>, toString: Value -> string): string
  {
    "* @" + Text(login, toString) + ": https://ghuser.io/" + Text(login, toString)
  }

  const IssueHeader :=
    "\nCreate this issue on GitHub:\n\n[question] Do you like your profile?\n\nHi :)\n\n"
    + "to make sure we're not wasting resources, I'd like to know if you'd like to keep your profile up and running:\n"
  const IssueFooter := "\nJust give me a quick sign and I won't bother you again. Thanks!"

  /** The lines written to the console: nothing when nobody is to be asked, otherwise the issue
      with one line per user, in order. */
  function Issue(toRemove: seq<Option<Value>>, toString: Value -> string): (out: seq<string>)
    ensures toRemove == [] <==> out == []
    ensures toRemove != [] ==> (|out| == |toRemove| + 2 && out[0] == IssueHeader && out[|out| - 1] == IssueFooter
      && forall i :: 0 <= i < |toRemove| ==> out[i + 1] == Line(toRemove[i], toString))
  {
    if toRemove == [] then []
    else [IssueHeader] + Lines(toRemove, toString) + [IssueFooter]
  }

  function Lines(toRemove: seq<Option<Value>>, toString: Value -> string): (r: seq<string>)
    ensures |r| == |toRemove| && forall i :: 0 <= i < |toRemove| ==> r[i] == Line(toRemove[i], toString)
  {
    if toRemove == [] then [] else [Line(toRemove[0], toString)] + Lines(toRemove[1..], toString)
  }

  /** The whole script: the issue asking the stale users, or a failure when a stargazers page
      holds `null`. */
  method FindUsersToRemove(files: seq<Record>, now: int, pages: nat -> seq<Value>, ghost last: nat,
                           toString: Value -> string)
    returns (r: Result<seq<string>>)
    requires StopsAt(pages, last)
    ensures r.Success? <==> StarLogins(Concat(pages, last)).Success?
    ensures r.Success? ==> r.value == Issue(ToRemove(Candidates(files, now), StarLogins(Concat(pages, last)).value), toString)
  {
    var users := LoadCandidates(files, now);
    var stargazers :- FetchStargazers(pages, last);
    var toRemove := ToRemove(users, stargazers);
    return Success(Issue(toRemove, toString));
  }
}
