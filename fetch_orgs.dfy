/** The owner crawl of fetchOrgs.js: collecting the owners the users belong to or contributed
    to, telling organizations from users, storing the organizations' GitHub records and deleting
    the organization files nobody references. */
module FetchOrgs {
  import opened Records

  /** Fields of an organization's GitHub record that are dropped to keep the database small. */
  const OrgDenylist: set<string> := {
    "id", "node_id", "events_url", "hooks_url", "issues_url", "repos_url", "members_url",
    "public_members_url", "description", "company", "blog", "location", "email",
    "has_organization_projects", "has_repository_projects", "public_repos", "public_gists",
    "followers", "following", "is_verified", "total_private_repos", "owned_private_repos",
    "private_gists", "disk_usage", "billing_email", "plan", "default_repository_permission",
    "members_can_create_repositories", "two_factor_requirement_enabled"}

  // ---------------------------------------------------------------------------------------------
  // Users and their owners

  /** A user the crawl still looks at: neither marked as deleted nor gone from GitHub. */
  predicate Considered(user: Record)
  {
    !Has(user, "ghuser_deleted_because") && !Has(user, "removed_from_github")
  }

  /** The considered users, in directory order. */
  function Active(files: seq<Record>): seq<Record>
  {
    if files == [] then []
    else
      var last := files[|files| - 1];
      Active(files[..|files| - 1]) + (if Considered(last) then [last] else [])
  }

  /** Exactly the considered users are kept. */
  lemma {:induction false} ActiveSpec(files: seq<Record>)
    ensures forall u :: u in Active(files) <==> u in files && Considered(u)
  {
    if files != [] {
      var init := files[..|files| - 1];
      ActiveSpec(init);
      assert files == init + [files[|files| - 1]];
    }
  }

  /** Reads the user files, keeping the considered users. */
  method LoadUsers(files: seq<Record>) returns (users: seq<Record>)
    ensures users == Active(files)
  {
    users := [];
    for i := 0 to |files|
      invariant users == Active(files[..i])
    {
      assert files[..i + 1][..i] == files[..i];
      if Considered(files[i]) {
        users := users + [files[i]];
      }
    }
    assert files[..|files|] == files;
  }

  /** The strings of `vs`; spreading a list with another entry into the owner set would make a
      file name of something that is not a login. */
  function Logins(vs: seq<Value>): (r: Result<seq<string>>)
    ensures r.Success? <==> forall i :: 0 <= i < |vs| ==> vs[i].Str?
    ensures r.Success? ==> |r.value| == |vs| && forall i :: 0 <= i < |vs| ==> vs[i] == Str(r.value[i])
  {
    if vs == [] then Success([])
    else
      var init :- Logins(vs[..|vs| - 1]);
      var last := vs[|vs| - 1];
      if last.Str? then Success(init + [last.s]) else Failure("TypeError: an owner is not a string")
  }

  /** `...user.organizations`: the list must be iterable. */
  function OrgsOf(user: Record): Result<seq<string>>
  {
    if "organizations" in user && user["organizations"].Arr? then Logins(user["organizations"].items)
    else Failure("TypeError: user.organizations is not iterable")
  }

  /** The owners of `names`, each the text before its first '/'. */
  function OwnersOf(names: seq<string>): (r: seq<string>)
    ensures |r| == |names| && forall i :: 0 <= i < |names| ==> r[i] == OwnerOf(names[i])
  {
    if names == [] then [] else OwnersOf(names[..|names| - 1]) + [OwnerOf(names[|names| - 1])]
  }

  /** `user.contribs && user.contribs.repos.map(repo => repo.split('/')[0]) || []` */
  function ContribOwnersOf(user: Record): Result<seq<string>>
  {
    if !Has(user, "contribs") then Success([])
    else
      var contribs := user["contribs"];
      if contribs.Obj? && "repos" in contribs.fields && contribs.fields["repos"].Arr? then
        var names :- Logins(contribs.fields["repos"].items);
        Success(OwnersOf(names))
      else Failure("TypeError: user.contribs.repos is not a list of names")
  }

  /** The union of every user's owners of one kind, in the insertion order of a JavaScript `Set`. */
  function Union(users: seq<Record>, of: Record -> Result<seq<string>>): Result<seq<string>>
  {
    if users == [] then Success([])
    else
      var init :- Union(users[..|users| - 1], of);
      var owners :- of(users[|users| - 1]);
      Success(AppendNew(init, owners))
  }

  /** The union holds each owner once, and exactly the owners of some user. */
  lemma {:induction false} UnionSpec(users: seq<Record>, of: Record -> Result<seq<string>>)
    requires Union(users, of).Success?
    ensures NoDups(Union(users, of).value)
    ensures forall o :: o in Union(users, of).value <==>
      exists i :: 0 <= i < |users| && of(users[i]).Success? && o in of(users[i]).value
  {
    if users != [] {
      var init := users[..|users| - 1];
      var last := users[|users| - 1];
      UnionSpec(init, of);
      AppendNewSpec(Union(init, of).value, of(last).value);
      forall o ensures o in Union(users, of).value <==>
        exists i :: 0 <= i < |users| && of(users[i]).Success? && o in of(users[i]).value
      {
        if o in Union(users, of).value {
          if o in Union(init, of).value {
            var i :| 0 <= i < |init| && of(init[i]).Success? && o in of(init[i]).value;
            assert users[i] == init[i];
          } else {
            assert users[|users| - 1] == last;
          }
        } else {
          forall i | 0 <= i < |users| && of(users[i]).Success?
            ensures o !in of(users[i]).value
          {
            if i < |init| {
              assert users[i] == init[i];
            }
          }
        }
      }
    }
  }

  /** The failure of `Union` is the first user whose owners cannot be read. */
  lemma {:induction false} UnionFails(users: seq<Record>, of: Record -> Result<seq<string>>)
    ensures Union(users, of).Success? <==> forall i :: 0 <= i < |users| ==> of(users[i]).Success?
  {
    if users != [] {
      var init := users[..|users| - 1];
      UnionFails(init, of);
      assert forall i :: 0 <= i < |init| ==> init[i] == users[i];
    }
  }

  /** The owner set is rebuilt user by user, as the script spreads each user's owners into it. */
  method CollectOwners(users: seq<Record>, of: Record -> Result<seq<string>>) returns (r: Result<seq<string>>)
    ensures r == Union(users, of)
  {
    var owners: seq<string> := [];
    for i := 0 to |users|
      invariant Union(users[..i], of) == Success(owners)
    {
      assert users[..i + 1][..i] == users[..i];
      var more := of(users[i]);
      if more.Failure? {
        UnionStops(users, of, i + 1);
        return Failure(more.error);
      }
      owners := PushAbsent(owners, more.value);
    }
    assert users[..|users|] == users;
    return Success(owners);
  }

  /** Once the union fails, later users do not change its error. */
  lemma {:induction false} UnionStops(users: seq<Record>, of: Record -> Result<seq<string>>, n: nat)
    requires n <= |users| && Union(users[..n], of).Failure?
    ensures Union(users, of) == Union(users[..n], of)
    decreases |users| - n
  {
    if n < |users| {
      assert users[..n + 1][..n] == users[..n];
      UnionStops(users, of, n + 1);
    } else {
      assert users[..n] == users;
    }
  }

  // ---------------------------------------------------------------------------------------------
  // Classifying owners

  /** The organization files and the list of owners known not to be organizations. */
  datatype Owners = Owners(orgs: map<string, Record>, nonOrgs: seq<Value>)

  /** The stored record of an owner; a file that does not exist reads as an empty record. */
  function OrgFile(orgs: map<string, Record>, owner: string): Record
  {
    if owner in orgs then orgs[owner] else map[]
  }

  /** Some considered user has this login (compared case-sensitively). */
  predicate IsUser(users: seq<Record>, owner: string)
  {
    exists i :: 0 <= i < |users| && Field(users[i], "login") == Str(owner)
  }

  /** The organization record after a fetch: the reply's fields over the stored ones, then the
      listed fields dropped. */
  function FetchedOrg(org: Record, body: Record): Record
  {
    Pruned(org + body, OrgDenylist)
  }

  /** One owner's turn: a known organization and an owner already listed as a user are left
      alone; an owner that is the login of a user, or that GitHub does not know as an
      organization, joins the non-organizations; otherwise the organization record is stored. */
  function Classify(st: Owners, users: seq<Record>, net: string -> Response, owner: string): Result<Owners>
  {
    var org := OrgFile(st.orgs, owner);
    if Has(org, "avatar_url") then Success(st)
    else if Str(owner) in st.nonOrgs then Success(st)
    else if IsUser(users, owner) then Success(st.(nonOrgs := st.nonOrgs + [Str(owner)]))
    else match net(owner)
      case Status(code) =>
        if code == 404 then Success(st.(nonOrgs := st.nonOrgs + [Str(owner)])) else Failure("HTTP error")
      case Payload(body) => Success(st.(orgs := st.orgs[owner := FetchedOrg(org, body)]))
  }

  /** The owners' turns, in order. */
  function ClassifyAll(st: Owners, users: seq<Record>, net: string -> Response, owners: seq<string>)
    : Result<Owners>
  {
    if owners == [] then Success(st)
    else
      var before :- ClassifyAll(st, users, net, owners[..|owners| - 1]);
      Classify(before, users, net, owners[|owners| - 1])
  }

  /** A fetched organization keeps no listed field; every other field comes from the reply, or
      else from the stored record. */
  lemma FetchedOrgFields(org: Record, body: Record)
    ensures forall f :: f in OrgDenylist ==> f !in FetchedOrg(org, body)
    ensures forall k :: k !in OrgDenylist ==>
      (k in FetchedOrg(org, body) <==> k in org || k in body)
      && (k in body ==> FetchedOrg(org, body)[k] == body[k])
      && (k in org && k !in body ==> FetchedOrg(org, body)[k] == org[k])
  {
  }

  /** The list of non-organizations only grows at its end, by the owner and only when absent;
      only the owner's organization file may change. */
  lemma ClassifyGrows(st: Owners, users: seq<Record>, net: string -> Response, owner: string)
    requires Classify(st, users, net, owner).Success?
    ensures var after := Classify(st, users, net, owner).value;
      (after.nonOrgs == st.nonOrgs || (Str(owner) !in st.nonOrgs && after.nonOrgs == st.nonOrgs + [Str(owner)]))
      && (forall k :: k != owner ==> (k in after.orgs <==> k in st.orgs) && (k in st.orgs ==> after.orgs[k] == st.orgs[k]))
  {
  }

  /** The same for any number of owners: the earlier list is kept as a prefix, no duplicate is
      introduced, every new entry is one of the owners, and no other organization file changes. */
  lemma {:induction false} ClassifyAllGrows(st: Owners, users: seq<Record>, net: string -> Response,
                                             owners: seq<string>)
    requires ClassifyAll(st, users, net, owners).Success?
    ensures var after := ClassifyAll(st, users, net, owners).value;
      |after.nonOrgs| >= |st.nonOrgs| && after.nonOrgs[..|st.nonOrgs|] == st.nonOrgs
      && (NoDups(st.nonOrgs) ==> NoDups(after.nonOrgs))
      && (forall j :: |st.nonOrgs| <= j < |after.nonOrgs| ==> exists o :: o in owners && after.nonOrgs[j] == Str(o))
      && (forall k :: k !in owners ==> (k in after.orgs <==> k in st.orgs) && (k in st.orgs ==> after.orgs[k] == st.orgs[k]))
  {
    if owners != [] {
      var init := owners[..|owners| - 1];
      var owner := owners[|owners| - 1];
      ClassifyAllGrows(st, users, net, init);
      var mid := ClassifyAll(st, users, net, init).value;
      var after := ClassifyAll(st, users, net, owners).value;
      ClassifyGrows(mid, users, net, owner);
      assert after.nonOrgs[..|st.nonOrgs|] == st.nonOrgs by {
        assert after.nonOrgs[..|mid.nonOrgs|] == mid.nonOrgs;
      }
      forall j | |st.nonOrgs| <= j < |after.nonOrgs|
        ensures exists o :: o in owners && after.nonOrgs[j] == Str(o)
      {
        if j < |mid.nonOrgs| {
          assert after.nonOrgs[j] == mid.nonOrgs[j];
          var o :| o in init && mid.nonOrgs[j] == Str(o);
          assert o in owners;
        } else {
          assert after.nonOrgs[j] == Str(owner);
        }
      }
    }
  }

  /** A turn fails exactly when the owner is unsettled, is no user's login, and GitHub answers
      with an error other than 404. */
  lemma ClassifyFails(st: Owners, users: seq<Record>, net: string -> Response, owner: string)
    ensures Classify(st, users, net, owner).Failure? <==>
      !Has(OrgFile(st.orgs, owner), "avatar_url") && Str(owner) !in st.nonOrgs && !IsUser(users, owner)
      && net(owner).Status? && net(owner).code != 404
  {
  }

  /** GitHub answers an owner with a record or with 404. */
  predicate Answered(net: string -> Response, owner: string)
  {
    net(owner).Payload? || net(owner).code == 404
  }

  /** When GitHub answers every owner with a record or with 404, every turn goes through; so a
      failing crawl has an owner that GitHub answered with another error. */
  lemma {:induction false} ClassifyAllSucceeds(st: Owners, users: seq<Record>, net: string -> Response,
                                               owners: seq<string>)
    requires forall i :: 0 <= i < |owners| ==> Answered(net, owners[i])
    ensures ClassifyAll(st, users, net, owners).Success?
  {
    if owners != [] {
      var init := owners[..|owners| - 1];
      assert forall i :: 0 <= i < |init| ==> init[i] == owners[i];
      ClassifyAllSucceeds(st, users, net, init);
      ClassifyFails(ClassifyAll(st, users, net, init).value, users, net, owners[|owners| - 1]);
    }
  }

  lemma AvatarKept()
    ensures "avatar_url" !in OrgDenylist
  {
  }

  /** An owner settled by its turn is settled for good: a second turn, as when an owner is both an
      organization of a user and the owner of a contribution, changes nothing and asks GitHub
      nothing. An organization whose reply has no avatar is the exception. */
  lemma ReclassifyIsNoOp(st: Owners, users: seq<Record>, net: string -> Response, owner: string)
    requires Classify(st, users, net, owner).Success?
    requires net(owner).Payload? ==> Has(net(owner).body, "avatar_url")
    ensures var after := Classify(st, users, net, owner).value;
      Classify(after, users, net, owner) == Success(after)
  {
    AvatarKept();
  }

  /** Looks the owner up among the considered users' logins. */
  method FindUser(users: seq<Record>, owner: string) returns (found: bool)
    ensures found <==> IsUser(users, owner)
  {
    for i := 0 to |users|
      invariant forall j :: 0 <= j < i ==> Field(users[j], "login") != Str(owner)
    {
      if Field(users[i], "login") == Str(owner) {
        return true;
      }
    }
    return false;
  }

  /** One owner's turn, as the script takes it. */
  method FetchOwner(st: Owners, users: seq<Record>, net: string -> Response, owner: string)
    returns (r: Result<Owners>)
    ensures r == Classify(st, users, net, owner)
  {
    var org := OrgFile(st.orgs, owner);
    if Has(org, "avatar_url") {
      return Success(st);
    }
    if Str(owner) in st.nonOrgs {
      return Success(st);
    }
    var isUser := FindUser(users, owner);
    if isUser {
      return Success(st.(nonOrgs := st.nonOrgs + [Str(owner)]));
    }
    var reply := net(owner);
    if reply == Status(404) {
      return Success(st.(nonOrgs := st.nonOrgs + [Str(owner)]));
    }
    if reply.Status? {
      return Failure("HTTP error");
    }
    var fetched := DeleteFields(org + reply.body, OrgDenylist);
    return Success(st.(orgs := st.orgs[owner := fetched]));
  }

  /** The inner `fetchOrgs(owners)`: every owner's turn, in order. */
  method FetchOwners(st: Owners, users: seq<Record>, net: string -> Response, owners: seq<string>)
    returns (r: Result<Owners>)
    ensures r == ClassifyAll(st, users, net, owners)
  {
    var current := st;
    for i := 0 to |owners|
      invariant ClassifyAll(st, users, net, owners[..i]) == Success(current)
    {
      assert owners[..i + 1][..i] == owners[..i];
      var next := FetchOwner(current, users, net, owners[i]);
      if next.Failure? {
        ClassifyAllStops(st, users, net, owners, i + 1);
        assert ClassifyAll(st, users, net, owners[..i + 1]) == next;
        return next;
      }
      current := next.value;
    }
    assert owners[..|owners|] == owners;
    return Success(current);
  }

  /** A failing turn stops the crawl: later owners are not looked at. */
  lemma {:induction false} ClassifyAllStops(st: Owners, users: seq<Record>, net: string -> Response,
                                             owners: seq<string>, n: nat)
    requires n <= |owners| && ClassifyAll(st, users, net, owners[..n]).Failure?
    ensures ClassifyAll(st, users, net, owners) == ClassifyAll(st, users, net, owners[..n])
    decreases |owners| - n
  {
    if n < |owners| {
      assert owners[..n + 1][..n] == owners[..n];
      ClassifyAllStops(st, users, net, owners, n + 1);
    } else {
      assert owners[..n] == owners;
    }
  }

  // ---------------------------------------------------------------------------------------------
  // Removing unreferenced organizations

  /** The organization files named in either owner set. */
  function Referenced(orgs: map<string, Record>, userOrgs: seq<string>, contribOwners: seq<string>)
    : map<string, Record>
  {
    map k | k in orgs && (k in userOrgs || k in contribOwners) :: orgs[k]
  }

  /** Deletes the organization files whose name is in neither owner set. */
  method StripUnreferencedOrgs(orgs: map<string, Record>, userOrgs: seq<string>, contribOwners: seq<string>)
    returns (r: map<string, Record>)
    ensures r == Referenced(orgs, userOrgs, contribOwners)
    ensures forall k :: k in r <==> k in orgs && (k in userOrgs || k in contribOwners)
    ensures forall k :: k in r ==> r[k] == orgs[k]
  {
    r := orgs;
    var todo := orgs.Keys;
    while todo != {}
      invariant todo <= orgs.Keys
      invariant forall k :: k in r <==> k in orgs && (k in todo || k in userOrgs || k in contribOwners)
      invariant forall k :: k in r ==> r[k] == orgs[k]
      decreases todo
    {
      var k :| k in todo;
      if k !in userOrgs && k !in contribOwners {
        r := r - {k};
      }
      todo := todo - {k};
    }
  }

  // ---------------------------------------------------------------------------------------------
  // The whole script

  /** `nonOrgs.non_orgs || []` */
  function NonOrgsOf(file: Record): Result<seq<Value>>
  {
    if !Has(file, "non_orgs") then Success([])
    else if file["non_orgs"].Arr? then Success(file["non_orgs"].items)
    else Failure("TypeError: non_orgs is not a list")
  }

  /** The whole crawl: the owner sets of the considered users, each classified in turn (the
      organizations first, then the owners of contributions), and the organization files either
      set names. */
  function OrgsRun(files: seq<Record>, nonOrgsFile: Record, orgs: map<string, Record>, net: string -> Response)
    : Result<(Record, map<string, Record>)>
  {
    var nonOrgs :- NonOrgsOf(nonOrgsFile);
    var users := Active(files);
    var userOrgs :- Union(users, OrgsOf);
    var afterOrgs :- ClassifyAll(Owners(orgs, nonOrgs), users, net, userOrgs);
    var contribOwners :- Union(users, ContribOwnersOf);
    var afterContribs :- ClassifyAll(afterOrgs, users, net, contribOwners);
    Success((nonOrgsFile["non_orgs" := Arr(afterContribs.nonOrgs)],
             Referenced(afterContribs.orgs, userOrgs, contribOwners)))
  }

  /** The crawl succeeds when the non-organizations file holds a list, every considered user's
      organizations and contributions can be read, and GitHub answers every owner it may be asked
      about with a record or with 404. */
  lemma OrgsRunSucceeds(files: seq<Record>, nonOrgsFile: Record, orgs: map<string, Record>,
                        net: string -> Response)
    requires NonOrgsOf(nonOrgsFile).Success?
    requires forall i :: 0 <= i < |files| && Considered(files[i]) ==>
      OrgsOf(files[i]).Success? && ContribOwnersOf(files[i]).Success?
    requires forall o :: Answered(net, o)
    ensures OrgsRun(files, nonOrgsFile, orgs, net).Success?
  {
    var users := Active(files);
    ActiveSpec(files);
    forall i | 0 <= i < |users|
      ensures OrgsOf(users[i]).Success? && ContribOwnersOf(users[i]).Success?
    {
      assert users[i] in users;
    }
    UnionFails(users, OrgsOf);
    UnionFails(users, ContribOwnersOf);
    var userOrgs := Union(users, OrgsOf).value;
    var st := Owners(orgs, NonOrgsOf(nonOrgsFile).value);
    ClassifyAllSucceeds(st, users, net, userOrgs);
    ClassifyAllSucceeds(ClassifyAll(st, users, net, userOrgs).value, users, net, Union(users, ContribOwnersOf).value);
  }

  /** Classifies the organizations of the considered users, then the owners of their
      contributions, and deletes the organization files neither set names. Returns the file of
      non-organizations and the organization files. */
  method FetchOrgs(files: seq<Record>, nonOrgsFile: Record, orgs: map<string, Record>, net: string -> Response)
    returns (r: Result<(Record, map<string, Record>)>)
    ensures r == OrgsRun(files, nonOrgsFile, orgs, net)
    ensures r.Success? ==>
      (NonOrgsOf(nonOrgsFile).Success? && "non_orgs" in r.value.0 && r.value.0["non_orgs"].Arr?
       && var before := NonOrgsOf(nonOrgsFile).value;
          var after := r.value.0["non_orgs"].items;
          |after| >= |before| && after[..|before|] == before && (NoDups(before) ==> NoDups(after)))
    ensures r.Success? ==>
      (Union(Active(files), OrgsOf).Success? && Union(Active(files), ContribOwnersOf).Success?
       && forall k :: k in r.value.1 ==> (exists u :: u in files && Considered(u) && NamesOwner(u, k)))
    ensures r.Success? ==> forall k :: k != "non_orgs" ==>
      (k in r.value.0 <==> k in nonOrgsFile) && (k in nonOrgsFile ==> r.value.0[k] == nonOrgsFile[k])
  {
    var nonOrgs :- NonOrgsOf(nonOrgsFile);
    var users := LoadUsers(files);
    var st := Owners(orgs, nonOrgs);
    var userOrgs :- CollectOwners(users, OrgsOf);
    var afterOrgs :- FetchOwners(st, users, net, userOrgs);
    var contribOwners :- CollectOwners(users, ContribOwnersOf);
    var afterContribs :- FetchOwners(afterOrgs, users, net, contribOwners);
    ClassifyAllGrows(st, users, net, userOrgs);
    ClassifyAllGrows(afterOrgs, users, net, contribOwners);
    var kept := StripUnreferencedOrgs(afterContribs.orgs, userOrgs, contribOwners);
    assert kept == Referenced(afterContribs.orgs, userOrgs, contribOwners);
    OwnersNamed(files, users, userOrgs, contribOwners, kept);
    var after := afterContribs.nonOrgs;
    assert after[..|nonOrgs|] == nonOrgs by {
      assert after[..|afterOrgs.nonOrgs|] == afterOrgs.nonOrgs;
    }
    return Success((nonOrgsFile["non_orgs" := Arr(after)], kept));
  }

  /** `k` is one of the user's organizations or the owner of one of the user's contributions. */
  predicate NamesOwner(u: Record, k: string)
  {
    (OrgsOf(u).Success? && k in OrgsOf(u).value) || (ContribOwnersOf(u).Success? && k in ContribOwnersOf(u).value)
  }

  /** Every kept organization file is named by a considered user. */
  lemma OwnersNamed(files: seq<Record>, users: seq<Record>, userOrgs: seq<string>, contribOwners: seq<string>,
                    kept: map<string, Record>)
    requires users == Active(files)
    requires Union(users, OrgsOf) == Success(userOrgs) && Union(users, ContribOwnersOf) == Success(contribOwners)
    requires forall k :: k in kept ==> k in userOrgs || k in contribOwners
    ensures forall k :: k in kept ==> exists u :: u in files && Considered(u) && NamesOwner(u, k)
  {
    ActiveSpec(files);
    UnionSpec(users, OrgsOf);
    UnionSpec(users, ContribOwnersOf);
    forall k | k in kept
      ensures exists u :: u in files && Considered(u) && NamesOwner(u, k)
    {
      if k in userOrgs {
        var i :| 0 <= i < |users| && OrgsOf(users[i]).Success? && k in OrgsOf(users[i]).value;
        assert users[i] in users;
      } else {
        var i :| 0 <= i < |users| && ContribOwnersOf(users[i]).Success? && k in ContribOwnersOf(users[i]).value;
        assert users[i] in users;
      }
    }
  }
}
