/** The GraphQL (v4) adapter of impl/githubV4.js: it turns the replies of GitHub's GraphQL API
    into the record shapes of the REST (v3) API that the crawl scripts consume. The HTTP request
    itself is a parameter (`gateway`), given the query variables. */
module GithubV4 {
  import opened Records
  import FetchRepos

  /** A value read from a reply; `None` is JavaScript's `undefined`. */
  type Js = Option<Value>

  const TypeError := "TypeError: Cannot read property of undefined or null"
  const RangeError := "RangeError: Invalid time value"
  const ApiRepos := "https://api.github.com/repos/"
  const NotFound := 404
  const ServerError := 500

  /** What an adapter call returns: an error code, or a record. */
  datatype Reply = Code(code: int) | Body(rec: Record)

  /** What a paginated adapter call returns: the gateway's non-object reply (an error code) passed
      through unchanged, or one record per edge. */
  datatype Listing = PassedThrough(reply: Js) | Listed(items: seq<Record>)

  /** `x instanceof Object` */
  predicate IsObject(x: Js)
  {
    x.Some? && (x.value.Obj? || x.value.Arr?)
  }

  predicate JsTruthy(x: Js)
  {
    x.Some? && Truthy(x.value)
  }

  /** `x.k` for a property name `k`: reading a property of `undefined` or `null` throws; a
      primitive or an array has no property of that name. */
  function Prop(x: Js, k: string): Result<Js>
  {
    match x
    case None => Failure(TypeError)
    case Some(Null) => Failure(TypeError)
    case Some(Obj(f)) => Success(if k in f then Some(f[k]) else None)
    case Some(_) => Success(None)
  }

  /** `x.k1.k2...` */
  function Path(x: Js, ks: seq<string>): Result<Js>
    decreases |ks|
  {
    if ks == [] then Success(x)
    else
      var y :- Prop(x, ks[0]);
      Path(y, ks[1..])
  }

  /** `res.k = v`; a field set to `undefined` is not stored. */
  function Assign(res: Record, k: string, v: Js): (r: Record)
    ensures k in r <==> v.Some?
    ensures v.Some? ==> r[k] == v.value
    ensures forall k' :: k' != k ==> (k' in r <==> k' in res) && (k' in r ==> r[k'] == res[k'])
  {
    if v.Some? then res[k := v.value] else res - {k}
  }

  /** `coerceDate`: a falsy date is returned as it is, any other is reformatted by `iso`, which
      fails (`None`) on an invalid date. */
  function CoerceDate(d: Js, iso: Value -> Option<Value>): Result<Js>
  {
    if !JsTruthy(d) then Success(d)
    else match iso(d.value)
      case None => Failure(RangeError)
      case Some(v) => Success(Some(v))
  }

  /** The reformatted date, for a date that `coerceDate` accepts. */
  function Coerced(d: Js, iso: Value -> Option<Value>): Js
  {
    match CoerceDate(d, iso)
    case Success(v) => v
    case Failure(_) => None
  }

  // ---------------------------------------------------------------------------------------------
  // checkResponse

  /** `errors[0].type`; `None` is an undefined type. */
  function FirstErrorType(errors: Value): Result<Js>
  {
    match errors
    case Arr(items) => if items == [] then Failure(TypeError) else Prop(Some(items[0]), "type")
    case Obj(f) => if "0" in f then Prop(Some(f["0"]), "type") else Failure(TypeError)
    case Str(_) => Success(None)
    case Time(_) => Success(None)
    case _ => Failure(TypeError)
  }

  /** `dataJson.errors` of an object reply. */
  function Errors(reply: Js): Js
    requires IsObject(reply)
  {
    if reply.value.Obj? && "errors" in reply.value.fields then Some(reply.value.fields["errors"])
    else None
  }

  /** The error code of a GraphQL reply, or `None` when it carries data. */
  function CheckResponse(reply: Js): (r: Result<Option<int>>)
    ensures !IsObject(reply) ==> r == Success(Some(ServerError))
    ensures r == Success(None) <==> IsObject(reply) && !JsTruthy(Errors(reply))
    ensures r == Success(Some(NotFound)) <==>
      IsObject(reply) && JsTruthy(Errors(reply))
      && FirstErrorType(Errors(reply).value) == Success(Some(Str("NOT_FOUND")))
    ensures r.Failure? <==>
      IsObject(reply) && JsTruthy(Errors(reply)) && FirstErrorType(Errors(reply).value).Failure?
    ensures r.Success? && r.value.Some? ==> r.value.value in {NotFound, ServerError}
  {
    if !IsObject(reply) then Success(Some(ServerError))
    else if JsTruthy(Errors(reply)) then
      var t :- FirstErrorType(Errors(reply).value);
      if t == Some(Str("NOT_FOUND")) then Success(Some(NotFound)) else Success(Some(ServerError))
    else Success(None)
  }

  // ---------------------------------------------------------------------------------------------
  // buildCommonRepoVariables

  /** The query variables for a repository: its owner and name, and the cursor of the previous
      page on every page but the first. `page` is `None` when it is not a number. */
  function BuildCommonRepoVariables(fullName: string, page: Option<int>, cursor: Js): (r: Result<Record>)
    ensures r.Failure? <==> page.Some? && page.value != 1 && (cursor.None? || cursor == Some(Null))
    ensures r.Success? ==> "owner" in r.value && r.value["owner"] == Str(OwnerOf(fullName))
    ensures r.Success? ==> ("name" in r.value <==> |Split(fullName)| > 1)
    ensures r.Success? && "name" in r.value ==> r.value["name"] == Str(Split(fullName)[1])
    ensures r.Success? ==> ("cursor" in r.value <==> page.Some? && page.value != 1)
    ensures r.Success? && "cursor" in r.value ==> cursor == Some(r.value["cursor"])
    ensures r.Success? ==> r.value.Keys <= {"owner", "name", "cursor"}
  {
    var parts := Split(fullName);
    assert OwnerOf(fullName) == parts[0];
    var variables := Assign(map["owner" := Str(parts[0])], "name",
                            if |parts| > 1 then Some(Str(parts[1])) else None);
    if page.None? || page.value == 1 then Success(variables)
    else if cursor.None? || cursor == Some(Null) then Failure("expected cursor not null")
    else Success(variables["cursor" := cursor.value])
  }

  /** For an `owner/name` full name the variables name the repository exactly: joining them back
      gives the full name. */
  lemma {:induction false} VariablesNameRepo(fullName: string, page: Option<int>, cursor: Js)
    requires |Split(fullName)| == 2
    requires BuildCommonRepoVariables(fullName, page, cursor).Success?
    ensures var v := BuildCommonRepoVariables(fullName, page, cursor).value;
      "name" in v && v["owner"].Str? && v["name"].Str?
      && v["owner"].s + "/" + v["name"].s == fullName
  {
    var parts := Split(fullName);
    SplitJoin(fullName);
    assert Join(parts) == parts[0] + "/" + Join(parts[1..]);
    assert parts[1..] == [parts[1]];
  }

  // ---------------------------------------------------------------------------------------------
  // insertCursor

  /** `edges[edges.length - 1].cursor` */
  function LastCursor(edges: seq<Value>): Result<Js>
    requires |edges| > 0
  {
    Prop(Some(edges[|edges| - 1]), "cursor")
  }

  /** Passes the last edge's cursor in the first element of the result, so that the caller can
      ask for the next page. */
  method InsertCursor(result: array<Record>, edges: seq<Value>) returns (r: Result<()>)
    modifies result
    ensures result.Length == 0 || |edges| == 0 ==> r.Success? && result[..] == old(result[..])
    ensures result.Length > 0 && |edges| > 0 ==> (r.Success? <==> LastCursor(edges).Success?)
    ensures r.Failure? ==> result[..] == old(result[..])
    ensures r.Success? && result.Length > 0 && |edges| > 0 ==>
      result[0] == Assign(old(result[0]), "cursor", LastCursor(edges).value)
    ensures forall i :: 1 <= i < result.Length ==> result[i] == old(result[i])
  {
    if result.Length > 0 && |edges| > 0 {
      var cursor :- Prop(Some(edges[|edges| - 1]), "cursor");
      result[0] := Assign(result[0], "cursor", cursor);
    }
    return Success(());
  }

  // ---------------------------------------------------------------------------------------------
  // Edges to records

  /** The records of a list of edges, each shaped by `shape`; the first edge that cannot be
      shaped aborts with its error. */
  function Shaped<T>(edges: seq<Value>, shape: Value -> Result<T>): Result<seq<T>>
    decreases |edges|
  {
    if edges == [] then Success([])
    else
      var init :- Shaped(edges[..|edges| - 1], shape);
      var last :- shape(edges[|edges| - 1]);
      Success(init + [last])
  }

  /** Shaping succeeds exactly when every edge can be shaped, and then yields one record per edge,
      in order. */
  lemma {:induction false} ShapedSpec<T>(edges: seq<Value>, shape: Value -> Result<T>)
    ensures Shaped(edges, shape).Success? <==> forall i :: 0 <= i < |edges| ==> shape(edges[i]).Success?
    ensures Shaped(edges, shape).Success? ==>
      |Shaped(edges, shape).value| == |edges|
      && forall i :: 0 <= i < |edges| ==> Shaped(edges, shape).value[i] == shape(edges[i]).value
    decreases |edges|
  {
    if edges != [] {
      var init := edges[..|edges| - 1];
      ShapedSpec(init, shape);
      assert forall i :: 0 <= i < |init| ==> init[i] == edges[i];
    }
  }

  /** Once a prefix fails, the whole list fails with the same error. */
  lemma {:induction false} ShapedPrefixFails<T>(edges: seq<Value>, shape: Value -> Result<T>, n: nat)
    requires n <= |edges| && Shaped(edges[..n], shape).Failure?
    ensures Shaped(edges, shape) == Shaped(edges[..n], shape)
    decreases |edges| - n
  {
    if n < |edges| {
      assert edges[..n + 1][..n] == edges[..n];
      ShapedPrefixFails(edges, shape, n + 1);
    } else {
      assert edges[..n] == edges;
    }
  }

  /** The `for (let e of edges) res.push(...)` loop. */
  method ShapeAll<T>(edges: seq<Value>, shape: Value -> Result<T>) returns (r: Result<seq<T>>)
    ensures r == Shaped(edges, shape)
  {
    var res: seq<T> := [];
    for i := 0 to |edges|
      invariant Shaped(edges[..i], shape) == Success(res)
    {
      assert edges[..i + 1][..i] == edges[..i];
      var rec := shape(edges[i]);
      if rec.Failure? {
        ShapedPrefixFails(edges, shape, i + 1);
        return Failure(rec.error);
      }
      res := res + [rec.value];
    }
    assert edges[..|edges|] == edges;
    return Success(res);
  }

  /** The edges at `path` of a reply; they must be iterable. */
  function EdgesAt(reply: Js, path: seq<string>): Result<seq<Value>>
  {
    var edges :- Path(reply, path);
    if edges.Some? && edges.value.Arr? then Success(edges.value.items)
    else Failure("TypeError: edges is not iterable")
  }

  /** Shapes the edges at `path`, passing the last edge's cursor in the first record. */
  method ListEdges(reply: Js, path: seq<string>, shape: Value -> Result<Record>)
    returns (r: Result<seq<Record>>)
    ensures r.Success? <==>
      EdgesAt(reply, path).Success? && Shaped(EdgesAt(reply, path).value, shape).Success?
      && (|EdgesAt(reply, path).value| > 0 ==> LastCursor(EdgesAt(reply, path).value).Success?)
    ensures r.Success? ==> Cursored(EdgesAt(reply, path).value, shape, r.value)
  {
    var edges :- EdgesAt(reply, path);
    var items :- ShapeAll(edges, shape);
    ShapedSpec(edges, shape);
    var res := new Record[|items|](i requires 0 <= i < |items| => items[i]);
    var inserted :- InsertCursor(res, edges);
    return Success(res[..]);
  }

  /** One record per edge, in order, the first one carrying the last edge's cursor. */
  ghost predicate Cursored(edges: seq<Value>, shape: Value -> Result<Record>, items: seq<Record>)
  {
    |items| == |edges|
    && (forall i :: 0 <= i < |edges| ==> shape(edges[i]).Success?)
    && (forall i :: 1 <= i < |edges| ==> items[i] == shape(edges[i]).value)
    && (|edges| > 0 ==> LastCursor(edges).Success?
                        && items[0] == Assign(shape(edges[0]).value, "cursor", LastCursor(edges).value))
  }

  // ---------------------------------------------------------------------------------------------
  // commits

  /** `x.user ? x.user.login : null` */
  function UserLogin(x: Js): Result<Js>
  {
    var user :- Prop(x, "user");
    if JsTruthy(user) then Prop(user, "login") else Success(Some(Null))
  }

  /** One commit edge as a REST commit record: its `sha`, the dates of its author and committer,
      and the GitHub logins of both (`null` when the git identity has no GitHub user). */
  function ShapeCommit(iso: Value -> Option<Value>, e: Value): Result<Record>
  {
    var node :- Prop(Some(e), "node");
    var author :- Prop(node, "author");
    var committer :- Prop(node, "committer");
    var sha :- Prop(node, "oid");
    var authorDate :- Prop(author, "date");
    var authorDate' :- CoerceDate(authorDate, iso);
    var committerDate :- Prop(committer, "date");
    var committerDate' :- CoerceDate(committerDate, iso);
    var authorLogin :- UserLogin(author);
    var committerLogin :- UserLogin(committer);
    Success(CommitRecord(sha, authorDate', committerDate', authorLogin, committerLogin))
  }

  /** The REST shape of a commit: the dates under `commit`, the logins under `author` and
      `committer`, and the `sha` when it is defined. */
  function CommitRecord(sha: Js, authorDate: Js, committerDate: Js, authorLogin: Js, committerLogin: Js)
    : (r: Record)
    ensures Copied(r, "sha", sha)
    ensures "author" in r && r["author"] == Obj(Assign(map[], "login", authorLogin))
    ensures "committer" in r && r["committer"] == Obj(Assign(map[], "login", committerLogin))
  {
    Assign(map[
      "commit" := Obj(map["author" := Obj(Assign(map[], "date", authorDate)),
                          "committer" := Obj(Assign(map[], "date", committerDate))]),
      "author" := Obj(Assign(map[], "login", authorLogin)),
      "committer" := Obj(Assign(map[], "login", committerLogin))], "sha", sha)
  }

  /** The login the contributor count of the crawl reads from a commit record:
      `commit[role] && commit[role].login`, when it is a string. */
  function CountedLogin(rec: Record, role: string): Option<string>
  {
    if role in rec && rec[role].Obj? && "login" in rec[role].fields && rec[role].fields["login"].Str?
    then Some(rec[role].fields["login"].s)
    else None
  }

  /** A commit record as the contributor count sees it. */
  function CountedCommit(rec: Record): FetchRepos.Commit
  {
    FetchRepos.Commit(CountedLogin(rec, "author"), CountedLogin(rec, "committer"))
  }

  /** The GitHub login of a commit edge's author or committer, when the git identity has a GitHub
      user with a string login. */
  function GitUserLogin(e: Value, role: string): Option<string>
  {
    match Path(Some(e), ["node", role, "user"])
    case Success(Some(user)) =>
      if Truthy(user) && user.Obj? && "login" in user.fields && user.fields["login"].Str?
      then Some(user.fields["login"].s)
      else None
    case _ => None
  }

  /** A shaped commit carries its sha and credits exactly the GitHub users behind its author and
      committer: a git identity without a GitHub user is counted for nobody. */
  lemma ShapedCommitCredits(iso: Value -> Option<Value>, e: Value)
    requires ShapeCommit(iso, e).Success?
    ensures CountedCommit(ShapeCommit(iso, e).value)
         == FetchRepos.Commit(GitUserLogin(e, "author"), GitUserLogin(e, "committer"))
    ensures var node := Prop(Some(e), "node").value;
      ("sha" in ShapeCommit(iso, e).value <==> Prop(node, "oid").value.Some?)
  {
    var node := Prop(Some(e), "node").value;
    var rec := ShapeCommit(iso, e).value;
    var author := Prop(node, "author").value;
    var committer := Prop(node, "committer").value;
    assert rec["author"] == Obj(Assign(map[], "login", UserLogin(author).value));
    assert rec["committer"] == Obj(Assign(map[], "login", UserLogin(committer).value));
    CreditedLogin(e, "author", rec);
    CreditedLogin(e, "committer", rec);
  }

  /** The login a shaped commit holds for one role is the GitHub user's login behind that role. */
  lemma CreditedLogin(e: Value, role: string, rec: Record)
    requires Prop(Some(e), "node").Success? && Prop(Prop(Some(e), "node").value, role).Success?
    requires UserLogin(Prop(Prop(Some(e), "node").value, role).value).Success?
    requires role in rec
      && rec[role] == Obj(Assign(map[], "login", UserLogin(Prop(Prop(Some(e), "node").value, role).value).value))
    ensures CountedLogin(rec, role) == GitUserLogin(e, role)
  {
    UserPath(e, role);
  }

  /** Reading `node[role].user` from an edge whose node and role can be read. */
  lemma UserPath(e: Value, role: string)
    requires Prop(Some(e), "node").Success? && Prop(Prop(Some(e), "node").value, role).Success?
    ensures Path(Some(e), ["node", role, "user"])
         == Prop(Prop(Prop(Some(e), "node").value, role).value, "user")
  {
    var node := Prop(Some(e), "node").value;
    var who := Prop(node, role).value;
    assert ["node", role, "user"][1..] == [role, "user"];
    assert [role, "user"][1..] == ["user"];
    assert Path(who, ["user"]) == Prop(who, "user");
  }

  /** `variables.since = lastFetchedCommitDateStr` on top of the common variables. */
  function CommitsVariables(fullName: string, since: Js, page: Option<int>, cursor: Js): Result<Record>
  {
    var variables :- BuildCommonRepoVariables(fullName, page, cursor);
    Success(Assign(variables, "since", since))
  }

  const CommitEdgesPath := ["data", "repository", "ref", "target", "history", "edges"]

  /** One page of a repository's commit history, as REST commit records. */
  method Commits(fullName: string, since: Js, page: Option<int>, cursor: Js,
                 gateway: Record -> Js, iso: Value -> Option<Value>)
    returns (r: Result<Listing>)
    ensures CommitsVariables(fullName, since, page, cursor).Failure? ==> r.Failure?
    ensures CommitsVariables(fullName, since, page, cursor).Success? ==>
      var reply := gateway(CommitsVariables(fullName, since, page, cursor).value);
      (!IsObject(reply) ==> r == Success(PassedThrough(reply)))
      && (IsObject(reply) ==>
            (r.Success? <==> EdgesAt(reply, CommitEdgesPath).Success?
                             && Shaped(EdgesAt(reply, CommitEdgesPath).value, e => ShapeCommit(iso, e)).Success?)
            && (r.Success? ==> r.value.Listed?
                               && Cursored(EdgesAt(reply, CommitEdgesPath).value, e => ShapeCommit(iso, e), r.value.items)))
  {
    var variables :- CommitsVariables(fullName, since, page, cursor);
    var reply := gateway(variables);
    if !IsObject(reply) {
      return Success(PassedThrough(reply));
    }
    var shape := e => ShapeCommit(iso, e);
    var edges := EdgesAt(reply, CommitEdgesPath);
    if edges.Success? && |edges.value| > 0 && shape(edges.value[|edges.value| - 1]).Success? {
      assert LastCursor(edges.value).Success?;
    }
    var items :- ListEdges(reply, CommitEdgesPath, shape);
    return Success(Listed(items));
  }

  // ---------------------------------------------------------------------------------------------
  // pullRequests

  /** One pull request edge as a REST pull request record: its author's login, `null` when the
      author is gone. */
  function ShapePull(e: Value): Result<Record>
  {
    var node :- Prop(Some(e), "node");
    var author :- Prop(node, "author");
    var login :- if JsTruthy(author) then Prop(author, "login") else Success(Some(Null));
    Success(map["user" := Obj(Assign(map[], "login", login))])
  }

  /** A shaped pull request names its author's login, or `null` for a deleted author. */
  lemma ShapedPullAuthor(e: Value)
    requires ShapePull(e).Success?
    ensures var author := Path(Some(e), ["node", "author"]).value;
      ShapePull(e).value.Keys == {"user"}
      && (!JsTruthy(author) ==> ShapePull(e).value["user"] == Obj(map["login" := Null]))
      && (JsTruthy(author) ==>
            ShapePull(e).value["user"] == Obj(Assign(map[], "login", Prop(author, "login").value)))
  {
  }

  const PullEdgesPath := ["data", "repository", "pullRequests", "edges"]

  /** One page of a repository's pull requests, newest first, as REST pull request records. */
  method PullRequests(fullName: string, page: Option<int>, cursor: Js, gateway: Record -> Js)
    returns (r: Result<Listing>)
    ensures BuildCommonRepoVariables(fullName, page, cursor).Failure? ==> r.Failure?
    ensures BuildCommonRepoVariables(fullName, page, cursor).Success? ==>
      var reply := gateway(BuildCommonRepoVariables(fullName, page, cursor).value);
      (!IsObject(reply) ==> r == Success(PassedThrough(reply)))
      && (IsObject(reply) ==>
            (r.Success? <==> EdgesAt(reply, PullEdgesPath).Success?
                             && Shaped(EdgesAt(reply, PullEdgesPath).value, ShapePull).Success?)
            && (r.Success? ==> r.value.Listed?
                               && Cursored(EdgesAt(reply, PullEdgesPath).value, ShapePull, r.value.items)))
  {
    var variables :- BuildCommonRepoVariables(fullName, page, cursor);
    var reply := gateway(variables);
    if !IsObject(reply) {
      return Success(PassedThrough(reply));
    }
    var edges := EdgesAt(reply, PullEdgesPath);
    if edges.Success? && |edges.value| > 0 && ShapePull(edges.value[|edges.value| - 1]).Success? {
      assert LastCursor(edges.value).Success?;
    }
    var items :- ListEdges(reply, PullEdgesPath, ShapePull);
    return Success(Listed(items));
  }

  // ---------------------------------------------------------------------------------------------
  // repoLanguages

  /** `res[it.node.name] = it.size` for one edge: the key it writes and the size it stores. */
  function LanguageEntry(toString: Value -> string, it: Value): Result<(string, Js)>
  {
    var node :- Prop(Some(it), "node");
    var name :- Prop(node, "name");
    var size :- Prop(Some(it), "size");
    Success((Text(name, toString), size))
  }

  /** The object the entries are written into, one after the other. */
  function Fill(entries: seq<(string, Js)>): Record
    decreases |entries|
  {
    if entries == [] then map[]
    else
      var last := entries[|entries| - 1];
      Assign(Fill(entries[..|entries| - 1]), last.0, last.1)
  }

  /** A language written by several edges keeps the size of the last one; a name no edge writes
      is absent. */
  lemma {:induction false} LastEntryWins(entries: seq<(string, Js)>, k: string)
    ensures (forall i :: 0 <= i < |entries| ==> entries[i].0 != k) ==> k !in Fill(entries)
    ensures forall j :: 0 <= j < |entries| && entries[j].0 == k
                        && (forall i :: j < i < |entries| ==> entries[i].0 != k) ==>
      (k in Fill(entries) <==> entries[j].1.Some?)
      && (k in Fill(entries) ==> Fill(entries)[k] == entries[j].1.value)
    decreases |entries|
  {
    if entries != [] {
      var n := |entries| - 1;
      var init := entries[..n];
      LastEntryWins(init, k);
      assert forall i :: 0 <= i < n ==> init[i] == entries[i];
      forall j | 0 <= j < |entries| && entries[j].0 == k
                 && (forall i :: j < i < |entries| ==> entries[i].0 != k)
        ensures (k in Fill(entries) <==> entries[j].1.Some?)
                && (k in Fill(entries) ==> Fill(entries)[k] == entries[j].1.value)
      {
        if j < n {
          assert entries[n].0 != k;
          assert init[j].0 == k && forall i :: j < i < |init| ==> init[i].0 != k;
        }
      }
    }
  }

  const LanguageEdgesPath := ["data", "repository", "languages", "edges"]

  /** The variables of a single-page query; they never fail, as there is no page to continue. */
  function RepoVariables(fullName: string): Record
  {
    BuildCommonRepoVariables(fullName, None, None).value
  }

  /** A repository's languages with their sizes in bytes, or the error code of the reply. */
  method RepoLanguages(fullName: string, gateway: Record -> Js, toString: Value -> string)
    returns (r: Result<Reply>)
    ensures var reply := gateway(RepoVariables(fullName));
      (CheckResponse(reply).Failure? ==> r.Failure?)
      && (CheckResponse(reply).Success? && CheckResponse(reply).value.Some? ==>
            r == Success(Code(CheckResponse(reply).value.value)))
      && (CheckResponse(reply) == Success(None) ==>
            (r.Success? <==> EdgesAt(reply, LanguageEdgesPath).Success?
                             && Shaped(EdgesAt(reply, LanguageEdgesPath).value, it => LanguageEntry(toString, it)).Success?)
            && (r.Success? ==> r == Success(Body(Fill(Shaped(EdgesAt(reply, LanguageEdgesPath).value,
                                                               it => LanguageEntry(toString, it)).value)))))
  {
    var reply := gateway(RepoVariables(fullName));
    var err :- CheckResponse(reply);
    if err.Some? {
      return Success(Code(err.value));
    }
    var edges :- EdgesAt(reply, LanguageEdgesPath);
    var languages :- FillLanguages(edges, toString);
    return Success(Body(languages));
  }

  /** Writes each edge's language and size into a new object, failing at the first edge that
      cannot be read. */
  method FillLanguages(edges: seq<Value>, toString: Value -> string) returns (r: Result<Record>)
    ensures r.Success? <==> Shaped(edges, it => LanguageEntry(toString, it)).Success?
    ensures r.Success? ==> r.value == Fill(Shaped(edges, it => LanguageEntry(toString, it)).value)
  {
    var entry := it => LanguageEntry(toString, it);
    var res: Record := map[];
    ghost var entries: seq<(string, Js)> := [];
    for i := 0 to |edges|
      invariant Shaped(edges[..i], entry) == Success(entries)
      invariant res == Fill(entries)
    {
      assert edges[..i + 1][..i] == edges[..i];
      var e := entry(edges[i]);
      if e.Failure? {
        ShapedPrefixFails(edges, entry, i + 1);
        return Failure(e.error);
      }
      res := Assign(res, e.value.0, e.value.1);
      ghost var before := entries;
      entries := entries + [e.value];
      assert entries[..|entries| - 1] == before;
    }
    assert edges[..|edges|] == edges;
    return Success(res);
  }

  // ---------------------------------------------------------------------------------------------
  // repo

  /** The value at `path` below the repository node; `None` when it is undefined or cannot be
      read. */
  function At(repo: Js, path: seq<string>): Js
  {
    match Path(repo, path)
    case Success(v) => v
    case Failure(_) => None
  }

  /** Reading a property of `x` does not throw: `x` is neither undefined nor `null`. */
  predicate Readable(x: Js)
  {
    x.Some? && x != Some(Null)
  }

  /** `rec[field]` holds `v`, and is absent when `v` is undefined. */
  predicate Copied(rec: Record, field: string, v: Js)
  {
    (field in rec <==> v.Some?) && (v.Some? ==> rec[field] == v.value)
  }

  const RepoPath := ["data", "repository"]

  /** `a + b` agrees with `a` on the keys `b` does not have. */
  lemma MergeKeeps(a: Record, b: Record, keys: set<string>)
    requires b.Keys !! keys
    ensures forall k :: k in keys ==> (k in a + b <==> k in a) && (k in a ==> (a + b)[k] == a[k])
  {
  }

  /** Reads `x.k1.k2`, and relates it to `At`. */
  method Read2(x: Js, k1: string, k2: string) returns (r: Result<Js>)
    ensures r == Path(x, [k1, k2])
    ensures r.Success? <==> Readable(x) && Readable(At(x, [k1]))
    ensures r.Success? ==> r.value == At(x, [k1, k2])
  {
    assert [k1, k2][1..] == [k2] && [k1][1..] == [];
    var y :- Prop(x, k1);
    assert Path(y, []) == Success(y);
    assert Path(x, [k1]) == Success(y);
    r := Prop(y, k2);
    assert Path(y, [k2]) == Prop(y, k2);
  }

  /** Reads `x.k`, and relates it to `At`. */
  method Read1(x: Js, k: string) returns (r: Result<Js>)
    ensures r == Path(x, [k])
    ensures r.Success? <==> Readable(x)
    ensures r.Success? ==> r.value == At(x, [k])
  {
    r := Prop(x, k);
    assert Path(x, [k]) == r;
  }

  /** An object whose fields are assigned from `fields`, one per key; a field assigned
      `undefined` is not stored. */
  function Compact(fields: map<string, Js>): (r: Record)
    ensures forall k :: k in fields ==> Copied(r, k, fields[k])
    ensures r.Keys <= fields.Keys
  {
    map k | k in fields && fields[k].Some? :: fields[k].value
  }

  // The repository record is assembled from four groups of fields with disjoint keys.

  const NameKeys := {"name", "full_name", "private", "owner", "html_url", "description", "fork"}
  const LinkKeys := {"url", "languages_url", "pulls_url"}
  const DateKeys := {"created_at", "updated_at", "pusher_at", "homepage", "size", "stargazers_count"}
  const ExtraKeys := {"language", "mirror_url", "archived", "license", "default_branch", "organization"}

  const LicenseKeys := {"key", "name", "spdx_id", "url", "node_id"}

  /** `res.license`: an object with copies of the license information's fields, its SPDX
      identifier under `spdx_id` and its node id under `node_id`. */
  ghost predicate LicenseFields(license: Value, info: Js)
  {
    license.Obj? && license.fields.Keys <= LicenseKeys
    && Copied(license.fields, "key", At(info, ["key"]))
    && Copied(license.fields, "name", At(info, ["name"]))
    && Copied(license.fields, "spdx_id", At(info, ["spdxId"]))
    && Copied(license.fields, "url", At(info, ["url"]))
    && Copied(license.fields, "node_id", At(info, ["id"]))
  }

  /** Copies of the GraphQL node's naming fields. */
  ghost predicate NameFields(rec: Record, repo: Js)
  {
    Copied(rec, "name", At(repo, ["name"]))
    && Copied(rec, "full_name", At(repo, ["nameWithOwner"]))
    && Copied(rec, "private", At(repo, ["isPrivate"]))
    && Copied(rec, "owner", At(repo, ["owner", "login"]))
    && Copied(rec, "html_url", At(repo, ["url"]))
    && Copied(rec, "description", At(repo, ["description"]))
    && Copied(rec, "fork", At(repo, ["isFork"]))
  }

  /** The REST API links, built from `nameWithOwner`. */
  ghost predicate LinkFields(rec: Record, repo: Js, toString: Value -> string)
  {
    var api := ApiRepos + Text(At(repo, ["nameWithOwner"]), toString);
    "url" in rec && rec["url"] == Str(api)
    && "languages_url" in rec && rec["languages_url"] == Str(api + "/languages")
    && "pulls_url" in rec && rec["pulls_url"] == Str(api + "/pulls{/number}")
  }

  /** The reformatted dates (the push date under `pusher_at`) and the copied counters. */
  ghost predicate DateFields(rec: Record, repo: Js, iso: Value -> Option<Value>)
  {
    Copied(rec, "created_at", Coerced(At(repo, ["createdAt"]), iso))
    && Copied(rec, "updated_at", Coerced(At(repo, ["updatedAt"]), iso))
    && Copied(rec, "pusher_at", Coerced(At(repo, ["pushedAt"]), iso))
    && Copied(rec, "homepage", At(repo, ["homepageUrl"]))
    && Copied(rec, "size", At(repo, ["diskUsage"]))
    && Copied(rec, "stargazers_count", At(repo, ["stargazers", "totalCount"]))
  }

  /** The language, mirror, archive flag and default branch; a license only when the node has
      one, and an empty organization only for an organization's repository. */
  ghost predicate ExtraFields(rec: Record, repo: Js)
  {
    Copied(rec, "language", At(repo, ["primaryLanguage", "name"]))
    && Copied(rec, "mirror_url", At(repo, ["mirrorUrl"]))
    && Copied(rec, "archived", At(repo, ["isArchived"]))
    && ("license" in rec <==> JsTruthy(At(repo, ["licenseInfo"])))
    && ("license" in rec ==> LicenseFields(rec["license"], At(repo, ["licenseInfo"])))
    && Copied(rec, "default_branch", At(repo, ["defaultBranchRef", "name"]))
    && ("organization" in rec <==> At(repo, ["owner", "__typename"]) == Some(Str("Organization")))
    && ("organization" in rec ==> rec["organization"] == Obj(map[]))
  }

  /** The dates can be reformatted. */
  predicate DatesReadable(repo: Js, iso: Value -> Option<Value>)
  {
    CoerceDate(At(repo, ["createdAt"]), iso).Success?
    && CoerceDate(At(repo, ["updatedAt"]), iso).Success?
    && CoerceDate(At(repo, ["pushedAt"]), iso).Success?
  }

  /** Shaping the node throws nothing: the node, its owner, its stargazers, its primary language
      and its default branch can be read, and every date can be reformatted. */
  predicate RepoReadable(repo: Js, iso: Value -> Option<Value>)
  {
    Readable(repo) && Readable(At(repo, ["owner"])) && Readable(At(repo, ["stargazers"]))
    && DatesReadable(repo, iso)
    && Readable(At(repo, ["primaryLanguage"])) && Readable(At(repo, ["defaultBranchRef"]))
  }

  ghost predicate RepoFields(rec: Record, repo: Js, iso: Value -> Option<Value>, toString: Value -> string)
  {
    NameFields(rec, repo) && LinkFields(rec, repo, toString) && DateFields(rec, repo, iso)
    && ExtraFields(rec, repo)
  }

  /** Reads the naming fields, in the source's order. */
  method ReadNameFields(repo: Js) returns (r: Result<Record>)
    ensures repo.None? || repo == Some(Null) ==> r.Failure?
    ensures r.Success? <==> Readable(repo) && Readable(At(repo, ["owner"]))
    ensures r.Success? ==> NameFields(r.value, repo) && r.value.Keys <= NameKeys
  {
    var name :- Read1(repo, "name");
    // Once one property of `repo` has been read, reading another cannot throw.
    var nameWithOwner := At(repo, ["nameWithOwner"]);
    var isPrivate := At(repo, ["isPrivate"]);
    var owner :- Read2(repo, "owner", "login");
    var url := At(repo, ["url"]);
    var description := At(repo, ["description"]);
    var isFork := At(repo, ["isFork"]);
    return Success(Compact(map["name" := name, "full_name" := nameWithOwner, "private" := isPrivate,
                               "owner" := owner, "html_url" := url, "description" := description,
                               "fork" := isFork]));
  }

  /** Reads the naming fields and builds the API links from `nameWithOwner`. */
  method ReadNames(repo: Js, toString: Value -> string) returns (r: Result<Record>)
    ensures repo.None? || repo == Some(Null) ==> r.Failure?
    ensures r.Success? <==> Readable(repo) && Readable(At(repo, ["owner"]))
    ensures r.Success? ==> NameFields(r.value, repo) && LinkFields(r.value, repo, toString)
    ensures r.Success? ==> r.value.Keys <= NameKeys + LinkKeys
  {
    var names :- ReadNameFields(repo);
    var api := ApiRepos + Text(At(repo, ["nameWithOwner"]), toString);
    var links := map["url" := Str(api), "languages_url" := Str(api + "/languages"),
                     "pulls_url" := Str(api + "/pulls{/number}")];
    NamesLinksMerge(names, links);
    return Success(names + links);
  }

  /** `res.license`, when the node has license information. */
  method ReadLicense(licenseInfo: Js) returns (license: Js)
    ensures license.Some? <==> JsTruthy(licenseInfo)
    ensures license.Some? ==> LicenseFields(license.value, licenseInfo)
  {
    if !JsTruthy(licenseInfo) {
      return None;
    }
    // A truthy value is neither undefined nor `null`, so none of these reads throws.
    var key := At(licenseInfo, ["key"]);
    var name := At(licenseInfo, ["name"]);
    var spdxId := At(licenseInfo, ["spdxId"]);
    var url := At(licenseInfo, ["url"]);
    var id := At(licenseInfo, ["id"]);
    return Some(Obj(Compact(map["key" := key, "name" := name, "spdx_id" := spdxId,
                                "url" := url, "node_id" := id])));
  }

  /** Reads the dates and counters, in the source's order. */
  method ReadDates(repo: Js, iso: Value -> Option<Value>) returns (r: Result<Record>)
    ensures r.Success? <==> Readable(repo) && DatesReadable(repo, iso) && Readable(At(repo, ["stargazers"]))
    ensures r.Success? ==> DateFields(r.value, repo, iso) && r.value.Keys <= DateKeys
  {
    var createdAt :- Read1(repo, "createdAt");
    var created :- CoerceDate(createdAt, iso);
    // Once one property of `repo` has been read, reading another cannot throw.
    var updated :- CoerceDate(At(repo, ["updatedAt"]), iso);
    var pushed :- CoerceDate(At(repo, ["pushedAt"]), iso);
    var homepage := At(repo, ["homepageUrl"]);
    var size := At(repo, ["diskUsage"]);
    var stars :- Read2(repo, "stargazers", "totalCount");
    return Success(Compact(map["created_at" := created, "updated_at" := updated, "pusher_at" := pushed,
                               "homepage" := homepage, "size" := size, "stargazers_count" := stars]));
  }

  /** The remaining fields, assembled from the values read. */
  lemma ExtrasAssembled(repo: Js, language: Js, license: Js, defaultBranch: Js, ownerType: Js)
    requires language == At(repo, ["primaryLanguage", "name"])
    requires license.Some? <==> JsTruthy(At(repo, ["licenseInfo"]))
    requires license.Some? ==> LicenseFields(license.value, At(repo, ["licenseInfo"]))
    requires defaultBranch == At(repo, ["defaultBranchRef", "name"]) && ownerType == At(repo, ["owner", "__typename"])
    ensures var organization: Js := if ownerType == Some(Str("Organization")) then Some(Obj(map[])) else None;
      var extras := Compact(map["language" := language, "mirror_url" := At(repo, ["mirrorUrl"]),
                                "archived" := At(repo, ["isArchived"]), "license" := license,
                                "default_branch" := defaultBranch, "organization" := organization]);
      ExtraFields(extras, repo) && extras.Keys <= ExtraKeys
  {
    var organization: Js := if ownerType == Some(Str("Organization")) then Some(Obj(map[])) else None;
    var fields := map["language" := language, "mirror_url" := At(repo, ["mirrorUrl"]),
                      "archived" := At(repo, ["isArchived"]), "license" := license,
                      "default_branch" := defaultBranch, "organization" := organization];
    assert fields.Keys == ExtraKeys;
    var extras := Compact(fields);
    assert Copied(extras, "license", license) && Copied(extras, "organization", organization);
  }

  /** Reads the remaining fields, in the source's order. */
  method ReadExtras(repo: Js) returns (r: Result<Record>)
    ensures r.Success? <==>
      Readable(repo) && Readable(At(repo, ["primaryLanguage"])) && Readable(At(repo, ["defaultBranchRef"]))
      && Readable(At(repo, ["owner"]))
    ensures r.Success? ==> ExtraFields(r.value, repo) && r.value.Keys <= ExtraKeys
  {
    var language :- Read2(repo, "primaryLanguage", "name");
    // Once one property of `repo` has been read, reading another cannot throw.
    var mirror := At(repo, ["mirrorUrl"]);
    var archived := At(repo, ["isArchived"]);
    var license := ReadLicense(At(repo, ["licenseInfo"]));
    var defaultBranch :- Read2(repo, "defaultBranchRef", "name");
    var ownerType :- Read2(repo, "owner", "__typename");
    var organization: Js := if ownerType == Some(Str("Organization")) then Some(Obj(map[])) else None;
    ExtrasAssembled(repo, language, license, defaultBranch, ownerType);
    return Success(Compact(map["language" := language, "mirror_url" := mirror, "archived" := archived,
                               "license" := license, "default_branch" := defaultBranch,
                               "organization" := organization]));
  }

  lemma NamesApartFromLinks() ensures NameKeys !! LinkKeys {}
  lemma NamesApartFromDates() ensures NameKeys !! DateKeys {}
  lemma LinksApartFromDates() ensures LinkKeys !! DateKeys {}
  lemma NamesApartFromExtras() ensures NameKeys !! ExtraKeys {}
  lemma LinksApartFromExtras() ensures LinkKeys !! ExtraKeys {}
  lemma DatesApartFromExtras() ensures DateKeys !! ExtraKeys {}

  lemma NamesLinksMerge(names: Record, links: Record)
    requires links.Keys <= LinkKeys
    ensures forall k :: k in NameKeys ==> (k in names + links <==> k in names) && (k in names ==> (names + links)[k] == names[k])
  {
    NamesApartFromLinks();
    MergeKeeps(names, links, NameKeys);
  }

  /** The groups of fields keep their values in the assembled record. */
  lemma RepoGroupsMerge(names: Record, dates: Record, extras: Record, repo: Js,
                        iso: Value -> Option<Value>, toString: Value -> string)
    requires NameFields(names, repo) && LinkFields(names, repo, toString) && names.Keys <= NameKeys + LinkKeys
    requires DateFields(dates, repo, iso) && dates.Keys <= DateKeys
    requires ExtraFields(extras, repo) && extras.Keys <= ExtraKeys
    ensures RepoFields(names + dates + extras, repo, iso, toString)
  {
    NamesApartFromDates();
    LinksApartFromDates();
    MergeKeeps(names, dates, NameKeys + LinkKeys);
    NamesApartFromExtras();
    LinksApartFromExtras();
    DatesApartFromExtras();
    MergeKeeps(names + dates, extras, NameKeys + LinkKeys + DateKeys);
  }

  /** The REST repository record built from a GraphQL reply, or its error code. */
  method Repo(fullName: string, gateway: Record -> Js, iso: Value -> Option<Value>,
              toString: Value -> string)
    returns (r: Result<Reply>)
    ensures var reply := gateway(RepoVariables(fullName));
      (CheckResponse(reply).Failure? ==> r.Failure?)
      && (CheckResponse(reply).Success? && CheckResponse(reply).value.Some? ==>
            r == Success(Code(CheckResponse(reply).value.value)))
      && (r.Success? && r.value.Body? ==>
            CheckResponse(reply) == Success(None) && Path(reply, RepoPath).Success?
            && RepoFields(r.value.rec, Path(reply, RepoPath).value, iso, toString))
    ensures var reply := gateway(RepoVariables(fullName));
      r.Success? && r.value.Body? <==>
        CheckResponse(reply) == Success(None) && Path(reply, RepoPath).Success?
        && RepoReadable(Path(reply, RepoPath).value, iso)
    ensures r.Success? && r.value.Body? ==> r.value.rec.Keys <= NameKeys + LinkKeys + DateKeys + ExtraKeys
  {
    var reply := gateway(RepoVariables(fullName));
    var err :- CheckResponse(reply);
    if err.Some? {
      return Success(Code(err.value));
    }
    var repo :- Path(reply, RepoPath);
    var names :- ReadNames(repo, toString);
    var dates :- ReadDates(repo, iso);
    var extras :- ReadExtras(repo);
    RepoGroupsMerge(names, dates, extras, repo, iso, toString);
    return Success(Body(names + dates + extras));
  }
}
