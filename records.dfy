/** JSON values and the flat records (one JSON file each) that the crawl scripts read, mutate
    in place and write back. Shared by every script of the crawler. */
module Records {

  datatype Option<+T> = None | Some(value: T)

  /** A thrown exception is a Failure; it aborts the whole script. */
  datatype Result<+T> = Success(value: T) | Failure(error: string) {
    predicate IsFailure() { Failure? }
    function PropagateFailure<U>(): Result<U>
      requires Failure?
    {
      Failure(error)
    }
    function Extract(): T
      requires Success?
    {
      value
    }
  }

  /** A decoded JSON value. The scripts store timestamps as ISO-8601 strings; here they are kept
      as milliseconds since the epoch (`Time`), so date arithmetic is integer arithmetic. */
  datatype Value =
    | Null
    | Bool(b: bool)
    | Num(n: int)
    | Time(ms: int)
    | Str(s: string)
    | Arr(items: seq<Value>)
    | Obj(fields: map<string, Value>)

  /** One on-disk record: its fields. A missing key is JavaScript's `undefined`. */
  type Record = map<string, Value>

  /** A network reply as the gateway hands it to a script: a decoded payload, or the HTTP status
      of an error response. */
  datatype Response = Payload(body: Record) | Status(code: int)

  /** Page size of every paginated REST listing the scripts read. */
  const PerPage := 100

  /** JavaScript truthiness. A timestamp is a non-empty ISO string, hence truthy. */
  predicate Truthy(v: Value)
  {
    match v
    case Null => false
    case Bool(b) => b
    case Num(n) => n != 0
    case Time(_) => true
    case Str(s) => s != ""
    case Arr(_) => true
    case Obj(_) => true
  }

  /** `if (r.f)` */
  predicate Has(r: Record, f: string)
  {
    f in r && Truthy(r[f])
  }

  /** `r.f` where a missing field reads as `null`. */
  function Field(r: Record, f: string): Value
  {
    if f in r then r[f] else Null
  }

  /** `Date.parse(r.f)`; `None` is NaN. Only a stored timestamp parses. */
  function ParseTime(r: Record, f: string): Option<int>
  {
    if f in r && r[f].Time? then Some(r[f].ms) else None
  }

  /** `new Date(r.f)`; `None` is an invalid date (every comparison with it is false). */
  function DateOf(r: Record, f: string): Option<int>
  {
    if f !in r then None
    else match r[f]
      case Time(ms) => Some(ms)
      case Null => Some(0)
      case Num(n) => Some(n)
      case _ => None
  }

  /** `new Date(r.a) > new Date(r.b)` */
  predicate Later(r: Record, a: string, b: string)
  {
    DateOf(r, a).Some? && DateOf(r, b).Some? && DateOf(r, a).value > DateOf(r, b).value
  }

  /** `a` and `b` agree on every key except `f`. */
  ghost predicate OnlyChanged(a: Record, b: Record, f: string)
  {
    forall k :: k != f ==> (k in a <==> k in b) && (k in a ==> a[k] == b[k])
  }

  /** `r` after `delete r[f]` for every `f` of `fields`. */
  function Pruned(r: Record, fields: set<string>): (res: Record)
    ensures forall f :: f in fields ==> f !in res
    ensures forall k :: k in r && k !in fields ==> k in res && res[k] == r[k]
    ensures res.Keys <= r.Keys
  {
    map k | k in r && k !in fields :: r[k]
  }

  /** The deletion loop the scripts use to keep the database small. The order of the deletions
      does not matter. */
  method DeleteFields(r: Record, fields: set<string>) returns (res: Record)
    ensures res == Pruned(r, fields)
  {
    res := r;
    var todo := fields;
    while todo != {}
      invariant todo <= fields
      invariant res.Keys <= r.Keys
      invariant forall k :: k in res ==> res[k] == r[k]
      invariant forall k :: k in r ==> (k in res <==> k !in fields - todo)
      decreases todo
    {
      var f :| f in todo;
      res := res - {f};
      todo := todo - {f};
    }
  }

  predicate NoDups<T(==)>(s: seq<T>)
  {
    forall i, j :: 0 <= i < j < |s| ==> s[i] != s[j]
  }

  /** `xs` after pushing each element of `ys` that `indexOf` does not find. This is also the
      iteration order of a JavaScript `Set` built from `xs` and then `ys`. */
  function AppendNew<T(==)>(xs: seq<T>, ys: seq<T>): seq<T>
    decreases |ys|
  {
    if ys == [] then xs
    else AppendNew(if ys[0] in xs then xs else xs + [ys[0]], ys[1..])
  }

  /** Existing elements keep their positions, nothing is lost, only absent elements are
      appended, and no duplicate is introduced. */
  lemma {:induction false} AppendNewSpec<T>(xs: seq<T>, ys: seq<T>)
    ensures |AppendNew(xs, ys)| >= |xs| && AppendNew(xs, ys)[..|xs|] == xs
    ensures forall x :: x in AppendNew(xs, ys) <==> x in xs || x in ys
    ensures forall i :: |xs| <= i < |AppendNew(xs, ys)| ==> AppendNew(xs, ys)[i] !in AppendNew(xs, ys)[..i]
    ensures NoDups(xs) ==> NoDups(AppendNew(xs, ys))
    decreases |ys|
  {
    if ys != [] {
      var xs' := if ys[0] in xs then xs else xs + [ys[0]];
      AppendNewSpec(xs', ys[1..]);
      var r := AppendNew(xs, ys);
      assert r == AppendNew(xs', ys[1..]);
      assert r[..|xs'|] == xs';
      assert r[..|xs|] == xs'[..|xs|] == xs;
      forall x
        ensures x in r <==> x in xs || x in ys
      {
        assert x in ys <==> x == ys[0] || x in ys[1..];
      }
      forall i | |xs| <= i < |r|
        ensures r[i] !in r[..i]
      {
        if i == |xs| && xs' != xs {
          assert r[..i] == xs;
          assert r[i] == xs'[|xs|] == ys[0];
        }
      }
      if NoDups(xs) {
        assert NoDups(xs');
      }
    }
  }

  /** Pushing one more element: it is appended exactly when it is not already there. */
  lemma {:induction false} AppendNewSnoc<T>(xs: seq<T>, ys: seq<T>, y: T)
    ensures AppendNew(xs, ys + [y])
         == if y in AppendNew(xs, ys) then AppendNew(xs, ys) else AppendNew(xs, ys) + [y]
    decreases |ys|
  {
    if ys == [] {
      assert [y][1..] == [];
    } else {
      var xs' := if ys[0] in xs then xs else xs + [ys[0]];
      assert (ys + [y])[0] == ys[0] && (ys + [y])[1..] == ys[1..] + [y];
      AppendNewSnoc(xs', ys[1..], y);
    }
  }

  /** Pushing two lists one after the other is pushing their concatenation. */
  lemma {:induction false} AppendNewConcat<T>(xs: seq<T>, ys: seq<T>, zs: seq<T>)
    ensures AppendNew(AppendNew(xs, ys), zs) == AppendNew(xs, ys + zs)
    decreases |ys|
  {
    if ys != [] {
      var xs' := if ys[0] in xs then xs else xs + [ys[0]];
      assert (ys + zs)[0] == ys[0] && (ys + zs)[1..] == ys[1..] + zs;
      AppendNewConcat(xs', ys[1..], zs);
    } else {
      assert ys + zs == zs;
    }
  }

  /** The `indexOf`/`push` loop the scripts use to grow a list without duplicates. */
  method PushAbsent<T(==)>(xs: seq<T>, ys: seq<T>) returns (r: seq<T>)
    ensures r == AppendNew(xs, ys)
  {
    r := xs;
    for i := 0 to |ys|
      invariant r == AppendNew(xs, ys[..i])
    {
      AppendNewSnoc(xs, ys[..i], ys[i]);
      assert ys[..i + 1] == ys[..i] + [ys[i]];
      if ys[i] !in r {
        r := r + [ys[i]];
      }
    }
    assert ys[..|ys|] == ys;
  }

  /** Index of the first '/' in `s`. */
  function FirstSlash(s: string): (i: nat)
    requires '/' in s
    ensures i < |s| && s[i] == '/' && '/' !in s[..i]
  {
    if s[0] == '/' then 0
    else
      assert '/' in s[1..] by {
        var j :| 0 <= j < |s| && s[j] == '/';
        assert s[1..][j - 1] == '/';
      }
      var j := FirstSlash(s[1..]);
      assert s[..j + 1] == [s[0]] + s[1..][..j];
      j + 1
  }

  /** `s.split('/')` */
  function Split(s: string): (parts: seq<string>)
    ensures |parts| >= 1
    ensures forall p :: p in parts ==> '/' !in p
    decreases |s|
  {
    if '/' !in s then [s]
    else
      var i := FirstSlash(s);
      [s[..i]] + Split(s[i + 1..])
  }

  /** The parts joined back with '/'. */
  function Join(parts: seq<string>): string
    decreases |parts|
  {
    if |parts| <= 1 then (if parts == [] then "" else parts[0])
    else parts[0] + "/" + Join(parts[1..])
  }

  /** Splitting loses nothing: joining the parts gives the name back. */
  lemma {:induction false} SplitJoin(s: string)
    ensures Join(Split(s)) == s
    decreases |s|
  {
    if '/' in s {
      var i := FirstSlash(s);
      SplitJoin(s[i + 1..]);
      assert s == s[..i] + "/" + s[i + 1..];
    }
  }

  /** `fullName.split('/')[0]`: the text before the first '/'. */
  function OwnerOf(fullName: string): (owner: string)
    ensures owner <= fullName && '/' !in owner
    ensures |owner| < |fullName| ==> fullName[|owner|] == '/'
    ensures '/' !in fullName ==> owner == fullName
  {
    var i := if '/' in fullName then FirstSlash(fullName) else |fullName|;
    assert Split(fullName)[0] == fullName[..i];
    Split(fullName)[0]
  }

  /** An `owner/name` pair splits into exactly its two parts. */
  lemma SplitOwnerName(owner: string, name: string)
    requires '/' !in owner && '/' !in name
    ensures Split(owner + "/" + name) == [owner, name]
    ensures OwnerOf(owner + "/" + name) == owner
  {
    var s := owner + "/" + name;
    assert s[|owner|] == '/';
    var i := FirstSlash(s);
    assert s[..|owner|] == owner;
    assert i == |owner|;
    assert s[..i] == owner && s[i + 1..] == name;
  }

  /** Pages 1 to `n` of a paginated listing, concatenated. */
  function Concat<T>(pages: nat -> seq<T>, n: nat): seq<T>
  {
    if n == 0 then [] else Concat(pages, n - 1) + pages(n)
  }

  /** Page `k` is the first short page: every earlier page was full. */
  predicate StopsAt<T>(pages: nat -> seq<T>, k: nat)
  {
    1 <= k && |pages(k)| < PerPage && forall j :: 1 <= j < k ==> |pages(j)| >= PerPage
  }

  /** Later pages only add to the concatenation. */
  lemma {:induction false} ConcatGrows<T>(pages: nat -> seq<T>, m: nat, n: nat)
    requires m <= n
    ensures forall x :: x in Concat(pages, m) ==> x in Concat(pages, n)
    decreases n - m
  {
    if m < n {
      ConcatGrows(pages, m, n - 1);
    }
  }

  /** `${x}`: a value in a template string; `None` is undefined, and `toString` gives the text of
      anything that is neither null nor a string. */
  function Text(x: Option<Value>, toString: Value -> string): string
  {
    match x
    case None => "undefined"
    case Some(Null) => "null"
    case Some(Str(s)) => s
    case Some(v) => toString(v)
  }
}
