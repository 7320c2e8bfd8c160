/** JSON values as the three services see them once decoded by Python:
    null, booleans, numbers, strings, lists and dicts, together with the
    Python operations the services apply to them (truthiness, `or`, `==`,
    `dict.get` and `str()`). */
module Values {
  import opened Text

  datatype Option<T> = None | Some(value: T)

  datatype Json =
    | JNull
    | JBool(b: bool)
    | JNum(n: int)
    | JStr(s: string)
    | JArr(items: seq<Json>)
    | JObj(fields: map<string, Json>)

  /** A Python dict decoded from a JSON object. */
  type Dict = map<string, Json>

  /** Python's `bool(x)`: None, False, 0, "", [] and {} are false. */
  predicate Truthy(j: Json) {
    match j
    case JNull => false
    case JBool(b) => b
    case JNum(n) => n != 0
    case JStr(s) => s != ""
    case JArr(xs) => xs != []
    case JObj(m) => m != map[]
  }

  /** `d.get(k)`: the value under `k`, or None. */
  function Get(d: Dict, k: string): Json {
    if k in d then d[k] else JNull
  }

  /** `d.get(k, default)`. */
  function GetOr(d: Dict, k: string, default: Json): Json {
    if k in d then d[k] else default
  }

  /** Python's `a or b`: the first operand when it is truthy, else the second. */
  function Or(a: Json, b: Json): (r: Json)
    ensures Truthy(r) <==> Truthy(a) || Truthy(b)
  {
    if Truthy(a) then a else b
  }

  /** Python's `a == b` on decoded JSON: `True == 1` and `False == 0` hold. */
  predicate PyEq(a: Json, b: Json) {
    match (a, b)
    case (JBool(x), JNum(n)) => n == (if x then 1 else 0)
    case (JNum(n), JBool(x)) => n == (if x then 1 else 0)
    case _ => a == b
  }

  /** The first index at or after `k` whose element satisfies `p`. */
  function FirstFrom<T>(xs: seq<T>, p: T -> bool, k: nat): (r: Option<nat>)
    ensures r.Some? ==> k <= r.value < |xs| && p(xs[r.value])
    decreases |xs| - k
  {
    if k >= |xs| then None
    else if p(xs[k]) then Some(k)
    else FirstFrom(xs, p, k + 1)
  }

  /** The first index whose element satisfies `p`, as `next(...)` over an
      enumeration finds it. */
  function FirstIndex<T>(xs: seq<T>, p: T -> bool): (r: Option<nat>)
    ensures r.Some? ==> r.value < |xs| && p(xs[r.value])
  {
    FirstFrom(xs, p, 0)
  }

  /** The search from `k` passes over elements that fail `p` only, and finds
      nothing exactly when every element from `k` on fails. */
  lemma {:induction false} FirstFromSkips<T>(xs: seq<T>, p: T -> bool, k: nat)
    ensures FirstFrom(xs, p, k).Some? ==> forall j :: k <= j < FirstFrom(xs, p, k).value ==> !p(xs[j])
    ensures FirstFrom(xs, p, k).None? ==> forall j :: k <= j < |xs| ==> !p(xs[j])
    decreases |xs| - k
  {
    if k < |xs| && !p(xs[k]) {
      FirstFromSkips(xs, p, k + 1);
    }
  }

  /** `FirstIndex` answers the first satisfying element, and nothing exactly
      when no element satisfies `p`. */
  lemma FirstIndexFirst<T>(xs: seq<T>, p: T -> bool)
    ensures FirstIndex(xs, p).Some? ==> forall j :: 0 <= j < FirstIndex(xs, p).value ==> !p(xs[j])
    ensures FirstIndex(xs, p).None? ==> forall j :: 0 <= j < |xs| ==> !p(xs[j])
  {
    FirstFromSkips(xs, p, 0);
  }

  /** The concatenation of `f(x)` over the elements `x` of `xs`, in order:
      a comprehension that keeps, for each element, zero or more results. */
  function FlatMap<A, B>(xs: seq<A>, f: A -> seq<B>): seq<B> {
    if xs == [] then [] else FlatMap(xs[..|xs| - 1], f) + f(xs[|xs| - 1])
  }

  /** The comprehension distributes over concatenation: it works element by
      element and keeps the input's order. */
  lemma {:induction false} FlatMapConcat<A, B>(a: seq<A>, b: seq<A>, f: A -> seq<B>)
    ensures FlatMap(a + b, f) == FlatMap(a, f) + FlatMap(b, f)
  {
    if b == [] {
      assert a + b == a;
    } else {
      var b' := b[..|b| - 1];
      FlatMapConcat(a, b', f);
      assert (a + b)[..|a + b| - 1] == a + b';
      assert (a + b)[|a + b| - 1] == b[|b| - 1];
    }
  }

  lemma {:induction false} FlatMapMembers<A, B>(xs: seq<A>, f: A -> seq<B>, y: B)
    ensures y in FlatMap(xs, f) <==> exists i :: 0 <= i < |xs| && y in f(xs[i])
  {
    if xs != [] {
      var init := xs[..|xs| - 1];
      FlatMapMembers(init, f, y);
      if y in FlatMap(init, f) {
        var i :| 0 <= i < |init| && y in f(init[i]);
        assert xs[i] == init[i];
      }
      if exists i :: 0 <= i < |xs| && y in f(xs[i]) {
        var i :| 0 <= i < |xs| && y in f(xs[i]);
        if i < |init| {
          assert init[i] == xs[i];
        }
      }
    }
  }

  /** Python's `str(x)`. Lists are rendered as Python renders them; a
      non-empty dict is rendered as `{...}`. */
  function Str(j: Json): string
    decreases j, 0
  {
    match j
    case JNull => "None"
    case JBool(b) => if b then "True" else "False"
    case JNum(n) => IntToString(n)
    case JStr(s) => s
    case JArr(xs) => "[" + Join(", ", seq(|xs|, i requires 0 <= i < |xs| => Repr(xs[i]))) + "]"
    case JObj(m) => if m == map[] then "{}" else "{...}"
  }

  /** Python's `repr(x)` as used inside the rendering of a list. */
  function Repr(j: Json): string
    decreases j, 1
  {
    if j.JStr? then "'" + j.s + "'" else Str(j)
  }
}
