/** The read pipeline of the data plane (`resource_server.py`): the visible
    projections of a document, filtered by `search_match`, ordered by
    `sort_users`, then either cut into a page by `paginate` or written out as
    CSV rows. */
module Query {
  import opened Text
  import opened Values
  import opened Visibility

  // ---------------------------------------------------------------- paginate

  /** `max(1, int(page or 1))` for an integer page. */
  function EffectivePage(page: int): (p: int)
    ensures p >= 1
    ensures page >= 1 ==> p == page
    ensures page < 1 ==> p == 1
  {
    var p0 := if page == 0 then 1 else page;
    if p0 < 1 then 1 else p0
  }

  /** `max(1, min(int(size or 25), 200))` for an integer size: a size of 0
      means the default 25, anything else is clamped to [1, 200]. */
  function EffectiveSize(size: int): (s: int)
    ensures 1 <= s <= 200
    ensures size == 0 ==> s == 25
    ensures 1 <= size <= 200 ==> s == size
    ensures size < 0 ==> s == 1
    ensures size > 200 ==> s == 200
  {
    var s0 := if size == 0 then 25 else size;
    var s1 := if s0 < 200 then s0 else 200;
    if s1 < 1 then 1 else s1
  }

  function Min(a: int, b: int): int {
    if a < b then a else b
  }

  /** The index of the first item of a page: `(page - 1) * size`. */
  function PageStart(page: int, size: int): nat {
    var k: nat := EffectivePage(page) - 1;
    k * EffectiveSize(size)
  }

  /** The first page starts at the first item, every page below 1 is the
      first page, and each page starts where the one before it ends. */
  lemma PagesAbut(page: int, size: int)
    ensures PageStart(1, size) == 0
    ensures page < 1 ==> PageStart(page, size) == PageStart(1, size)
    ensures page >= 1 ==> PageStart(page + 1, size) == PageStart(page, size) + EffectiveSize(size)
  {
  }

  /** `paginate(items, page, size)`: the page and the total count. */
  function Paginate<T>(items: seq<T>, page: int, size: int): (r: (seq<T>, nat))
    ensures r.1 == |items|
    ensures |r.0| <= EffectiveSize(size)
    ensures r.0 == [] <==> PageStart(page, size) >= |items|
    ensures forall i :: 0 <= i < |r.0| ==>
      PageStart(page, size) + i < |items| && r.0[i] == items[PageStart(page, size) + i]
    ensures PageStart(page, size) + EffectiveSize(size) <= |items| ==> |r.0| == EffectiveSize(size)
  {
    var start := PageStart(page, size);
    var end := start + EffectiveSize(size);
    (items[Min(start, |items|)..Min(end, |items|)], |items|)
  }

  /** Pages 1 to k of the same size, one after the other. */
  function PagesUpTo<T>(items: seq<T>, size: int, k: nat): seq<T> {
    if k == 0 then [] else PagesUpTo(items, size, k - 1) + Paginate(items, k, size).0
  }

  /** The first k pages are exactly the first k * size items. */
  lemma {:induction false} PagesConcatenate<T>(items: seq<T>, size: int, k: nat)
    ensures PagesUpTo(items, size, k) == items[..Min(k * EffectiveSize(size), |items|)]
  {
    if k > 0 {
      var s := EffectiveSize(size);
      PagesConcatenate(items, size, k - 1);
      assert PageStart(k, size) == (k - 1) * s;
      assert (k - 1) * s + s == k * s;
      var lo, hi := Min((k - 1) * s, |items|), Min(k * s, |items|);
      assert Paginate(items, k, size).0 == items[lo..hi];
      assert items[..lo] + items[lo..hi] == items[..hi];
    }
  }

  /** Paging through as many pages as it takes to cover the total count
      reproduces the items, each once and in order. */
  lemma AllPagesReproduceItems<T>(items: seq<T>, size: int, k: nat)
    requires k * EffectiveSize(size) >= |items|
    ensures PagesUpTo(items, size, k) == items
  {
    PagesConcatenate(items, size, k);
  }

  // ------------------------------------------------------------------ sort

  /** `a` comes strictly before `b`: ascending, or descending when `desc`. */
  predicate Before(a: string, b: string, desc: bool) {
    if desc then LexLess(b, a) else LexLess(a, b)
  }

  lemma NotBeforeTransitive(a: string, b: string, c: string, desc: bool)
    requires !Before(a, b, desc) && !Before(b, c, desc)
    ensures !Before(a, c, desc)
  {
    LexLessTotal(a, b);
    if desc {
      if LexLess(c, a) && LexLess(a, b) { LexLessTransitive(c, a, b); }
    } else {
      if LexLess(a, c) && LexLess(b, a) { LexLessTransitive(b, a, c); }
    }
  }

  lemma BeforeAsymmetric(a: string, b: string, desc: bool)
    requires Before(a, b, desc)
    ensures !Before(b, a, desc) && a != b
  {
    if desc { LexLessAsymmetric(b, a); LexLessIrreflexive(a); }
    else { LexLessAsymmetric(a, b); LexLessIrreflexive(a); }
  }

  /** Inserts `x` after every element that sorts strictly before it and before
      the first that does not, so equal keys keep their input order. */
  function Insert<T>(x: T, s: seq<T>, key: T -> string, desc: bool): (r: seq<T>)
    ensures multiset(r) == multiset(s) + multiset{x}
  {
    if s == [] then [x]
    else
      assert s == [s[0]] + s[1..];
      if Before(key(s[0]), key(x), desc) then [s[0]] + Insert(x, s[1..], key, desc)
      else [x] + s
  }

  /** Python's `sorted(xs, key=key, reverse=desc)`, as an insertion sort. */
  function SortBy<T>(xs: seq<T>, key: T -> string, desc: bool): seq<T> {
    if xs == [] then [] else Insert(xs[0], SortBy(xs[1..], key, desc), key, desc)
  }

  predicate SortedBy<T>(s: seq<T>, key: T -> string, desc: bool) {
    forall i, j :: 0 <= i < j < |s| ==> !Before(key(s[j]), key(s[i]), desc)
  }

  /** The elements of `s` whose key is `k`, in order. */
  function WithKey<T>(s: seq<T>, key: T -> string, k: string): seq<T> {
    if s == [] then [] else (if key(s[0]) == k then [s[0]] else []) + WithKey(s[1..], key, k)
  }

  lemma {:induction false} InsertSorted<T>(x: T, s: seq<T>, key: T -> string, desc: bool)
    requires SortedBy(s, key, desc)
    ensures SortedBy(Insert(x, s, key, desc), key, desc)
  {
    var r := Insert(x, s, key, desc);
    if s != [] {
      if Before(key(s[0]), key(x), desc) {
        var tail := Insert(x, s[1..], key, desc);
        InsertSorted(x, s[1..], key, desc);
        BeforeAsymmetric(key(s[0]), key(x), desc);
        forall j | 0 <= j < |tail|
          ensures !Before(key(tail[j]), key(s[0]), desc)
        {
          assert tail[j] in multiset(tail);
          if tail[j] != x {
            assert tail[j] in multiset(s[1..]);
            var m :| 0 <= m < |s[1..]| && s[1..][m] == tail[j];
            assert s[m + 1] == tail[j];
          }
        }
        assert r == [s[0]] + tail;
      } else {
        forall j | 0 <= j < |s|
          ensures !Before(key(s[j]), key(x), desc)
        {
          if j > 0 {
            NotBeforeTransitive(key(s[j]), key(s[0]), key(x), desc);
          }
        }
        assert r == [x] + s;
      }
    }
  }

  lemma WithKeyCons<T>(y: T, t: seq<T>, key: T -> string, k: string)
    ensures WithKey([y] + t, key, k) == (if key(y) == k then [y] else []) + WithKey(t, key, k)
  {
    assert ([y] + t)[1..] == t;
  }

  /** Two elements of which one sorts strictly before the other cannot both
      carry the key `k`, so they commute under `WithKey`. */
  lemma WithKeySwap<T>(y: T, x: T, t: seq<T>, key: T -> string, desc: bool, k: string)
    requires Before(key(y), key(x), desc)
    ensures (if key(y) == k then [y] else []) + ((if key(x) == k then [x] else []) + WithKey(t, key, k))
         == (if key(x) == k then [x] else []) + ((if key(y) == k then [y] else []) + WithKey(t, key, k))
  {
    BeforeAsymmetric(key(y), key(x), desc);
  }

  lemma {:induction false} InsertWithKey<T>(x: T, s: seq<T>, key: T -> string, desc: bool, k: string)
    ensures WithKey(Insert(x, s, key, desc), key, k) ==
      (if key(x) == k then [x] else []) + WithKey(s, key, k)
  {
    if s == [] {
      WithKeyCons(x, [], key, k);
    } else if Before(key(s[0]), key(x), desc) {
      var tail := Insert(x, s[1..], key, desc);
      assert Insert(x, s, key, desc) == [s[0]] + tail;
      InsertWithKey(x, s[1..], key, desc, k);
      WithKeyCons(s[0], tail, key, k);
      assert [s[0]] + s[1..] == s;
      WithKeyCons(s[0], s[1..], key, k);
      WithKeySwap(s[0], x, s[1..], key, desc, k);
    } else {
      assert Insert(x, s, key, desc) == [x] + s;
      WithKeyCons(x, s, key, k);
    }
  }

  /** `SortBy` returns a permutation of its input, ordered by key, in which
      elements with equal keys keep their input order (stability). */
  lemma {:induction false} SortByCorrect<T>(xs: seq<T>, key: T -> string, desc: bool)
    ensures multiset(SortBy(xs, key, desc)) == multiset(xs)
    ensures SortedBy(SortBy(xs, key, desc), key, desc)
    ensures forall k :: WithKey(SortBy(xs, key, desc), key, k) == WithKey(xs, key, k)
  {
    if xs != [] {
      SortByCorrect(xs[1..], key, desc);
      InsertSorted(xs[0], SortBy(xs[1..], key, desc), key, desc);
      assert xs == [xs[0]] + xs[1..];
      forall k {
        InsertWithKey(xs[0], SortBy(xs[1..], key, desc), key, desc, k);
      }
    }
  }

  /** `p.get(name, "")` on a projected record. */
  function Field(p: Projection, name: string): Json {
    if name == "nome" then p.nome
    else if name == "cognome" then p.cognome
    else if name == "CF" then p.cf
    else if name == "ruoli" then JArr(p.ruoli)
    else JStr("")
  }

  /** The sort key `str(u.get(key, "")).lower()`. */
  function SortKey(p: Projection, name: string): string {
    Lower(Str(Field(p, name)))
  }

  /** `sort_users(users, sort)` for a sort parameter that is a string (an
      absent or falsy one is ""): the field is the parameter without its
      leading dashes, and a leading dash means descending. */
  function SortUsers(users: seq<Projection>, sort: string): seq<Projection> {
    if sort == "" then users
    else SortBy(users, p => SortKey(p, LStripDash(sort)), sort[0] == '-')
  }

  /** Without a sort key the order is untouched; with one the result is a
      permutation ordered by the lower-cased field, descending iff the key
      starts with "-", equal keys in input order. */
  lemma SortUsersSpec(users: seq<Projection>, sort: string)
    ensures sort == "" ==> SortUsers(users, sort) == users
    ensures multiset(SortUsers(users, sort)) == multiset(users)
    ensures sort != "" ==>
      var key := (p: Projection) => SortKey(p, LStripDash(sort));
      && SortedBy(SortUsers(users, sort), key, sort[0] == '-')
      && forall k :: WithKey(SortUsers(users, sort), key, k) == WithKey(users, key, k)
  {
    if sort != "" {
      SortByCorrect(users, p => SortKey(p, LStripDash(sort)), sort[0] == '-');
    }
  }

  // ---------------------------------------------------------------- search

  /** `search_match(u, q)` for a query that is a string (an absent or falsy
      one is ""): the stripped, lower-cased query occurs in the lower-cased
      `str()` of nome, cognome or CF. */
  predicate SearchMatch(p: Projection, q: string) {
    if q == "" then true
    else
      var needle := Lower(Strip(q));
      Contains(Lower(Str(Field(p, "nome"))), needle)
      || Contains(Lower(Str(Field(p, "cognome"))), needle)
      || Contains(Lower(Str(Field(p, "CF"))), needle)
  }

  lemma {:induction false} TrimLeftUpper(s: string)
    ensures TrimLeft(Upper(s)) == Upper(TrimLeft(s))
  {
    if |s| > 0 {
      assert Upper(s)[1..] == Upper(s[1..]);
      if IsSpace(s[0]) {
        TrimLeftUpper(s[1..]);
      }
    }
  }

  lemma {:induction false} TrimRightUpper(s: string)
    ensures TrimRight(Upper(s)) == Upper(TrimRight(s))
  {
    if |s| > 0 {
      assert Upper(s)[..|s| - 1] == Upper(s[..|s| - 1]);
      if IsSpace(s[|s| - 1]) {
        TrimRightUpper(s[..|s| - 1]);
      }
    }
  }

  lemma LowerOfUpper(t: string)
    ensures Lower(Upper(t)) == Lower(t)
  {
    forall i | 0 <= i < |t|
      ensures Lower(Upper(t))[i] == Lower(t)[i]
    {
      assert LowerChar(UpperChar(t[i])) == LowerChar(t[i]);
    }
  }

  /** The query is compared case-insensitively: upper-casing it changes no
      match. */
  lemma SearchIgnoresCase(p: Projection, q: string)
    ensures SearchMatch(p, Upper(q)) == SearchMatch(p, q)
  {
    TrimLeftUpper(q);
    TrimRightUpper(TrimLeft(q));
    var t := Strip(q);
    assert Strip(Upper(q)) == Upper(t);
    LowerOfUpper(t);
    assert Upper(q) == "" <==> q == "";
  }

  // --------------------------------------------------------------- listing

  /** What one raw user contributes to the listing: its projection, if any. */
  function VisibleOne(u: Dict, doc: Enrollment): seq<Projection> {
    match ProjectVisible(u, doc)
    case None => []
    case Some(p) => [p]
  }

  /** `[p for u in raw_users if (p := project_visible(u, doc))]`. */
  function VisibleUsers(users: seq<Dict>, doc: Enrollment): seq<Projection> {
    FlatMap(users, u => VisibleOne(u, doc))
  }

  /** `[u for u in visible if search_match(u, q)]`. */
  function Matching(ps: seq<Projection>, q: string): (r: seq<Projection>)
    ensures |r| <= |ps|
  {
    if ps == [] then []
    else Matching(ps[..|ps| - 1], q) + (if SearchMatch(ps[|ps| - 1], q) then [ps[|ps| - 1]] else [])
  }

  /** The users a read, search or export returns, before paging. */
  function Listing(doc: Enrollment, q: string, sort: string): seq<Projection> {
    SortUsers(Matching(VisibleUsers(doc.utenti, doc), q), sort)
  }

  lemma {:induction false} MatchingMembers(ps: seq<Projection>, q: string, p: Projection)
    ensures p in Matching(ps, q) <==> p in ps && SearchMatch(p, q)
  {
    if ps != [] {
      var init := ps[..|ps| - 1];
      MatchingMembers(init, q, p);
      assert ps == init + [ps[|ps| - 1]];
    }
  }

  /** The filter keeps a single user exactly when it matches. */
  lemma MatchingOne(p: Projection, q: string)
    ensures Matching([p], q) == if SearchMatch(p, q) then [p] else []
  {
    assert [p][..0] == [];
  }

  /** The filter works element by element and keeps the input's order: on
      a concatenation it is the concatenation of the filtered parts. With
      MatchingOne this determines the filter. */
  lemma {:induction false} MatchingConcat(a: seq<Projection>, b: seq<Projection>, q: string)
    ensures Matching(a + b, q) == Matching(a, q) + Matching(b, q)
  {
    if b == [] {
      assert a + b == a;
    } else {
      var b' := b[..|b| - 1];
      MatchingConcat(a, b', q);
      assert (a + b)[..|a + b| - 1] == a + b';
      assert (a + b)[|a + b| - 1] == b[|b| - 1];
    }
  }

  /** The comprehension over raw users keeps the document's order: on a
      concatenation of users it is the concatenation of the parts. */
  lemma VisibleUsersConcat(a: seq<Dict>, b: seq<Dict>, doc: Enrollment)
    ensures VisibleUsers(a + b, doc) == VisibleUsers(a, doc) + VisibleUsers(b, doc)
  {
    FlatMapConcat(a, b, u => VisibleOne(u, doc));
  }

  /** Without a sort key the listing is the matching visible users in
      document order. */
  lemma ListingUnsorted(doc: Enrollment, q: string)
    ensures Listing(doc, q, "") == Matching(VisibleUsers(doc.utenti, doc), q)
  {
    SortUsersSpec(Matching(VisibleUsers(doc.utenti, doc), q), "");
  }

  /** A record is listed exactly when it is the projection of some visible
      user of the document and it matches the query; the listing is in
      `sort_users` order. */
  lemma ListingMembers(doc: Enrollment, q: string, sort: string, p: Projection)
    ensures p in Listing(doc, q, sort) <==>
      SearchMatch(p, q) && exists i :: 0 <= i < |doc.utenti| && ProjectVisible(doc.utenti[i], doc) == Some(p)
  {
    var ms := Matching(VisibleUsers(doc.utenti, doc), q);
    SortUsersSpec(ms, sort);
    assert p in Listing(doc, q, sort) <==> p in multiset(ms);
    MatchingMembers(VisibleUsers(doc.utenti, doc), q, p);
    FlatMapMembers(doc.utenti, u => VisibleOne(u, doc), p);
    assert forall i :: 0 <= i < |doc.utenti| ==>
      (p in VisibleOne(doc.utenti[i], doc) <==> ProjectVisible(doc.utenti[i], doc) == Some(p));
  }

  // ---------------------------------------------------------------- export

  const CsvHeader: seq<string> := ["nome", "cognome", "CF", "ruoli"]

  /** How `csv.writer` writes one field: None as "", anything else as `str()`. */
  function CsvField(j: Json): string {
    if j == JNull then "" else Str(j)
  }

  /** `"|".join(roles)`; None when some role is not a string (a TypeError). */
  function JoinRoles(roles: seq<Json>): (r: Option<string>)
    ensures r.Some? <==> forall i :: 0 <= i < |roles| ==> roles[i].JStr?
  {
    if forall i :: 0 <= i < |roles| ==> roles[i].JStr? then
      Some(Join("|", seq(|roles|, i requires 0 <= i < |roles| && roles[i].JStr? => roles[i].s)))
    else None
  }

  function CsvRow(p: Projection): Option<seq<string>> {
    match JoinRoles(p.ruoli)
    case None => None
    case Some(roles) => Some([CsvField(p.nome), CsvField(p.cognome), CsvField(p.cf), roles])
  }

  /** The rows `export_users` writes: the header, then one row per listed
      user, unpaginated; None when writing some row raises. */
  function ExportRows(ps: seq<Projection>): (r: Option<seq<seq<string>>>)
    ensures r.Some? <==> forall i :: 0 <= i < |ps| ==> CsvRow(ps[i]).Some?
    ensures r.Some? ==>
      && |r.value| == |ps| + 1 && r.value[0] == CsvHeader
      && forall i :: 0 <= i < |ps| ==> r.value[i + 1] == CsvRow(ps[i]).value
  {
    if ps == [] then Some([CsvHeader])
    else
      match ExportRows(ps[..|ps| - 1])
      case None => None
      case Some(rows) =>
        match CsvRow(ps[|ps| - 1])
        case None => None
        case Some(row) => Some(rows + [row])
  }
}
