/** The JSON-like Python values that `SignatureParameter`s carry, Python's ordering of them,
    `sorted`, and `deep_sorted` (fireflower/utils.py). */
module Values {

  /** A Python value built from `None`, `bool`, `int`, `str`, lists, tuples and dicts
      with string keys (the shape of a decoded JSON document, plus the tuples that
      `deep_sorted` produces). */
  datatype Value =
    | Null
    | Bool(b: bool)
    | Int(i: int)
    | Str(s: string)
    | List(items: seq<Value>)
    | Tuple(items: seq<Value>)
    | Dict(entries: seq<Entry>)

  /** One `key: value` item of a dict, in insertion order. */
  datatype Entry = Entry(key: string, val: Value)

  /** Which ordering `sorted` uses. `PythonOrder` is Python's own: `True == 1`, so a bool
      and an int of equal numeric value compare equal. `TotalOrder` breaks that tie by
      putting the bool first, so that comparing equal means being the same value. */
  datatype Order = PythonOrder | TotalOrder

  // ----- ordering ------------------------------------------------------------------

  /** Values of different ranks are never compared by Python (it raises TypeError);
      the model orders them by rank instead. */
  function Rank(v: Value): nat
  {
    match v
    case Null => 0
    case Bool(_) => 1
    case Int(_) => 1
    case Str(_) => 2
    case List(_) => 3
    case Tuple(_) => 4
    case Dict(_) => 5
  }

  /** The numeric sort key of a bool or an int. */
  function NumKey(ord: Order, v: Value): int
    requires v.Bool? || v.Int?
  {
    var n := if v.Int? then v.i else if v.b then 1 else 0;
    match ord
    case PythonOrder => 2 * n
    case TotalOrder => 2 * n + (if v.Int? then 1 else 0)
  }

  function Sign(x: int, y: int): int
  {
    if x < y then -1 else if x == y then 0 else 1
  }

  /** Strings compare by code point, lexicographically. */
  function CmpStr(s: string, t: string): int
  {
    if |s| == 0 then (if |t| == 0 then 0 else -1)
    else if |t| == 0 then 1
    else if s[0] != t[0] then Sign(s[0] as int, t[0] as int)
    else CmpStr(s[1..], t[1..])
  }

  /** Three-way comparison: -1, 0 or 1. Lists and tuples compare lexicographically.
      Dicts are never compared (`deep_sorted` turns them into lists first). */
  function Cmp(ord: Order, a: Value, b: Value): int
    decreases a
  {
    if Rank(a) != Rank(b) then Sign(Rank(a), Rank(b))
    else if a.Bool? || a.Int? then Sign(NumKey(ord, a), NumKey(ord, b))
    else if a.Str? then CmpStr(a.s, b.s)
    else if a.List? || a.Tuple? then CmpSeq(ord, a.items, b.items)
    else 0
  }

  function CmpSeq(ord: Order, s: seq<Value>, t: seq<Value>): int
    decreases s
  {
    if |s| == 0 then (if |t| == 0 then 0 else -1)
    else if |t| == 0 then 1
    else
      var c := Cmp(ord, s[0], t[0]);
      if c != 0 then c else CmpSeq(ord, s[1..], t[1..])
  }

  /** A value holding no dict anywhere; everything `deep_sorted` returns is one. */
  predicate DictFree(v: Value)
  {
    match v
    case Dict(_) => false
    case List(xs) => forall k :: 0 <= k < |xs| ==> DictFree(xs[k])
    case Tuple(xs) => forall k :: 0 <= k < |xs| ==> DictFree(xs[k])
    case _ => true
  }

  // ----- properties of the ordering --------------------------------------------------

  lemma {:induction false} CmpStrAnti(s: string, t: string)
    ensures CmpStr(s, t) == -CmpStr(t, s)
    ensures CmpStr(s, t) == 0 ==> s == t
  {
    if |s| > 0 && |t| > 0 && s[0] == t[0] {
      CmpStrAnti(s[1..], t[1..]);
      assert s == [s[0]] + s[1..] && t == [t[0]] + t[1..];
    }
  }

  lemma {:induction false} CmpStrTrans(s: string, t: string, u: string)
    ensures CmpStr(s, t) <= 0 && CmpStr(t, u) <= 0 ==> CmpStr(s, u) <= 0
    ensures CmpStr(s, t) < 0 && CmpStr(t, u) <= 0 ==> CmpStr(s, u) < 0
    ensures CmpStr(s, t) <= 0 && CmpStr(t, u) < 0 ==> CmpStr(s, u) < 0
  {
    if |s| > 0 && |t| > 0 && |u| > 0 && s[0] == t[0] == u[0] {
      CmpStrTrans(s[1..], t[1..], u[1..]);
    }
  }

  /** Swapping the operands negates the comparison. */
  lemma {:induction false} CmpAnti(ord: Order, a: Value, b: Value)
    ensures Cmp(ord, a, b) == -Cmp(ord, b, a)
    decreases a
  {
    if Rank(a) == Rank(b) {
      if a.Str? {
        CmpStrAnti(a.s, b.s);
      } else if a.List? || a.Tuple? {
        CmpSeqAnti(ord, a.items, b.items);
      }
    }
  }

  lemma {:induction false} CmpSeqAnti(ord: Order, s: seq<Value>, t: seq<Value>)
    ensures CmpSeq(ord, s, t) == -CmpSeq(ord, t, s)
    decreases s
  {
    if |s| > 0 && |t| > 0 {
      CmpAnti(ord, s[0], t[0]);
      CmpSeqAnti(ord, s[1..], t[1..]);
    }
  }

  /** Under the total order, comparing equal means being equal. */
  lemma {:induction false} CmpZero(a: Value, b: Value)
    requires DictFree(a) && Cmp(TotalOrder, a, b) == 0
    ensures a == b
    decreases a
  {
    if a.Str? {
      CmpStrAnti(a.s, b.s);
    } else if a.List? || a.Tuple? {
      CmpSeqZero(a.items, b.items);
    }
  }

  lemma {:induction false} CmpSeqZero(s: seq<Value>, t: seq<Value>)
    requires forall k :: 0 <= k < |s| ==> DictFree(s[k])
    requires CmpSeq(TotalOrder, s, t) == 0
    ensures s == t
    decreases s
  {
    if |s| > 0 {
      CmpZero(s[0], t[0]);
      CmpSeqZero(s[1..], t[1..]);
      assert s == [s[0]] + s[1..] && t == [t[0]] + t[1..];
    }
  }

  /** The comparison is transitive, and strictly so when either step is strict. */
  lemma {:induction false} CmpTrans(ord: Order, a: Value, b: Value, c: Value)
    ensures Cmp(ord, a, b) <= 0 && Cmp(ord, b, c) <= 0 ==> Cmp(ord, a, c) <= 0
    ensures Cmp(ord, a, b) < 0 && Cmp(ord, b, c) <= 0 ==> Cmp(ord, a, c) < 0
    ensures Cmp(ord, a, b) <= 0 && Cmp(ord, b, c) < 0 ==> Cmp(ord, a, c) < 0
    decreases a
  {
    if Rank(a) == Rank(b) == Rank(c) {
      if a.Str? {
        CmpStrTrans(a.s, b.s, c.s);
      } else if a.List? || a.Tuple? {
        CmpSeqTrans(ord, a.items, b.items, c.items);
      }
    }
  }

  lemma {:induction false} CmpSeqTrans(ord: Order, s: seq<Value>, t: seq<Value>, u: seq<Value>)
    ensures CmpSeq(ord, s, t) <= 0 && CmpSeq(ord, t, u) <= 0 ==> CmpSeq(ord, s, u) <= 0
    ensures CmpSeq(ord, s, t) < 0 && CmpSeq(ord, t, u) <= 0 ==> CmpSeq(ord, s, u) < 0
    ensures CmpSeq(ord, s, t) <= 0 && CmpSeq(ord, t, u) < 0 ==> CmpSeq(ord, s, u) < 0
    decreases s
  {
    if |s| > 0 && |t| > 0 && |u| > 0 {
      CmpTrans(ord, s[0], t[0], u[0]);
      CmpSeqTrans(ord, s[1..], t[1..], u[1..]);
    }
  }

  // ----- sorted ----------------------------------------------------------------------

  ghost predicate IsSorted(ord: Order, s: seq<Value>)
  {
    forall i, j :: 0 <= i < j < |s| ==> Cmp(ord, s[i], s[j]) <= 0
  }

  /** Puts `x` before the first element it does not exceed: inserting the elements of a
      list from last to first this way is a stable sort, like Python's `sorted`. */
  function Insert(ord: Order, x: Value, s: seq<Value>): (r: seq<Value>)
    ensures multiset(r) == multiset(s) + multiset{x}
    ensures |r| == |s| + 1
  {
    if s == [] then [x]
    else if Cmp(ord, x, s[0]) <= 0 then [x] + s
    else
      assert s == [s[0]] + s[1..];
      [s[0]] + Insert(ord, x, s[1..])
  }

  /** Python's `sorted`: a permutation of its input. */
  function Sort(ord: Order, s: seq<Value>): (r: seq<Value>)
    ensures multiset(r) == multiset(s)
    ensures |r| == |s|
  {
    if s == [] then []
    else
      assert s == [s[0]] + s[1..];
      Insert(ord, s[0], Sort(ord, s[1..]))
  }

  /** The head of a sorted sequence does not exceed any of its elements. */
  lemma SortedHeadLeast(ord: Order, a: seq<Value>, x: Value)
    requires IsSorted(ord, a) && x in multiset(a)
    ensures Cmp(ord, a[0], x) <= 0
  {
    var i :| 0 <= i < |a| && a[i] == x;
    if i == 0 {
      CmpAnti(ord, x, x);
    }
  }

  /** A head that does not exceed any element of a sorted tail makes a sorted sequence. */
  lemma ConsSorted(ord: Order, y: Value, t: seq<Value>)
    requires IsSorted(ord, t)
    requires forall k :: 0 <= k < |t| ==> Cmp(ord, y, t[k]) <= 0
    ensures IsSorted(ord, [y] + t)
  {
    var r := [y] + t;
    forall i, j | 0 <= i < j < |r| ensures Cmp(ord, r[i], r[j]) <= 0 {
      assert r[j] == t[j - 1];
      if i > 0 {
        assert r[i] == t[i - 1];
      }
    }
  }

  lemma {:induction false} InsertSorted(ord: Order, x: Value, s: seq<Value>)
    requires IsSorted(ord, s)
    ensures IsSorted(ord, Insert(ord, x, s))
  {
    if s != [] {
      if Cmp(ord, x, s[0]) <= 0 {
        forall k | 0 <= k < |s| ensures Cmp(ord, x, s[k]) <= 0 {
          CmpTrans(ord, x, s[0], s[k]);
          CmpAnti(ord, s[0], s[0]);
        }
        ConsSorted(ord, x, s);
      } else {
        CmpAnti(ord, x, s[0]);
        assert IsSorted(ord, s[1..]);
        InsertSorted(ord, x, s[1..]);
        var tail := Insert(ord, x, s[1..]);
        forall k | 0 <= k < |tail| ensures Cmp(ord, s[0], tail[k]) <= 0 {
          assert tail[k] in multiset(s[1..]) + multiset{x};
          if tail[k] != x {
            assert s == [s[0]] + s[1..];
            SortedHeadLeast(ord, s, tail[k]);
          }
        }
        ConsSorted(ord, s[0], tail);
      }
    }
  }

  /** `sorted` returns its input in ascending order. */
  lemma {:induction false} SortSorted(ord: Order, s: seq<Value>)
    ensures IsSorted(ord, Sort(ord, s))
  {
    if s != [] {
      SortSorted(ord, s[1..]);
      InsertSorted(ord, s[0], Sort(ord, s[1..]));
    }
  }

  /** No two different elements of `s` compare equal under `ord`. */
  ghost predicate Strict(ord: Order, s: seq<Value>)
  {
    forall i, j :: 0 <= i < |s| && 0 <= j < |s| && Cmp(ord, s[i], s[j]) == 0 ==> s[i] == s[j]
  }

  /** Two sorted permutations, in which different values never compare equal, start with
      the same value. */
  lemma StrictHeadsEqual(ord: Order, a: seq<Value>, b: seq<Value>)
    requires IsSorted(ord, a) && IsSorted(ord, b) && Strict(ord, a)
    requires multiset(a) == multiset(b) && a != []
    ensures b != [] && a[0] == b[0]
  {
    assert a[0] in multiset(a);
    assert b != [] && b[0] in multiset(b);
    SortedHeadLeast(ord, a, b[0]);
    SortedHeadLeast(ord, b, a[0]);
    CmpAnti(ord, a[0], b[0]);
    var j :| 0 <= j < |a| && a[j] == b[0];
  }

  /** Removing equal heads from two permutations leaves two permutations. */
  lemma TailsPermutation(a: seq<Value>, b: seq<Value>)
    requires multiset(a) == multiset(b) && a != [] && b != [] && a[0] == b[0]
    ensures multiset(a[1..]) == multiset(b[1..])
  {
    assert a == [a[0]] + a[1..] && b == [b[0]] + b[1..];
    assert multiset(a) == multiset{a[0]} + multiset(a[1..]);
    assert multiset(b) == multiset{b[0]} + multiset(b[1..]);
    assert multiset(a[1..]) == multiset(a) - multiset{a[0]};
    assert multiset(b[1..]) == multiset(b) - multiset{b[0]};
  }

  /** When different values never compare equal, a multiset has one sorted arrangement. */
  lemma {:induction false} StrictUnique(ord: Order, a: seq<Value>, b: seq<Value>)
    requires IsSorted(ord, a) && IsSorted(ord, b) && Strict(ord, a)
    requires multiset(a) == multiset(b)
    ensures a == b
    decreases |a|
  {
    if a == [] {
      assert |multiset(b)| == 0;
    } else {
      StrictHeadsEqual(ord, a, b);
      TailsPermutation(a, b);
      assert IsSorted(ord, a[1..]) && IsSorted(ord, b[1..]);
      assert Strict(ord, a[1..]) by {
        forall i, j | 0 <= i < |a| - 1 && 0 <= j < |a| - 1
          ensures Cmp(ord, a[1..][i], a[1..][j]) == 0 ==> a[1..][i] == a[1..][j]
        {
          assert a[1..][i] == a[i + 1] && a[1..][j] == a[j + 1];
        }
      }
      StrictUnique(ord, a[1..], b[1..]);
      assert a == [a[0]] + a[1..] && b == [b[0]] + b[1..];
    }
  }

  /** When different values never compare equal, `sorted` forgets the input's order. */
  lemma SortStrictInvariant(ord: Order, p: seq<Value>, q: seq<Value>)
    requires multiset(p) == multiset(q) && Strict(ord, p)
    ensures Sort(ord, p) == Sort(ord, q)
  {
    var a, b := Sort(ord, p), Sort(ord, q);
    SortSorted(ord, p);
    SortSorted(ord, q);
    forall i, j | 0 <= i < |a| && 0 <= j < |a| && Cmp(ord, a[i], a[j]) == 0 ensures a[i] == a[j] {
      assert a[i] in multiset(p) && a[j] in multiset(p);
      var i' :| 0 <= i' < |p| && p[i'] == a[i];
      var j' :| 0 <= j' < |p| && p[j'] == a[j];
    }
    StrictUnique(ord, a, b);
  }

  /** Under the total order there is one sorted arrangement of a multiset of values. */
  lemma SortedUnique(a: seq<Value>, b: seq<Value>)
    requires IsSorted(TotalOrder, a) && IsSorted(TotalOrder, b)
    requires multiset(a) == multiset(b)
    requires forall k :: 0 <= k < |a| ==> DictFree(a[k])
    ensures a == b
  {
    forall i, j | 0 <= i < |a| && 0 <= j < |a| && Cmp(TotalOrder, a[i], a[j]) == 0 ensures a[i] == a[j] {
      CmpZero(a[i], a[j]);
    }
    StrictUnique(TotalOrder, a, b);
  }

  /** Sorting under the total order forgets the input's order. */
  lemma SortPermutationInvariant(p: seq<Value>, q: seq<Value>)
    requires multiset(p) == multiset(q)
    requires forall k :: 0 <= k < |p| ==> DictFree(p[k])
    ensures Sort(TotalOrder, p) == Sort(TotalOrder, q)
  {
    var a, b := Sort(TotalOrder, p), Sort(TotalOrder, q);
    SortSorted(TotalOrder, p);
    SortSorted(TotalOrder, q);
    forall k | 0 <= k < |a| ensures DictFree(a[k]) {
      assert a[k] in multiset(p);
    }
    SortedUnique(a, b);
  }

  // ----- deep_sorted -------------------------------------------------------------------

  /** `deep_sorted` (fireflower/utils.py:42-48) under a given ordering: a dict becomes the
      sorted list of its `(key, deep_sorted(value))` pairs, a list or tuple becomes the
      sorted list of its elements' `deep_sorted`, and a string or scalar is returned as is. */
  function DeepSortedBy(ord: Order, v: Value): (r: Value)
    ensures v.Dict? ==> r.List? && |r.items| == |v.entries|
    ensures v.List? || v.Tuple? ==> r.List? && |r.items| == |v.items|
    ensures !(v.Dict? || v.List? || v.Tuple?) ==> r == v
    decreases v, 1
  {
    match v
    case Dict(es) => List(Sort(ord, Pairs(ord, es)))
    case List(xs) => List(Sort(ord, Elements(ord, xs)))
    case Tuple(xs) => List(Sort(ord, Elements(ord, xs)))
    case _ => v
  }

  /** `deep_sorted(v) for v in d`, before sorting. */
  function Elements(ord: Order, xs: seq<Value>): (r: seq<Value>)
    ensures |r| == |xs|
    decreases xs, 0
  {
    seq(|xs|, k requires 0 <= k < |xs| => DeepSortedBy(ord, xs[k]))
  }

  /** `(k, deep_sorted(v)) for k, v in d.items()`, before sorting. */
  function Pairs(ord: Order, es: seq<Entry>): (r: seq<Value>)
    ensures |r| == |es|
    decreases es, 0
  {
    seq(|es|, k requires 0 <= k < |es| => Tuple([Str(es[k].key), DeepSortedBy(ord, es[k].val)]))
  }

  /** `deep_sorted` as the source means it: under an ordering in which comparing equal
      means being the same value. */
  function DeepSorted(v: Value): (r: Value)
    ensures DictFree(r)
    ensures r.List? ==> IsSorted(TotalOrder, r.items)
  {
    DeepSortedDictFree(TotalOrder, v);
    DeepSortedSorted(TotalOrder, v);
    DeepSortedBy(TotalOrder, v)
  }

  /** `deep_sorted` as Python runs it, where `True` and `1` compare equal. */
  function DeepSortedAsWritten(v: Value): (r: Value)
    ensures DictFree(r)
    ensures r.List? ==> IsSorted(PythonOrder, r.items)
    ensures BoolFree(v) ==> r == DeepSorted(v)
  {
    DeepSortedDictFree(PythonOrder, v);
    DeepSortedSorted(PythonOrder, v);
    if BoolFree(v) then
      DeepSortedAgree(v);
      DeepSortedBy(PythonOrder, v)
    else
      DeepSortedBy(PythonOrder, v)
  }

  /** A list that `deep_sorted` returns is in ascending order. */
  lemma DeepSortedSorted(ord: Order, v: Value)
    ensures DeepSortedBy(ord, v).List? ==> IsSorted(ord, DeepSortedBy(ord, v).items)
  {
    match v
    case Dict(es) => SortSorted(ord, Pairs(ord, es));
    case List(xs) => SortSorted(ord, Elements(ord, xs));
    case Tuple(xs) => SortSorted(ord, Elements(ord, xs));
    case _ =>
  }

  function MapSeq<A, B>(f: A -> B, s: seq<A>): (r: seq<B>)
    ensures |r| == |s|
    ensures forall k :: 0 <= k < |s| ==> r[k] == f(s[k])
  {
    if s == [] then [] else [f(s[0])] + MapSeq(f, s[1..])
  }

  lemma {:induction false} MapSeqAppend<A, B>(f: A -> B, a: seq<A>, b: seq<A>)
    ensures MapSeq(f, a + b) == MapSeq(f, a) + MapSeq(f, b)
  {
    var l, r := MapSeq(f, a + b), MapSeq(f, a) + MapSeq(f, b);
    assert |l| == |r|;
    forall k | 0 <= k < |l| ensures l[k] == r[k] {
      if k < |a| {
        assert (a + b)[k] == a[k];
      } else {
        assert (a + b)[k] == b[k - |a|];
      }
    }
  }

  lemma {:induction false} RemoveAt<A>(q: seq<A>, j: nat)
    requires j < |q|
    ensures multiset(q[..j] + q[j + 1..]) == multiset(q) - multiset{q[j]}
  {
    assert q == q[..j] + [q[j]] + q[j + 1..];
    assert multiset(q) == multiset(q[..j]) + multiset{q[j]} + multiset(q[j + 1..]);
  }

  lemma {:induction false} MapRemoveAt<A, B>(f: A -> B, q: seq<A>, j: nat)
    requires j < |q|
    ensures multiset(MapSeq(f, q)) == multiset(MapSeq(f, q[..j] + q[j + 1..])) + multiset{f(q[j])}
  {
    var front, back := q[..j], q[j + 1..];
    var mf, mb := MapSeq(f, front), MapSeq(f, back);
    assert q == (front + [q[j]]) + back;
    MapSeqAppend(f, front + [q[j]], back);
    MapSeqAppend(f, front, [q[j]]);
    MapSeqAppend(f, front, back);
    assert MapSeq(f, q) == mf + [f(q[j])] + mb;
    assert MapSeq(f, front + back) == mf + mb;
    assert multiset(mf + [f(q[j])] + mb) == multiset(mf) + multiset{f(q[j])} + multiset(mb);
  }

  /** Mapping over a non-empty sequence maps its head and then its tail. */
  lemma MapCons<A, B>(f: A -> B, p: seq<A>)
    requires p != []
    ensures multiset(MapSeq(f, p)) == multiset(MapSeq(f, p[1..])) + multiset{f(p[0])}
  {
    assert MapSeq(f, p) == [f(p[0])] + MapSeq(f, p[1..]);
  }

  /** Removing the head of `p` and an equal element of its permutation `q` leaves two
      permutations. */
  lemma PermutationTail<A>(p: seq<A>, q: seq<A>, j: nat)
    requires multiset(p) == multiset(q) && p != [] && j < |q| && q[j] == p[0]
    ensures multiset(p[1..]) == multiset(q[..j] + q[j + 1..])
  {
    RemoveAt(q, j);
    RemoveAt(p, 0);
    assert p[..0] + p[1..] == p[1..];
  }

  /** Mapping a function over two permutations of each other gives two permutations. */
  lemma {:induction false} MapSeqPermutation<A, B>(f: A -> B, p: seq<A>, q: seq<A>)
    requires multiset(p) == multiset(q)
    ensures multiset(MapSeq(f, p)) == multiset(MapSeq(f, q))
    decreases |p|
  {
    if p == [] {
      assert |multiset(q)| == 0;
    } else {
      assert p[0] in multiset(q);
      var j :| 0 <= j < |q| && q[j] == p[0];
      PermutationTail(p, q, j);
      MapSeqPermutation(f, p[1..], q[..j] + q[j + 1..]);
      MapRemoveAt(f, q, j);
      MapCons(f, p);
    }
  }

  lemma ElementsIsMap(ord: Order, xs: seq<Value>)
    ensures Elements(ord, xs) == MapSeq(x => DeepSortedBy(ord, x), xs)
  {
  }

  lemma PairsIsMap(ord: Order, es: seq<Entry>)
    ensures Pairs(ord, es) == MapSeq((e: Entry) => Tuple([Str(e.key), DeepSortedBy(ord, e.val)]), es)
  {
  }

  /** What `deep_sorted` returns holds no dict. */
  lemma {:induction false} DeepSortedDictFree(ord: Order, v: Value)
    ensures DictFree(DeepSortedBy(ord, v))
    decreases v
  {
    match v
    case Dict(es) =>
      var ps := Pairs(ord, es);
      forall k | 0 <= k < |ps| ensures DictFree(ps[k]) {
        DeepSortedDictFree(ord, es[k].val);
      }
      SortDictFree(ord, ps);
    case List(xs) =>
      ElementsDictFree(ord, xs);
    case Tuple(xs) =>
      ElementsDictFree(ord, xs);
    case _ =>
  }

  lemma {:induction false} ElementsDictFree(ord: Order, xs: seq<Value>)
    ensures forall k :: 0 <= k < |xs| ==> DictFree(Elements(ord, xs)[k])
    ensures DictFree(List(Sort(ord, Elements(ord, xs))))
    decreases xs
  {
    forall k | 0 <= k < |xs| ensures DictFree(Elements(ord, xs)[k]) {
      DeepSortedDictFree(ord, xs[k]);
    }
    SortDictFree(ord, Elements(ord, xs));
  }

  lemma SortDictFree(ord: Order, s: seq<Value>)
    requires forall k :: 0 <= k < |s| ==> DictFree(s[k])
    ensures DictFree(List(Sort(ord, s)))
  {
    var r := Sort(ord, s);
    forall k | 0 <= k < |r| ensures DictFree(r[k]) {
      assert r[k] in multiset(s);
    }
  }

  /** `deep_sorted` of a dict is the sorted list of its `(key, deep_sorted(value))` pairs,
      one per item, in some order. */
  lemma DeepSortedDictShape(ord: Order, es: seq<Entry>)
    ensures DeepSortedBy(ord, Dict(es)).List?
    ensures |DeepSortedBy(ord, Dict(es)).items| == |es|
    ensures IsSorted(ord, DeepSortedBy(ord, Dict(es)).items)
    ensures multiset(DeepSortedBy(ord, Dict(es)).items) == multiset(Pairs(ord, es))
    ensures forall k :: 0 <= k < |es| ==>
      Tuple([Str(es[k].key), DeepSortedBy(ord, es[k].val)]) in DeepSortedBy(ord, Dict(es)).items
  {
    var ps := Pairs(ord, es);
    var r := Sort(ord, ps);
    assert DeepSortedBy(ord, Dict(es)).items == r;
    SortSorted(ord, ps);
    assert |multiset(r)| == |multiset(ps)|;
    forall k | 0 <= k < |es|
      ensures Tuple([Str(es[k].key), DeepSortedBy(ord, es[k].val)]) in r
    {
      assert ps[k] == Tuple([Str(es[k].key), DeepSortedBy(ord, es[k].val)]);
      assert ps[k] in multiset(r);
    }
  }

  /** `deep_sorted` of a list or tuple is the sorted list of its elements' `deep_sorted`,
      one per element, in some order. */
  lemma DeepSortedListShape(ord: Order, v: Value)
    requires v.List? || v.Tuple?
    ensures DeepSortedBy(ord, v).List?
    ensures |DeepSortedBy(ord, v).items| == |v.items|
    ensures IsSorted(ord, DeepSortedBy(ord, v).items)
    ensures multiset(DeepSortedBy(ord, v).items) == multiset(Elements(ord, v.items))
    ensures forall k :: 0 <= k < |v.items| ==> DeepSortedBy(ord, v.items[k]) in DeepSortedBy(ord, v).items
  {
    var el := Elements(ord, v.items);
    var r := Sort(ord, el);
    assert DeepSortedBy(ord, v).items == r;
    SortSorted(ord, el);
    assert |multiset(r)| == |multiset(el)|;
    forall k | 0 <= k < |v.items| ensures DeepSortedBy(ord, v.items[k]) in r {
      assert el[k] == DeepSortedBy(ord, v.items[k]);
      assert el[k] in multiset(r);
    }
  }

  /** Permuting a list's (or tuple's) elements does not change its `deep_sorted`. */
  lemma DeepSortedListPermutation(p: seq<Value>, q: seq<Value>)
    requires multiset(p) == multiset(q)
    ensures DeepSorted(List(p)) == DeepSorted(List(q)) == DeepSorted(Tuple(q))
  {
    var f := x => DeepSortedBy(TotalOrder, x);
    ElementsIsMap(TotalOrder, p);
    ElementsIsMap(TotalOrder, q);
    MapSeqPermutation(f, p, q);
    ElementsDictFree(TotalOrder, p);
    SortPermutationInvariant(Elements(TotalOrder, p), Elements(TotalOrder, q));
  }

  /** The pairs of two reorderings of a dict are two permutations. */
  lemma PairsPermutation(ord: Order, d: seq<Entry>, e: seq<Entry>)
    requires multiset(d) == multiset(e)
    ensures multiset(Pairs(ord, d)) == multiset(Pairs(ord, e))
  {
    var f := (x: Entry) => Tuple([Str(x.key), DeepSortedBy(ord, x.val)]);
    PairsIsMap(ord, d);
    PairsIsMap(ord, e);
    MapSeqPermutation(f, d, e);
  }

  /** The pairs of a dict hold no dict. */
  lemma PairsDictFree(es: seq<Entry>)
    ensures forall k :: 0 <= k < |es| ==> DictFree(Pairs(TotalOrder, es)[k])
  {
    var ps := Pairs(TotalOrder, es);
    forall k | 0 <= k < |es| ensures DictFree(ps[k]) {
      DeepSortedDictFree(TotalOrder, es[k].val);
      assert ps[k] == Tuple([Str(es[k].key), DeepSortedBy(TotalOrder, es[k].val)]);
    }
  }

  /** Reordering a dict's items does not change its `deep_sorted`. */
  lemma DeepSortedDictPermutation(d: seq<Entry>, e: seq<Entry>)
    requires multiset(d) == multiset(e)
    ensures DeepSorted(Dict(d)) == DeepSorted(Dict(e))
  {
    PairsPermutation(TotalOrder, d, e);
    PairsDictFree(d);
    SortPermutationInvariant(Pairs(TotalOrder, d), Pairs(TotalOrder, e));
  }

  /** Elements with equal `deep_sorted` make lists with equal `deep_sorted`: together
      with the two lemmas above, order is ignored at every depth. */
  lemma DeepSortedCongruent(p: seq<Value>, q: seq<Value>)
    requires |p| == |q|
    requires forall k :: 0 <= k < |p| ==> DeepSorted(p[k]) == DeepSorted(q[k])
    ensures DeepSorted(List(p)) == DeepSorted(List(q))
  {
    assert Elements(TotalOrder, p) == Elements(TotalOrder, q);
  }

  // ----- where the two orderings agree -----------------------------------------------

  /** A value holding no bool anywhere. */
  predicate BoolFree(v: Value)
  {
    match v
    case Bool(_) => false
    case List(xs) => forall k :: 0 <= k < |xs| ==> BoolFree(xs[k])
    case Tuple(xs) => forall k :: 0 <= k < |xs| ==> BoolFree(xs[k])
    case Dict(es) => forall k :: 0 <= k < |es| ==> BoolFree(es[k].val)
    case _ => true
  }

  predicate AllBoolFree(s: seq<Value>)
  {
    forall k :: 0 <= k < |s| ==> BoolFree(s[k])
  }

  /** Without bools, Python's ordering and the total one compare alike: they differ only
      in how they break the tie between `True` and `1`. */
  lemma {:induction false} CmpAgree(a: Value, b: Value)
    requires BoolFree(a) && BoolFree(b)
    ensures Cmp(PythonOrder, a, b) == Cmp(TotalOrder, a, b)
    decreases a
  {
    if Rank(a) == Rank(b) && (a.List? || a.Tuple?) {
      CmpSeqAgree(a.items, b.items);
    }
  }

  lemma {:induction false} CmpSeqAgree(s: seq<Value>, t: seq<Value>)
    requires AllBoolFree(s) && AllBoolFree(t)
    ensures CmpSeq(PythonOrder, s, t) == CmpSeq(TotalOrder, s, t)
    decreases s
  {
    if |s| > 0 && |t| > 0 {
      CmpAgree(s[0], t[0]);
      CmpSeqAgree(s[1..], t[1..]);
    }
  }

  lemma {:induction false} InsertAgree(x: Value, s: seq<Value>)
    requires BoolFree(x) && AllBoolFree(s)
    ensures Insert(PythonOrder, x, s) == Insert(TotalOrder, x, s)
  {
    if s != [] {
      CmpAgree(x, s[0]);
      InsertAgree(x, s[1..]);
    }
  }

  lemma SortBoolFree(ord: Order, s: seq<Value>)
    requires AllBoolFree(s)
    ensures AllBoolFree(Sort(ord, s))
  {
    var r := Sort(ord, s);
    forall k | 0 <= k < |r| ensures BoolFree(r[k]) {
      assert r[k] in multiset(s);
    }
  }

  /** Without bools, `sorted` gives the same list under both orderings. */
  lemma {:induction false} SortAgree(s: seq<Value>)
    requires AllBoolFree(s)
    ensures Sort(PythonOrder, s) == Sort(TotalOrder, s)
  {
    if s != [] {
      SortAgree(s[1..]);
      SortBoolFree(TotalOrder, s[1..]);
      InsertAgree(s[0], Sort(TotalOrder, s[1..]));
    }
  }

  /** Without bools, `deep_sorted` as written and as intended give the same result, which
      holds no bool either. */
  lemma {:induction false} DeepSortedAgree(v: Value)
    requires BoolFree(v)
    ensures DeepSortedBy(PythonOrder, v) == DeepSortedBy(TotalOrder, v)
    ensures BoolFree(DeepSortedBy(TotalOrder, v))
    decreases v, 1
  {
    match v
    case List(xs) => ElementsAgree(xs);
    case Tuple(xs) => ElementsAgree(xs);
    case Dict(es) => PairsAgree(es);
    case _ =>
  }

  lemma {:induction false} ElementsAgree(xs: seq<Value>)
    requires AllBoolFree(xs)
    ensures Elements(PythonOrder, xs) == Elements(TotalOrder, xs)
    ensures Sort(PythonOrder, Elements(TotalOrder, xs)) == Sort(TotalOrder, Elements(TotalOrder, xs))
    ensures AllBoolFree(Sort(TotalOrder, Elements(TotalOrder, xs)))
    decreases xs, 0
  {
    var el := Elements(TotalOrder, xs);
    forall k | 0 <= k < |xs|
      ensures DeepSortedBy(PythonOrder, xs[k]) == el[k] && BoolFree(el[k])
    {
      DeepSortedAgree(xs[k]);
    }
    SortAgree(el);
    SortBoolFree(TotalOrder, el);
  }

  lemma {:induction false} PairsAgree(es: seq<Entry>)
    requires forall k :: 0 <= k < |es| ==> BoolFree(es[k].val)
    ensures Pairs(PythonOrder, es) == Pairs(TotalOrder, es)
    ensures Sort(PythonOrder, Pairs(TotalOrder, es)) == Sort(TotalOrder, Pairs(TotalOrder, es))
    ensures AllBoolFree(Sort(TotalOrder, Pairs(TotalOrder, es)))
    decreases es, 0
  {
    var ps := Pairs(TotalOrder, es);
    forall k | 0 <= k < |es|
      ensures Pairs(PythonOrder, es)[k] == ps[k] && BoolFree(ps[k])
    {
      DeepSortedAgree(es[k].val);
      assert ps[k].items == [Str(es[k].key), DeepSortedBy(TotalOrder, es[k].val)];
    }
    SortAgree(ps);
    SortBoolFree(TotalOrder, ps);
  }

  /** For values without bools, `deep_sorted` as written ignores the order of a list's
      elements, at every depth. */
  lemma AsWrittenListPermutation(p: seq<Value>, q: seq<Value>)
    requires multiset(p) == multiset(q) && AllBoolFree(p)
    ensures DeepSortedAsWritten(List(p)) == DeepSortedAsWritten(List(q))
  {
    forall k | 0 <= k < |q| ensures BoolFree(q[k]) {
      assert q[k] in multiset(p);
    }
    DeepSortedListPermutation(p, q);
  }

  /** A Python dict: no key appears twice. */
  predicate DistinctKeys(es: seq<Entry>)
  {
    forall i, j :: 0 <= i < j < |es| ==> es[i].key != es[j].key
  }

  /** The pairs of a dict differ in their keys, so no two of them compare equal, under
      either ordering. */
  lemma PairsStrict(ord: Order, es: seq<Entry>)
    requires DistinctKeys(es)
    ensures Strict(ord, Pairs(ord, es))
  {
    var ps := Pairs(ord, es);
    forall i, j | 0 <= i < |ps| && 0 <= j < |ps| && i != j ensures Cmp(ord, ps[i], ps[j]) != 0 {
      CmpStrAnti(es[i].key, es[j].key);
      assert Cmp(ord, Str(es[i].key), Str(es[j].key)) != 0;
      assert ps[i].items == [Str(es[i].key), DeepSortedBy(ord, es[i].val)];
      assert ps[j].items == [Str(es[j].key), DeepSortedBy(ord, es[j].val)];
    }
  }

  /** As written too, `deep_sorted` ignores the order of a dict's items: the keys of a
      dict are distinct strings, so `True == 1` never ties two of its pairs. */
  lemma AsWrittenDictPermutation(d: seq<Entry>, e: seq<Entry>)
    requires multiset(d) == multiset(e) && DistinctKeys(d)
    ensures DeepSortedAsWritten(Dict(d)) == DeepSortedAsWritten(Dict(e))
  {
    PairsPermutation(PythonOrder, d, e);
    PairsStrict(PythonOrder, d);
    SortStrictInvariant(PythonOrder, Pairs(PythonOrder, d), Pairs(PythonOrder, e));
  }

  /** As written, `deep_sorted` is not order-insensitive: `sorted` is stable and Python
      has `True == 1`, so `[1, True]` and `[True, 1]` come back in their own orders (and
      their `str`, hence their signature, differ). */
  lemma AsWrittenOrderSensitive()
    ensures DeepSortedAsWritten(List([Int(1), Bool(true)])) == List([Int(1), Bool(true)])
    ensures DeepSortedAsWritten(List([Bool(true), Int(1)])) == List([Bool(true), Int(1)])
    ensures DeepSorted(List([Int(1), Bool(true)])) == DeepSorted(List([Bool(true), Int(1)]))
  {
    var one, yes := Int(1), Bool(true);
    assert Cmp(PythonOrder, one, yes) == 0 && Cmp(PythonOrder, yes, one) == 0;
    SortPair(PythonOrder, one, yes);
    SortPair(PythonOrder, yes, one);
    assert Elements(PythonOrder, [one, yes]) == [one, yes];
    assert Elements(PythonOrder, [yes, one]) == [yes, one];
    assert DeepSortedBy(PythonOrder, List([one, yes])) == List([one, yes]);
    assert DeepSortedBy(PythonOrder, List([yes, one])) == List([yes, one]);
    DeepSortedListPermutation([one, yes], [yes, one]);
  }

  /** `sorted` leaves a pair whose first element does not exceed the second as it is. */
  lemma SortPair(ord: Order, x: Value, y: Value)
    requires Cmp(ord, x, y) <= 0
    ensures Sort(ord, [x, y]) == [x, y]
  {
    assert [x, y][1..] == [y];
    assert Sort(ord, [y]) == [y];
  }
}
