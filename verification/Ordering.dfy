/** Orders and the stable sort that Python's `sorted` and `list.sort` provide. */
module Ordering {

  ghost predicate TotalPreorder<T(!new)>(le: (T, T) -> bool) {
    && (forall x, y :: le(x, y) || le(y, x))
    && (forall x, y, z :: le(x, y) && le(y, z) ==> le(x, z))
  }

  ghost predicate TotalOrder<T(!new)>(le: (T, T) -> bool) {
    && TotalPreorder(le)
    && (forall x, y :: le(x, y) && le(y, x) ==> x == y)
  }

  // ----- lexicographic order on sequences (Python's order on `str` and on `bytes`) -----

  predicate LexLe<T>(code: T -> int, a: seq<T>, b: seq<T>)
    decreases |a|
  {
    |a| == 0 ||
    (|b| > 0 &&
     (code(a[0]) < code(b[0]) || (code(a[0]) == code(b[0]) && LexLe(code, a[1..], b[1..]))))
  }

  lemma {:induction false} LexTotal<T>(code: T -> int, a: seq<T>, b: seq<T>)
    ensures LexLe(code, a, b) || LexLe(code, b, a)
    decreases |a|
  {
    if |a| > 0 && |b| > 0 {
      LexTotal(code, a[1..], b[1..]);
    }
  }

  lemma {:induction false} LexTransitive<T>(code: T -> int, a: seq<T>, b: seq<T>, c: seq<T>)
    requires LexLe(code, a, b) && LexLe(code, b, c)
    ensures LexLe(code, a, c)
    decreases |a|
  {
    if |a| > 0 && code(a[0]) == code(b[0]) == code(c[0]) {
      LexTransitive(code, a[1..], b[1..], c[1..]);
    }
  }

  lemma {:induction false} LexAntisymmetric<T(!new)>(code: T -> int, a: seq<T>, b: seq<T>)
    requires forall x, y :: code(x) == code(y) ==> x == y
    requires LexLe(code, a, b) && LexLe(code, b, a)
    ensures a == b
    decreases |a|
  {
    if |a| > 0 {
      LexAntisymmetric(code, a[1..], b[1..]);
      assert a == [a[0]] + a[1..] && b == [b[0]] + b[1..];
    }
  }

  function CharCode(c: char): int { c as int }

  predicate TextLe(a: string, b: string) {
    LexLe(CharCode, a, b)
  }

  lemma TextOrder()
    ensures TotalOrder(TextLe)
  {
    forall a, b ensures TextLe(a, b) || TextLe(b, a) { LexTotal(CharCode, a, b); }
    forall a, b, c | TextLe(a, b) && TextLe(b, c) ensures TextLe(a, c) { LexTransitive(CharCode, a, b, c); }
    forall a, b | TextLe(a, b) && TextLe(b, a) ensures a == b { LexAntisymmetric(CharCode, a, b); }
  }

  /** The sequences agree before k, and there the first has the smaller element. */
  ghost predicate FirstBelow<T>(code: T -> int, a: seq<T>, b: seq<T>, k: nat) {
    k < |a| && k < |b| && a[..k] == b[..k] && code(a[k]) < code(b[k])
  }

  lemma FirstBelowHead<T>(code: T -> int, a: seq<T>, b: seq<T>, k: nat)
    requires FirstBelow(code, a, b, k)
    ensures k == 0 || a[0] == b[0]
  {
    if k > 0 {
      assert a[..k][0] == b[..k][0];
    }
  }

  /** The order is that of the first difference; a prefix comes first. */
  lemma {:induction false} LexMeans<T(!new)>(code: T -> int, a: seq<T>, b: seq<T>)
    requires forall x, y :: code(x) == code(y) ==> x == y
    ensures LexLe(code, a, b) <==> a <= b || exists k: nat :: FirstBelow(code, a, b, k)
    decreases |a|
  {
    if |a| > 0 && |b| > 0 {
      if a[0] == b[0] {
        LexMeans(code, a[1..], b[1..]);
        assert a == [a[0]] + a[1..] && b == [b[0]] + b[1..];
        if k: nat :| FirstBelow(code, a, b, k) {
          assert a[1..][..k - 1] == a[..k][1..] && b[1..][..k - 1] == b[..k][1..];
          assert FirstBelow(code, a[1..], b[1..], k - 1);
        }
        if k: nat :| FirstBelow(code, a[1..], b[1..], k) {
          assert a[..k + 1] == [a[0]] + a[1..][..k] && b[..k + 1] == [b[0]] + b[1..][..k];
          assert FirstBelow(code, a, b, k + 1);
        }
      } else {
        forall k: nat | FirstBelow(code, a, b, k) ensures k == 0 {
          FirstBelowHead(code, a, b, k);
        }
        if code(a[0]) < code(b[0]) {
          assert FirstBelow(code, a, b, 0);
        }
      }
    }
  }

  /** Texts ascend by their characters. */
  lemma TextLeMeans(a: string, b: string)
    ensures TextLe(a, b) <==>
              || a <= b
              || exists k :: 0 <= k < |a| && k < |b| && a[..k] == b[..k] && a[k] < b[k]
  {
    LexMeans(CharCode, a, b);
    if k :| 0 <= k < |a| && k < |b| && a[..k] == b[..k] && a[k] < b[k] {
      assert FirstBelow(CharCode, a, b, k);
    }
    if k: nat :| FirstBelow(CharCode, a, b, k) {
      assert a[..k] == b[..k] && a[k] < b[k];
    }
  }

  // ----- stable sorting -----

  ghost predicate SortedBy<T>(le: (T, T) -> bool, xs: seq<T>) {
    forall i, j :: 0 <= i < j < |xs| ==> le(xs[i], xs[j])
  }

  /** Puts x behind every element that is not greater than x. */
  function Insert<T>(le: (T, T) -> bool, xs: seq<T>, x: T): (r: seq<T>)
    ensures |r| == |xs| + 1
  {
    if |xs| == 0 then [x]
    else if le(xs[|xs| - 1], x) then xs + [x]
    else Insert(le, xs[..|xs| - 1], x) + [xs[|xs| - 1]]
  }

  /** `sorted(xs, key=...)` with le the order of the keys. */
  function StableSort<T>(le: (T, T) -> bool, xs: seq<T>): (r: seq<T>)
    ensures |r| == |xs|
  {
    if |xs| == 0 then [] else Insert(le, StableSort(le, xs[..|xs| - 1]), xs[|xs| - 1])
  }

  /** The elements of xs whose key equals that of x, in the order of xs. */
  function Tied<T>(le: (T, T) -> bool, x: T, xs: seq<T>): (r: seq<T>) {
    if |xs| == 0 then []
    else
      var y := xs[|xs| - 1];
      Tied(le, x, xs[..|xs| - 1]) + (if le(x, y) && le(y, x) then [y] else [])
  }

  lemma {:induction false} InsertPermutes<T>(le: (T, T) -> bool, xs: seq<T>, x: T)
    ensures multiset(Insert(le, xs, x)) == multiset(xs) + multiset{x}
  {
    if |xs| > 0 {
      assert xs == xs[..|xs| - 1] + [xs[|xs| - 1]];
      if !le(xs[|xs| - 1], x) {
        InsertPermutes(le, xs[..|xs| - 1], x);
      }
    }
  }

  lemma {:induction false} InsertSorts<T(!new)>(le: (T, T) -> bool, xs: seq<T>, x: T)
    requires TotalPreorder(le) && SortedBy(le, xs)
    ensures SortedBy(le, Insert(le, xs, x))
  {
    if |xs| > 0 {
      var init, last := xs[..|xs| - 1], xs[|xs| - 1];
      if le(last, x) {
        forall i | 0 <= i < |xs| ensures le(xs[i], x) {
          assert i == |xs| - 1 || le(xs[i], last);
        }
      } else {
        InsertSorts(le, init, x);
        InsertPermutes(le, init, x);
        var r := Insert(le, init, x);
        forall i | 0 <= i < |r| ensures le(r[i], last) {
          assert r[i] in multiset(r);
        }
      }
    }
  }

  lemma {:induction false} InsertTied<T(!new)>(le: (T, T) -> bool, xs: seq<T>, x: T, k: T)
    requires TotalPreorder(le) && SortedBy(le, xs)
    ensures Tied(le, k, Insert(le, xs, x)) == Tied(le, k, xs) + Tied(le, k, [x])
  {
    assert [x][..0] == [];
    if |xs| > 0 {
      var last := xs[|xs| - 1];
      if le(last, x) {
        assert (xs + [x])[..|xs|] == xs;
      } else {
        var r := Insert(le, xs[..|xs| - 1], x);
        assert (r + [last])[..|r|] == r;
        InsertTied(le, xs[..|xs| - 1], x, k);
      }
    }
  }

  /** The sort orders, permutes, and keeps elements with equal keys in their order. */
  lemma {:induction false} StableSortSorts<T(!new)>(le: (T, T) -> bool, xs: seq<T>)
    requires TotalPreorder(le)
    ensures SortedBy(le, StableSort(le, xs))
    ensures multiset(StableSort(le, xs)) == multiset(xs)
    ensures forall k :: Tied(le, k, StableSort(le, xs)) == Tied(le, k, xs)
  {
    if |xs| > 0 {
      var init, x := xs[..|xs| - 1], xs[|xs| - 1];
      assert xs == init + [x];
      StableSortSorts(le, init);
      InsertSorts(le, StableSort(le, init), x);
      InsertPermutes(le, StableSort(le, init), x);
      forall k ensures Tied(le, k, StableSort(le, xs)) == Tied(le, k, xs) {
        InsertTied(le, StableSort(le, init), x, k);
        assert [x][..0] == [];
      }
    }
  }

  lemma {:induction false} TiedFirst<T(!new)>(le: (T, T) -> bool, k: T, xs: seq<T>)
    requires |xs| > 0
    ensures Tied(le, k, xs) == Tied(le, k, [xs[0]]) + Tied(le, k, xs[1..])
  {
    assert [xs[0]][..0] == [];
    if |xs| == 1 {
      assert xs[1..] == [] && xs == [xs[0]];
    } else {
      TiedFirst(le, k, xs[..|xs| - 1]);
      assert xs[1..][..|xs| - 2] == xs[..|xs| - 1][1..];
    }
  }

  lemma {:induction false} TiedMember<T(!new)>(le: (T, T) -> bool, k: T, xs: seq<T>)
    ensures forall y :: y in Tied(le, k, xs) <==> y in xs && le(k, y) && le(y, k)
  {
    if |xs| > 0 {
      TiedMember(le, k, xs[..|xs| - 1]);
      assert xs == xs[..|xs| - 1] + [xs[|xs| - 1]];
    }
  }

  ghost predicate Before<T>(le: (T, T) -> bool, tie: (T, T) -> bool, x: T, y: T) {
    le(x, y) && (le(y, x) ==> tie(x, y))
  }

  /** Sorted by le, and elements with equal keys are in the order `tie`. */
  ghost predicate TiesInOrder<T>(le: (T, T) -> bool, tie: (T, T) -> bool, xs: seq<T>) {
    forall i, j :: 0 <= i < j < |xs| ==> Before(le, tie, xs[i], xs[j])
  }

  lemma {:induction false} InsertBreaksTies<T(!new)>(le: (T, T) -> bool, tie: (T, T) -> bool, xs: seq<T>, x: T)
    requires TotalPreorder(le)
    requires TiesInOrder(le, tie, xs)
    requires forall y :: y in xs ==> tie(y, x)
    ensures TiesInOrder(le, tie, Insert(le, xs, x))
  {
    if |xs| > 0 {
      var init, last := xs[..|xs| - 1], xs[|xs| - 1];
      if le(last, x) {
        forall i | 0 <= i < |xs| ensures Before(le, tie, xs[i], x) {
          assert i == |xs| - 1 || Before(le, tie, xs[i], last);
        }
        var r := xs + [x];
        assert TiesInOrder(le, tie, r);
      } else {
        InsertBreaksTies(le, tie, init, x);
        InsertPermutes(le, init, x);
        var r := Insert(le, init, x);
        forall i | 0 <= i < |r| ensures Before(le, tie, r[i], last) {
          assert r[i] in multiset(r);
          if r[i] in init {
            var k :| 0 <= k < |init| && init[k] == r[i];
            assert Before(le, tie, xs[k], xs[|xs| - 1]);
          }
        }
        var all := r + [last];
        forall i, j | 0 <= i < j < |all| ensures Before(le, tie, all[i], all[j]) {
          assert all[i] == r[i];
          assert j < |r| ==> Before(le, tie, r[i], r[j]);
        }
        assert TiesInOrder(le, tie, all);
      }
    }
  }

  /** Elements with equal keys stay in the order they came in, whatever that order is. */
  lemma {:induction false} StableSortBreaksTies<T(!new)>(le: (T, T) -> bool, tie: (T, T) -> bool, xs: seq<T>)
    requires TotalPreorder(le)
    requires forall i, j :: 0 <= i < j < |xs| ==> tie(xs[i], xs[j])
    ensures TiesInOrder(le, tie, StableSort(le, xs))
  {
    if |xs| > 0 {
      var init, x := xs[..|xs| - 1], xs[|xs| - 1];
      StableSortBreaksTies(le, tie, init);
      StableSortSorts(le, init);
      forall y | y in StableSort(le, init) ensures tie(y, x) {
        assert y in multiset(StableSort(le, init));
        assert y in init;
      }
      InsertBreaksTies(le, tie, StableSort(le, init), x);
    }
  }

  lemma StableSortHead<T(!new)>(le: (T, T) -> bool, xs: seq<T>, ys: seq<T>)
    requires TotalPreorder(le) && SortedBy(le, xs) && SortedBy(le, ys)
    requires forall k :: Tied(le, k, xs) == Tied(le, k, ys)
    requires |xs| > 0
    ensures |ys| > 0 && xs[0] == ys[0]
  {
    var x := xs[0];
    TiedMember(le, x, xs);
    TiedMember(le, x, ys);
    assert x in Tied(le, x, xs);
    assert x in ys;
    var y := ys[0];
    TiedMember(le, y, xs);
    TiedMember(le, y, ys);
    assert y in Tied(le, y, ys);
    assert y in xs;
    assert le(y, x) && le(x, y);
    TiedFirst(le, x, xs);
    TiedFirst(le, x, ys);
    assert [x][..0] == [] && [y][..0] == [];
    assert Tied(le, x, [x]) == [x] && Tied(le, x, [y]) == [y];
    assert Tied(le, x, xs)[0] == x && Tied(le, x, ys)[0] == y;
  }

  /** Two sorted sequences with the same ties are equal: a stable sort has one possible result. */
  lemma {:induction false} StableSortUnique<T(!new)>(le: (T, T) -> bool, xs: seq<T>, ys: seq<T>)
    requires TotalPreorder(le) && SortedBy(le, xs) && SortedBy(le, ys)
    requires forall k :: Tied(le, k, xs) == Tied(le, k, ys)
    ensures xs == ys
    decreases |xs|
  {
    if |xs| == 0 {
      if |ys| > 0 {
        StableSortHead(le, ys, xs);
      }
    } else {
      StableSortHead(le, xs, ys);
      forall k ensures Tied(le, k, xs[1..]) == Tied(le, k, ys[1..]) {
        TiedFirst(le, k, xs);
        TiedFirst(le, k, ys);
        var h := Tied(le, k, [xs[0]]);
        assert (h + Tied(le, k, xs[1..]))[|h|..] == Tied(le, k, xs[1..]);
        assert (h + Tied(le, k, ys[1..]))[|h|..] == Tied(le, k, ys[1..]);
      }
      StableSortUnique(le, xs[1..], ys[1..]);
      assert xs == [xs[0]] + xs[1..] && ys == [ys[0]] + ys[1..];
    }
  }

  lemma {:induction false} TiedCount<T(!new)>(le: (T, T) -> bool, k: T, xs: seq<T>)
    requires TotalOrder(le)
    ensures |Tied(le, k, xs)| == multiset(xs)[k]
    ensures forall i :: 0 <= i < |Tied(le, k, xs)| ==> Tied(le, k, xs)[i] == k
  {
    if |xs| > 0 {
      assert xs == xs[..|xs| - 1] + [xs[|xs| - 1]];
      TiedCount(le, k, xs[..|xs| - 1]);
    }
  }

  /** With a total order, sorting forgets the order in which the elements came. */
  lemma SortForgetsOrder<T(!new)>(le: (T, T) -> bool, xs: seq<T>, ys: seq<T>)
    requires TotalOrder(le) && multiset(xs) == multiset(ys)
    ensures StableSort(le, xs) == StableSort(le, ys)
  {
    StableSortSorts(le, xs);
    StableSortSorts(le, ys);
    forall k ensures Tied(le, k, StableSort(le, xs)) == Tied(le, k, StableSort(le, ys)) {
      TiedCount(le, k, xs);
      TiedCount(le, k, ys);
      assert Tied(le, k, xs) == Tied(le, k, ys);
    }
    StableSortUnique(le, StableSort(le, xs), StableSort(le, ys));
  }

  // ----- `sorted` of a set -----

  ghost predicate StrictlySorted<T(!new)>(le: (T, T) -> bool, xs: seq<T>) {
    forall i, j :: 0 <= i < j < |xs| ==> le(xs[i], xs[j]) && xs[i] != xs[j]
  }

  ghost predicate SortedListing<T(!new)>(le: (T, T) -> bool, s: set<T>, xs: seq<T>) {
    StrictlySorted(le, xs) && (forall x :: x in xs <==> x in s)
  }

  lemma SortedListingHead<T(!new)>(le: (T, T) -> bool, s: set<T>, xs: seq<T>, ys: seq<T>)
    requires TotalOrder(le) && SortedListing(le, s, xs) && SortedListing(le, s, ys)
    requires |xs| > 0
    ensures |ys| > 0 && xs[0] == ys[0]
  {
    assert xs[0] in ys;
    assert ys[0] in xs;
    var i :| 0 <= i < |ys| && ys[i] == xs[0];
    var j :| 0 <= j < |xs| && xs[j] == ys[0];
  }

  lemma {:induction false} SortedListingUnique<T(!new)>(le: (T, T) -> bool, s: set<T>, xs: seq<T>, ys: seq<T>)
    requires TotalOrder(le) && SortedListing(le, s, xs) && SortedListing(le, s, ys)
    ensures xs == ys
    decreases |xs|
  {
    if |xs| == 0 {
      if |ys| > 0 {
        SortedListingHead(le, s, ys, xs);
      }
    } else {
      SortedListingHead(le, s, xs, ys);
      var t := s - {xs[0]};
      forall x ensures x in xs[1..] <==> x in t { }
      forall x ensures x in ys[1..] <==> x in t { }
      SortedListingUnique(le, t, xs[1..], ys[1..]);
      assert xs == [xs[0]] + xs[1..] && ys == [ys[0]] + ys[1..];
    }
  }

  /** `sorted(s)` for a set s and a total order without ties. */
  method SortSet<T(!new, ==)>(le: (T, T) -> bool, s: set<T>) returns (r: seq<T>)
    requires TotalOrder(le)
    ensures SortedListing(le, s, r)
    ensures |r| == |s|
  {
    r := [];
    var rest := s;
    while rest != {}
      invariant rest <= s
      invariant SortedBy(le, r)
      invariant multiset(r) == multiset(s - rest)
      invariant |r| == |s| - |rest|
      decreases rest
    {
      var x :| x in rest;
      InsertSorts(le, r, x);
      InsertPermutes(le, r, x);
      r := Insert(le, r, x);
      assert s - (rest - {x}) == (s - rest) + {x};
      rest := rest - {x};
    }
    assert s - rest == s;
    forall i, j | 0 <= i < j < |r| ensures r[i] != r[j] {
      assert r == r[..j] + [r[j]] + r[j + 1..];
      assert r[i] in r[..j];
      assert multiset(r)[r[j]] == 1;
    }
    forall x ensures x in r <==> x in s {
      assert x in r <==> x in multiset(r);
    }
  }

  /** The sorted listing of a set of strings; there is exactly one. */
  ghost function SortedTexts(s: set<string>): (r: seq<string>)
    ensures SortedListing(TextLe, s, r)
  {
    if s == {} then []
    else
      var x :| x in s;
      TextOrder();
      InsertListing(SortedTexts(s - {x}), s - {x}, x);
      Insert(TextLe, SortedTexts(s - {x}), x)
  }

  lemma InsertListing(xs: seq<string>, s: set<string>, x: string)
    requires TotalOrder(TextLe) && SortedListing(TextLe, s, xs) && x !in s
    ensures SortedListing(TextLe, s + {x}, Insert(TextLe, xs, x))
  {
    InsertSorts(TextLe, xs, x);
    InsertPermutes(TextLe, xs, x);
    var r := Insert(TextLe, xs, x);
    assert multiset(xs)[x] == 0 by { assert x !in xs; }
    forall y ensures y in r <==> y in s + {x} {
      assert y in r <==> y in multiset(r);
    }
    DistinctMultiset(xs);
    DistinctInsert(r, xs, x);
  }

  lemma {:induction false} DistinctMultiset(xs: seq<string>)
    requires forall i, j :: 0 <= i < j < |xs| ==> xs[i] != xs[j]
    ensures forall y :: multiset(xs)[y] <= 1
  {
    if |xs| > 0 {
      var init, last := xs[..|xs| - 1], xs[|xs| - 1];
      assert xs == init + [last];
      DistinctMultiset(init);
      assert last !in init;
    }
  }

  lemma DistinctInsert(r: seq<string>, xs: seq<string>, x: string)
    requires multiset(r) == multiset(xs) + multiset{x} && x !in xs
    requires forall y :: multiset(xs)[y] <= 1
    ensures forall i, j :: 0 <= i < j < |r| ==> r[i] != r[j]
  {
    forall i, j | 0 <= i < j < |r| ensures r[i] != r[j] {
      assert r == r[..j] + [r[j]] + r[j + 1..];
      assert r[i] in r[..j];
      assert multiset(xs)[x] == 0;
      assert multiset(r)[r[j]] <= 1;
    }
  }

  /** `sorted(s)` for a set of strings. */
  method SortTexts(s: set<string>) returns (r: seq<string>)
    ensures r == SortedTexts(s)
    ensures SortedListing(TextLe, s, r)
  {
    TextOrder();
    r := SortSet(TextLe, s);
    SortedListingUnique(TextLe, s, r, SortedTexts(s));
  }
}
