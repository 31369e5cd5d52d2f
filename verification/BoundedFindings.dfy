/** audit_domain_edge_references: the finding list that keeps only the first entries of the sorted findings. */
module BoundedFindings {
  import opened Wrappers
  import opened Ordering

  /** The type hint and its type are shown, but do not count in the order. */
  datatype Finding = Finding(classification: string, side: string, edgeRef: string, targetRef: Option<string>,
                             typeHint: Option<string>, typeHintType: Option<string>)

  /** `finding_sort_key`: a missing target reference sorts as the text `None`. */
  function SortKey(f: Finding): seq<string> {
    [f.classification, f.side, f.edgeRef, if f.targetRef.Some? then f.targetRef.value else "None"]
  }

  // ----- the order of the keys -----

  predicate TupleLe(a: seq<string>, b: seq<string>)
    decreases |a|
  {
    |a| == 0 || (|b| > 0 && if a[0] == b[0] then TupleLe(a[1..], b[1..]) else TextLe(a[0], b[0]))
  }

  lemma {:induction false} TupleTotal(a: seq<string>, b: seq<string>)
    ensures TupleLe(a, b) || TupleLe(b, a)
    decreases |a|
  {
    TextOrder();
    if |a| > 0 && |b| > 0 {
      TupleTotal(a[1..], b[1..]);
    }
  }

  lemma {:induction false} TupleTransitive(a: seq<string>, b: seq<string>, c: seq<string>)
    requires TupleLe(a, b) && TupleLe(b, c)
    ensures TupleLe(a, c)
    decreases |a|
  {
    TextOrder();
    if |a| > 0 && a[0] == b[0] == c[0] {
      TupleTransitive(a[1..], b[1..], c[1..]);
    }
  }

  predicate KeyLe(a: Finding, b: Finding) {
    TupleLe(SortKey(a), SortKey(b))
  }

  lemma KeyOrder()
    ensures TotalPreorder(KeyLe)
  {
    forall a, b ensures KeyLe(a, b) || KeyLe(b, a) { TupleTotal(SortKey(a), SortKey(b)); }
    forall a, b, c | KeyLe(a, b) && KeyLe(b, c) ensures KeyLe(a, c) {
      TupleTransitive(SortKey(a), SortKey(b), SortKey(c));
    }
  }

  // ----- keeping a sorted prefix -----

  function Take<T>(k: int, s: seq<T>): (r: seq<T>) {
    if k <= 0 then [] else if k < |s| then s[..k] else s
  }

  lemma {:induction false} SortOfSorted<T(!new)>(le: (T, T) -> bool, xs: seq<T>)
    requires TotalPreorder(le) && SortedBy(le, xs)
    ensures StableSort(le, xs) == xs
  {
    StableSortSorts(le, xs);
    StableSortUnique(le, StableSort(le, xs), xs);
  }

  /** Inserting into a sorted prefix and cutting it again gives the prefix of the whole insertion. */
  lemma {:induction false} InsertIntoPrefix<T(!new)>(le: (T, T) -> bool, xs: seq<T>, k: nat, x: T)
    requires TotalPreorder(le) && SortedBy(le, xs) && k <= |xs|
    ensures Insert(le, xs[..k], x)[..k] == Insert(le, xs, x)[..k]
  {
    if k == |xs| {
      assert xs[..k] == xs;
    } else {
      var init, last := xs[..|xs| - 1], xs[|xs| - 1];
      assert init[..k] == xs[..k];
      if le(last, x) {
        if k > 0 {
          assert le(xs[k - 1], last);
          assert le(xs[..k][k - 1], x);
        }
        assert Insert(le, xs, x) == xs + [x];
        assert Insert(le, xs[..k], x) == xs[..k] + [x];
      } else {
        InsertIntoPrefix(le, init, k, x);
      }
    }
  }

  /** Sorting one more finding into the first k of the sorted findings keeps the first k of all of them. */
  lemma AppendKeepsPrefix<T(!new)>(le: (T, T) -> bool, all: seq<T>, k: nat, x: T)
    requires TotalPreorder(le)
    ensures var kept := StableSort(le, Take(k, StableSort(le, all)) + [x]);
            && |kept| == |Take(k, all)| + 1
            && Take(k, kept) == Take(k, StableSort(le, all + [x]))
  {
    var sorted := StableSort(le, all);
    StableSortSorts(le, all);
    SortNext(le, all, x);
    KeepPrefix(le, sorted, k, x);
  }

  lemma SortNext<T(!new)>(le: (T, T) -> bool, all: seq<T>, x: T)
    ensures StableSort(le, all + [x]) == Insert(le, StableSort(le, all), x)
  {
    assert (all + [x])[..|all|] == all;
  }

  lemma KeepPrefix<T(!new)>(le: (T, T) -> bool, sorted: seq<T>, k: nat, x: T)
    requires TotalPreorder(le) && SortedBy(le, sorted)
    ensures var kept := StableSort(le, Take(k, sorted) + [x]);
            |kept| == |Take(k, sorted)| + 1 && Take(k, kept) == Take(k, Insert(le, sorted, x))
  {
    var prefix := Take(k, sorted);
    assert SortedBy(le, prefix);
    SortOfSorted(le, prefix);
    SortNext(le, prefix, x);
    if k < |sorted| {
      InsertIntoPrefix(le, sorted, k, x);
    }
  }

  // ----- the list -----

  /** What the list holds after these findings: all of them without a limit, the first of the sorted ones with one. */
  function Held(maxFindings: int, all: seq<Finding>): seq<Finding> {
    if maxFindings == -1 then all else Take(maxFindings, StableSort(KeyLe, all))
  }

  lemma TakeAppend<T(!new)>(le: (T, T) -> bool, limit: int, all: seq<T>, x: T)
    requires TotalPreorder(le) && limit != 0
    ensures var kept := StableSort(le, Take(limit, StableSort(le, all)) + [x]);
            && Take(limit, StableSort(le, all + [x])) == (if |kept| > limit then kept[..|kept| - 1] else kept)
            && (|kept| > limit <==> |all| + 1 > limit)
  {
    AppendKeepsPrefix(le, all, if limit > 0 then limit else 0, x);
  }

  lemma HeldAppend(maxFindings: int, all: seq<Finding>, finding: Finding)
    requires maxFindings != -1 && maxFindings != 0
    ensures var kept := StableSort(KeyLe, Held(maxFindings, all) + [finding]);
            && Held(maxFindings, all + [finding]) == (if |kept| > maxFindings then kept[..|kept| - 1] else kept)
            && (|kept| > maxFindings <==> |all| + 1 > maxFindings)
  {
    KeyOrder();
    TakeAppend(KeyLe, maxFindings, all, finding);
  }

  class FindingLog {
    const maxFindings: int
    var findings: seq<Finding>
    ghost var all: seq<Finding>

    ghost predicate Valid()
      reads this
    {
      findings == Held(maxFindings, all)
    }

    constructor (maxFindings: int)
      ensures Valid() && this.maxFindings == maxFindings && all == []
    {
      this.maxFindings := maxFindings;
      findings, all := [], [];
    }

    /** `append_finding`: the result says whether a finding was dropped. */
    method Append(finding: Finding) returns (truncated: bool)
      requires Valid()
      modifies this
      ensures Valid() && all == old(all) + [finding]
      ensures truncated <==> maxFindings != -1 && |all| > maxFindings
    {
      all := all + [finding];
      if maxFindings == -1 {
        findings := findings + [finding];
        return false;
      }
      if maxFindings == 0 {
        return true;
      }
      HeldAppend(maxFindings, old(all), finding);
      findings := findings + [finding];
      findings := StableSort(KeyLe, findings);
      if |findings| > maxFindings {
        findings := findings[..|findings| - 1];
        return true;
      }
      return false;
    }

    /** `findings.sort(key=finding_sort_key)` before the report. */
    method Finish() returns (report: seq<Finding>)
      requires Valid()
      modifies this`findings
      ensures report == findings == Reported(maxFindings, all)
    {
      KeyOrder();
      ReportIsSorted(maxFindings, all);
      findings := StableSort(KeyLe, findings);
      report := findings;
    }
  }

  function Reported(maxFindings: int, all: seq<Finding>): seq<Finding> {
    if maxFindings == -1 then StableSort(KeyLe, all) else Take(maxFindings, StableSort(KeyLe, all))
  }

  /** The last sort only matters without a limit. */
  lemma ReportIsSorted(maxFindings: int, all: seq<Finding>)
    ensures StableSort(KeyLe, Held(maxFindings, all)) == Reported(maxFindings, all)
    ensures SortedBy(KeyLe, Reported(maxFindings, all))
  {
    KeyOrder();
    StableSortSorts(KeyLe, all);
    if maxFindings != -1 {
      assert SortedBy(KeyLe, Held(maxFindings, all));
      SortOfSorted(KeyLe, Held(maxFindings, all));
    }
  }

  // ----- what the report shows -----

  function TargetText(f: Finding): string {
    match f.targetRef
    case None => "None"
    case Some(ref) => ref
  }

  /** By classification, then side, then edge, then target. */
  ghost predicate Precedes(a: Finding, b: Finding) {
    if a.classification != b.classification then TextLe(a.classification, b.classification)
    else if a.side != b.side then TextLe(a.side, b.side)
    else if a.edgeRef != b.edgeRef then TextLe(a.edgeRef, b.edgeRef)
    else TextLe(TargetText(a), TargetText(b))
  }

  lemma TupleStep(a: seq<string>, b: seq<string>)
    requires |a| > 0 && |b| > 0
    ensures TupleLe(a, b) <==> if a[0] == b[0] then TupleLe(a[1..], b[1..]) else TextLe(a[0], b[0])
  { }

  lemma KeyLeMeans(a: Finding, b: Finding)
    ensures KeyLe(a, b) <==> Precedes(a, b)
  {
    var x, y := SortKey(a), SortKey(b);
    TextOrder();
    TupleStep(x, y);
    TupleStep(x[1..], y[1..]);
    TupleStep(x[1..][1..], y[1..][1..]);
    TupleStep(x[1..][1..][1..], y[1..][1..][1..]);
    assert x[1..] == [a.side, a.edgeRef, x[3]] && y[1..] == [b.side, b.edgeRef, y[3]];
    assert x[1..][1..] == [a.edgeRef, x[3]] && y[1..][1..] == [b.edgeRef, y[3]];
    assert x[1..][1..][1..] == [x[3]] && y[1..][1..][1..] == [y[3]];
    assert x[1..][1..][1..][1..] == [] == y[1..][1..][1..][1..];
  }

  lemma {:induction false} TiedPrefix<T(!new)>(le: (T, T) -> bool, k: T, xs: seq<T>, n: nat)
    requires n <= |xs|
    ensures Tied(le, k, xs[..n]) <= Tied(le, k, xs)
  {
    if n < |xs| {
      TiedPrefix(le, k, xs[..|xs| - 1], n);
      assert xs[..|xs| - 1][..n] == xs[..n];
    } else {
      assert xs[..n] == xs;
    }
  }

  /** How many of so many findings are reported; -1 stands for no limit. */
  function Limit(maxFindings: int, found: nat): nat {
    if maxFindings == -1 || maxFindings > found then found else if maxFindings < 0 then 0 else maxFindings
  }

  lemma ReportIsCut(maxFindings: int, all: seq<Finding>)
    ensures Reported(maxFindings, all) == StableSort(KeyLe, all)[..Limit(maxFindings, |all|)]
  { }

  /** The report is sorted, leaves out only findings that come after all reported ones, and only beyond the limit; findings
      with the same key come in the order in which they were found. */
  lemma ReportMeans(maxFindings: int, all: seq<Finding>) returns (dropped: seq<Finding>)
    ensures var report := Reported(maxFindings, all);
            && multiset(report) + multiset(dropped) == multiset(all)
            && (forall i, j :: 0 <= i < j < |report| ==> Precedes(report[i], report[j]))
            && (forall x, y :: x in report && y in dropped ==> Precedes(x, y))
            && (forall k :: Tied(KeyLe, k, report) <= Tied(KeyLe, k, all))
            && |report| == Limit(maxFindings, |all|)
  {
    var sorted := StableSort(KeyLe, all);
    KeyOrder();
    StableSortSorts(KeyLe, all);
    var n := Limit(maxFindings, |all|);
    dropped := sorted[n..];
    ReportIsCut(maxFindings, all);
    assert sorted == sorted[..n] + dropped;
    SortedCut(sorted, n);
    forall k ensures Tied(KeyLe, k, sorted[..n]) <= Tied(KeyLe, k, all) {
      TiedPrefix(KeyLe, k, sorted, n);
    }
  }

  lemma SortedCut(sorted: seq<Finding>, n: nat)
    requires SortedBy(KeyLe, sorted) && n <= |sorted|
    ensures forall i, j :: 0 <= i < j < n ==> Precedes(sorted[..n][i], sorted[..n][j])
    ensures forall x, y :: x in sorted[..n] && y in sorted[n..] ==> Precedes(x, y)
  {
    forall i, j | 0 <= i < j < |sorted| ensures Precedes(sorted[i], sorted[j]) {
      KeyLeMeans(sorted[i], sorted[j]);
    }
    forall x, y | x in sorted[..n] && y in sorted[n..] ensures Precedes(x, y) {
      var i :| 0 <= i < n && sorted[i] == x;
      var j :| n <= j < |sorted| && sorted[j] == y;
    }
  }
}
