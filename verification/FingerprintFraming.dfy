/** run_task: the byte stream that `repository_state_bytes` feeds to the hash. */
module FingerprintFraming {
  import opened Bytes
  import opened Wrappers
  import opened Ordering
  import opened Text

  // ----- length framing -----

  const WIDTH := 8

  function Pow256(k: nat): nat {
    if k == 0 then 1 else 256 * Pow256(k - 1)
  }

  /** 2^64: `to_bytes(8, ...)` raises OverflowError from here on. */
  const LIMIT: nat := Pow256(WIDTH)

  /** `n.to_bytes(k, byteorder="big")` */
  function ToBigEndian(n: nat, k: nat): (r: Bytes)
    requires n < Pow256(k)
    ensures |r| == k
  {
    if k == 0 then [] else ToBigEndian(n / 256, k - 1) + [(n % 256) as byte]
  }

  function FromBigEndian(b: Bytes): nat {
    if |b| == 0 then 0 else 256 * FromBigEndian(b[..|b| - 1]) + (b[|b| - 1] as int)
  }

  lemma {:induction false} BigEndianRoundTrip(n: nat, k: nat)
    requires n < Pow256(k)
    ensures FromBigEndian(ToBigEndian(n, k)) == n
  {
    if k > 0 {
      BigEndianRoundTrip(n / 256, k - 1);
      var r := ToBigEndian(n, k);
      assert r[..|r| - 1] == ToBigEndian(n / 256, k - 1);
    }
  }

  predicate Fits(part: Bytes) {
    |part| < LIMIT
  }

  predicate AllFit(parts: seq<Bytes>) {
    forall i :: 0 <= i < |parts| ==> Fits(parts[i])
  }

  function Frame(part: Bytes): Bytes
    requires Fits(part)
  {
    ToBigEndian(|part|, WIDTH) + part
  }

  function Encode(parts: seq<Bytes>): Bytes
    requires AllFit(parts)
  {
    if |parts| == 0 then [] else Frame(parts[0]) + Encode(parts[1..])
  }

  /** Reads framed parts until the stream is used up. */
  function Decode(stream: Bytes): Option<seq<Bytes>>
    decreases |stream|
  {
    if |stream| == 0 then Some([])
    else if |stream| < WIDTH then None
    else
      var n := FromBigEndian(stream[..WIDTH]);
      if |stream| < WIDTH + n then None
      else
        match Decode(stream[WIDTH + n..])
        case None => None
        case Some(rest) => Some([stream[WIDTH..WIDTH + n]] + rest)
  }

  /** The stream of any parts shorter than 2^64 bytes decodes to exactly those parts. */
  lemma {:induction false} DecodeEncode(parts: seq<Bytes>)
    requires AllFit(parts)
    ensures Decode(Encode(parts)) == Some(parts)
  {
    if |parts| > 0 {
      var p := parts[0];
      var rest := Encode(parts[1..]);
      var stream := Encode(parts);
      BigEndianRoundTrip(|p|, WIDTH);
      DecodeEncode(parts[1..]);
      assert stream[..WIDTH] == ToBigEndian(|p|, WIDTH);
      assert stream[WIDTH..WIDTH + |p|] == p;
      assert stream[WIDTH + |p|..] == rest;
      assert parts == [p] + parts[1..];
    }
  }

  lemma {:induction false} EncodeAppend(a: seq<Bytes>, b: seq<Bytes>)
    requires AllFit(a) && AllFit(b)
    ensures AllFit(a + b) && Encode(a + b) == Encode(a) + Encode(b)
  {
    if |a| == 0 {
      assert a + b == b;
    } else {
      EncodeAppend(a[1..], b);
      assert (a + b)[1..] == a[1..] + b;
    }
  }

  // ----- the repository state -----

  function Ascii(s: string): (r: Bytes)
    ensures |r| == |s|
  {
    seq(|s|, i requires 0 <= i < |s| => (s[i] as int % 256) as byte)
  }

  /** What `_untracked_record` returns for a path. */
  datatype Record = Record(kind: Bytes, mode: Bytes, digest: Bytes)

  datatype Untracked = Untracked(path: Bytes, record: Record)

  datatype State = State(head: Bytes, indexDiff: Bytes, worktreeDiff: Bytes, untracked: seq<Untracked>)

  function RecordParts(u: Untracked): seq<Bytes> {
    [Ascii("untracked-path"), u.path, Ascii("untracked-kind"), u.record.kind,
     Ascii("untracked-mode"), u.record.mode, Ascii("untracked-content-sha256"), u.record.digest]
  }

  function UntrackedParts(us: seq<Untracked>): (r: seq<Bytes>)
    ensures |r| == 8 * |us|
  {
    if |us| == 0 then [] else UntrackedParts(us[..|us| - 1]) + RecordParts(us[|us| - 1])
  }

  function Header(head: Bytes, indexDiff: Bytes, worktreeDiff: Bytes): seq<Bytes> {
    [Ascii("head"), head, Ascii("index-diff"), indexDiff, Ascii("worktree-diff"), worktreeDiff]
  }

  /** Labels and payloads in the order they are hashed. */
  function Parts(s: State): seq<Bytes> {
    Header(s.head, s.indexDiff, s.worktreeDiff) + UntrackedParts(s.untracked)
  }

  lemma RecordPartsInjective(u: Untracked, v: Untracked)
    requires RecordParts(u) == RecordParts(v)
    ensures u == v
  {
    var x, y := RecordParts(u), RecordParts(v);
    assert x[1] == y[1] && x[3] == y[3] && x[5] == y[5] && x[7] == y[7];
  }

  lemma SplitTail<T>(a: seq<T>, b: seq<T>, c: seq<T>, d: seq<T>)
    requires a + b == c + d && |b| == |d|
    ensures a == c && b == d
  {
    assert a == (a + b)[..|a|] && c == (c + d)[..|c|];
    assert b == (a + b)[|a|..] && d == (c + d)[|c|..];
  }

  lemma {:induction false} UntrackedPartsInjective(a: seq<Untracked>, b: seq<Untracked>)
    requires UntrackedParts(a) == UntrackedParts(b)
    ensures a == b
  {
    assert |a| == |b|;
    if |a| > 0 {
      SplitTail(UntrackedParts(a[..|a| - 1]), RecordParts(a[|a| - 1]), UntrackedParts(b[..|b| - 1]),
                RecordParts(b[|b| - 1]));
      RecordPartsInjective(a[|a| - 1], b[|b| - 1]);
      UntrackedPartsInjective(a[..|a| - 1], b[..|b| - 1]);
      assert a == a[..|a| - 1] + [a[|a| - 1]] && b == b[..|b| - 1] + [b[|b| - 1]];
    }
  }

  /** Equal streams come from equal heads, diffs and untracked records. */
  lemma StreamDeterminesState(a: State, b: State)
    requires AllFit(Parts(a)) && AllFit(Parts(b))
    requires Encode(Parts(a)) == Encode(Parts(b))
    ensures a == b
  {
    DecodeEncode(Parts(a));
    DecodeEncode(Parts(b));
    var x, y := Parts(a), Parts(b);
    assert x == y;
    assert x[1] == y[1] && x[3] == y[3] && x[5] == y[5];
    assert x[6..] == UntrackedParts(a.untracked) && y[6..] == UntrackedParts(b.untracked);
    UntrackedPartsInjective(a.untracked, b.untracked);
  }

  // ----- feeding the hash -----

  /** A hash object: all that matters here is the bytes it was given. */
  class Hasher {
    var stream: Bytes

    constructor ()
      ensures stream == []
    {
      stream := [];
    }

    method Update(data: Bytes)
      modifies this
      ensures stream == old(stream) + data
    {
      stream := stream + data;
    }
  }

  lemma FrameAdded(start: Bytes, done: seq<Bytes>, part: Bytes)
    requires AllFit(done) && |part| < LIMIT
    ensures AllFit(done + [part])
    ensures start + Encode(done) + Frame(part) == start + Encode(done + [part])
  {
    assert [part][1..] == [];
    assert Encode([part]) == Frame(part) + [];
    EncodeAppend(done, [part]);
    ConcatAssociative(start, Encode(done), Frame(part));
  }

  /** `_hash_record`; false stands for the OverflowError of `to_bytes`. */
  method HashRecord(hasher: Hasher, name: Bytes, payload: Bytes) returns (ok: bool)
    modifies hasher
    ensures ok <==> AllFit([name, payload])
    ensures ok ==> hasher.stream == old(hasher.stream) + Encode([name, payload])
  {
    var parts := [name, payload];
    ghost var done: seq<Bytes> := [];
    for i := 0 to 2
      invariant done == parts[..i] && AllFit(done)
      invariant hasher.stream == old(hasher.stream) + Encode(done)
    {
      if |parts[i]| >= LIMIT { return false; }
      ghost var before := hasher.stream;
      hasher.Update(ToBigEndian(|parts[i]|, WIDTH));
      hasher.Update(parts[i]);
      FrameAdded(old(hasher.stream), done, parts[i]);
      ConcatAssociative(before, ToBigEndian(|parts[i]|, WIDTH), parts[i]);
      assert parts[..i + 1] == done + [parts[i]];
      done := done + [parts[i]];
    }
    assert parts[..2] == parts;
    return true;
  }

  // ----- the untracked listing -----

  function ByteCode(b: byte): int { b as int }

  predicate BytesLe(a: Bytes, b: Bytes) {
    LexLe(ByteCode, a, b)
  }

  lemma BytesOrder()
    ensures TotalOrder(BytesLe)
  {
    forall a, b ensures BytesLe(a, b) || BytesLe(b, a) { LexTotal(ByteCode, a, b); }
    forall a, b, c | BytesLe(a, b) && BytesLe(b, c) ensures BytesLe(a, c) { LexTransitive(ByteCode, a, b, c); }
    forall a, b | BytesLe(a, b) && BytesLe(b, a) ensures a == b { LexAntisymmetric(ByteCode, a, b); }
  }

  function NonEmpty(paths: seq<Bytes>): seq<Bytes> {
    if |paths| == 0 then []
    else NonEmpty(paths[..|paths| - 1]) + (if paths[|paths| - 1] == [] then [] else [paths[|paths| - 1]])
  }

  /** `sorted(path for path in untracked_raw.split(b"\0") if path)` */
  function ListedPaths(raw: Bytes): seq<Bytes> {
    StableSort(BytesLe, NonEmpty(Split(raw, 0)))
  }

  function RecordsOf(paths: seq<Bytes>, record: Bytes -> Option<Record>): (r: seq<Untracked>)
    requires forall i :: 0 <= i < |paths| ==> record(paths[i]).Some?
    ensures |r| == |paths|
  {
    seq(|paths|, i requires 0 <= i < |paths| => Untracked(paths[i], record(paths[i]).value))
  }

  /** `ls-files -z`: every path followed by a NUL. */
  function Listing(paths: seq<Bytes>): Bytes {
    if |paths| == 0 then [] else paths[0] + [0] + Listing(paths[1..])
  }

  lemma {:induction false} SplitListing(paths: seq<Bytes>)
    requires forall i :: 0 <= i < |paths| ==> paths[i] != [] && 0 !in paths[i]
    ensures Split(Listing(paths), 0) == paths + [[]]
  {
    if |paths| > 0 {
      SplitPiece(paths[0], 0, Listing(paths[1..]));
      SplitListing(paths[1..]);
      assert [paths[0]] + (paths[1..] + [[]]) == paths + [[]];
    }
  }

  lemma {:induction false} NonEmptyKeeps(paths: seq<Bytes>)
    requires forall i :: 0 <= i < |paths| ==> paths[i] != []
    ensures NonEmpty(paths) == paths
  {
    if |paths| > 0 {
      NonEmptyKeeps(paths[..|paths| - 1]);
    }
  }

  /** Two listings of the same paths, in any order, give the same path sequence and so the same stream. */
  lemma ListingOrderIrrelevant(paths: seq<Bytes>, paths': seq<Bytes>)
    requires multiset(paths) == multiset(paths')
    requires forall i :: 0 <= i < |paths| ==> paths[i] != [] && 0 !in paths[i]
    ensures ListedPaths(Listing(paths)) == ListedPaths(Listing(paths'))
    ensures multiset(ListedPaths(Listing(paths))) == multiset(paths)
  {
    forall i | 0 <= i < |paths'| ensures paths'[i] != [] && 0 !in paths'[i] {
      assert paths'[i] in multiset(paths');
      assert paths'[i] in paths;
    }
    ListedAreSorted(paths);
    ListedAreSorted(paths');
    BytesOrder();
    SortForgetsOrder(BytesLe, paths, paths');
    StableSortSorts(BytesLe, paths);
  }

  lemma ListedAreSorted(paths: seq<Bytes>)
    requires forall i :: 0 <= i < |paths| ==> paths[i] != [] && 0 !in paths[i]
    ensures ListedPaths(Listing(paths)) == StableSort(BytesLe, paths)
  {
    SplitListing(paths);
    NonEmptyOfListing(paths);
  }

  lemma NonEmptyOfListing(paths: seq<Bytes>)
    requires forall i :: 0 <= i < |paths| ==> paths[i] != []
    ensures NonEmpty(paths + [[]]) == paths
  {
    NonEmptyKeeps(paths);
    assert (paths + [[]])[..|paths|] == paths;
  }

  /** Why no fingerprint was taken. */
  datatype Fingerprint = Taken | Unavailable | HeadChanged | Overflow

  lemma PartsGrow(header: seq<Bytes>, us: seq<Untracked>, u: Untracked)
    requires AllFit(header + UntrackedParts(us)) && AllFit(RecordParts(u))
    ensures AllFit(header + UntrackedParts(us + [u]))
    ensures Encode(header + UntrackedParts(us + [u])) == Encode(header + UntrackedParts(us)) + Encode(RecordParts(u))
  {
    EncodeAppend(header + UntrackedParts(us), RecordParts(u));
    assert (us + [u])[..|us|] == us;
    assert header + UntrackedParts(us + [u]) == header + UntrackedParts(us) + RecordParts(u);
  }

  /** Some path cannot be recorded, or its record does not fit. */
  ghost predicate PathFails(paths: seq<Bytes>, record: Bytes -> Option<Record>, r: Fingerprint) {
    exists i :: 0 <= i < |paths| &&
      if record(paths[i]) == None then r.Unavailable?
      else r.Overflow? && !AllFit(RecordParts(Untracked(paths[i], record(paths[i]).value)))
  }

  method HashPaths(hasher: Hasher, paths: seq<Bytes>, record: Bytes -> Option<Record>, ghost header: seq<Bytes>)
    returns (r: Fingerprint, us: seq<Untracked>)
    requires AllFit(header) && hasher.stream == Encode(header)
    modifies hasher
    ensures r.Taken? ==>
              && (forall i :: 0 <= i < |paths| ==> record(paths[i]).Some?)
              && us == RecordsOf(paths, record)
              && AllFit(header + UntrackedParts(us)) && hasher.stream == Encode(header + UntrackedParts(us))
    ensures !r.Taken? ==> PathFails(paths, record, r)
  {
    us := [];
    assert header + UntrackedParts(us) == header;
    for i := 0 to |paths|
      invariant |us| == i
      invariant forall j :: 0 <= j < i ==> record(paths[j]).Some? && us[j] == Untracked(paths[j], record(paths[j]).value)
      invariant AllFit(header + UntrackedParts(us)) && hasher.stream == Encode(header + UntrackedParts(us))
    {
      var found := record(paths[i]);
      if found == None { return Unavailable, us; }
      var u := Untracked(paths[i], found.value);
      var ok := HashUntracked(hasher, u);
      if !ok { return Overflow, us; }
      PartsGrow(header, us, u);
      us := us + [u];
    }
    return Taken, us;
  }

  /** `repository_state_bytes` after its Git calls: `record` is what `_untracked_record` finds for a path. */
  method RepositoryStateStream(hasher: Hasher, headBefore: Bytes, indexDiff: Bytes, worktreeDiff: Bytes,
                               untrackedRaw: Bytes, record: Bytes -> Option<Record>, headAfter: Bytes)
    returns (r: Fingerprint)
    requires hasher.stream == []
    modifies hasher
    ensures r.Taken? ==>
              var paths := ListedPaths(untrackedRaw);
              && headBefore == headAfter
              && (forall i :: 0 <= i < |paths| ==> record(paths[i]).Some?)
              && var state := State(headBefore, indexDiff, worktreeDiff, RecordsOf(paths, record));
                 && AllFit(Parts(state)) && hasher.stream == Encode(Parts(state))
                 && |state.untracked| == |paths|
                 && forall i :: 0 <= i < |paths| ==>
                      state.untracked[i].path == paths[i] && record(paths[i]) == Some(state.untracked[i].record)
    ensures r.HeadChanged? ==> headBefore != headAfter
    ensures r.Unavailable? ==> PathFails(ListedPaths(untrackedRaw), record, r)
    ensures r.Overflow? ==>
              !AllFit(Header(headBefore, indexDiff, worktreeDiff)) || PathFails(ListedPaths(untrackedRaw), record, r)
  {
    var ok := HashHeader(hasher, headBefore, indexDiff, worktreeDiff);
    if !ok { return Overflow; }
    ghost var header := Header(headBefore, indexDiff, worktreeDiff);
    var paths := ListedPaths(untrackedRaw);
    var found;
    r, found := HashPaths(hasher, paths, record, header);
    if !r.Taken? { return; }
    assert found == RecordsOf(paths, record);
    if headBefore != headAfter { return HeadChanged; }
    return Taken;
  }

  lemma AppendThree(s: Bytes, a: Bytes, b: Bytes, c: Bytes)
    ensures s + a + b + c == s + (a + b + c)
  {
  }

  lemma HeaderEncoding(head: Bytes, indexDiff: Bytes, worktreeDiff: Bytes)
    requires AllFit([Ascii("head"), head]) && AllFit([Ascii("index-diff"), indexDiff])
    requires AllFit([Ascii("worktree-diff"), worktreeDiff])
    ensures AllFit(Header(head, indexDiff, worktreeDiff))
    ensures Encode(Header(head, indexDiff, worktreeDiff)) ==
            Encode([Ascii("head"), head]) + Encode([Ascii("index-diff"), indexDiff])
            + Encode([Ascii("worktree-diff"), worktreeDiff])
  {
    var a, b, c := [Ascii("head"), head], [Ascii("index-diff"), indexDiff], [Ascii("worktree-diff"), worktreeDiff];
    EncodeAppend(a, b);
    EncodeAppend(a + b, c);
    assert a + b + c == Header(head, indexDiff, worktreeDiff);
  }

  /** A header fits when its records do. */
  lemma HeaderFits(head: Bytes, indexDiff: Bytes, worktreeDiff: Bytes)
    ensures AllFit(Header(head, indexDiff, worktreeDiff)) <==>
              && AllFit([Ascii("head"), head]) && AllFit([Ascii("index-diff"), indexDiff])
              && AllFit([Ascii("worktree-diff"), worktreeDiff])
  {
    var x := Header(head, indexDiff, worktreeDiff);
    if AllFit(x) {
      assert Fits(x[0]) && Fits(x[1]) && Fits(x[2]) && Fits(x[3]) && Fits(x[4]) && Fits(x[5]);
    } else if AllFit([Ascii("head"), head]) && AllFit([Ascii("index-diff"), indexDiff])
              && AllFit([Ascii("worktree-diff"), worktreeDiff]) {
      HeaderEncoding(head, indexDiff, worktreeDiff);
    }
  }

  method HashHeader(hasher: Hasher, head: Bytes, indexDiff: Bytes, worktreeDiff: Bytes) returns (ok: bool)
    modifies hasher
    ensures ok <==> AllFit(Header(head, indexDiff, worktreeDiff))
    ensures ok ==> hasher.stream == old(hasher.stream) + Encode(Header(head, indexDiff, worktreeDiff))
  {
    HeaderFits(head, indexDiff, worktreeDiff);
    ok := HashRecord(hasher, Ascii("head"), head);
    if !ok { return; }
    ok := HashRecord(hasher, Ascii("index-diff"), indexDiff);
    if !ok { return; }
    ok := HashRecord(hasher, Ascii("worktree-diff"), worktreeDiff);
    if !ok { return; }
    HeaderEncoding(head, indexDiff, worktreeDiff);
    AppendThree(old(hasher.stream), Encode([Ascii("head"), head]), Encode([Ascii("index-diff"), indexDiff]),
                Encode([Ascii("worktree-diff"), worktreeDiff]));
  }

  lemma RecordEncoding(u: Untracked)
    requires AllFit([Ascii("untracked-path"), u.path]) && AllFit([Ascii("untracked-kind"), u.record.kind])
    requires AllFit([Ascii("untracked-mode"), u.record.mode])
    requires AllFit([Ascii("untracked-content-sha256"), u.record.digest])
    ensures AllFit(RecordParts(u))
    ensures Encode(RecordParts(u)) ==
            Encode([Ascii("untracked-path"), u.path]) + Encode([Ascii("untracked-kind"), u.record.kind])
            + Encode([Ascii("untracked-mode"), u.record.mode])
            + Encode([Ascii("untracked-content-sha256"), u.record.digest])
  {
    var a, b := [Ascii("untracked-path"), u.path], [Ascii("untracked-kind"), u.record.kind];
    var c, d := [Ascii("untracked-mode"), u.record.mode], [Ascii("untracked-content-sha256"), u.record.digest];
    EncodeAppend(a, b);
    EncodeAppend(a + b, c);
    EncodeAppend(a + b + c, d);
    assert a + b + c + d == RecordParts(u);
  }

  lemma RecordFits(u: Untracked)
    ensures AllFit(RecordParts(u)) <==>
              && AllFit([Ascii("untracked-path"), u.path]) && AllFit([Ascii("untracked-kind"), u.record.kind])
              && AllFit([Ascii("untracked-mode"), u.record.mode])
              && AllFit([Ascii("untracked-content-sha256"), u.record.digest])
  {
    var x := RecordParts(u);
    if AllFit(x) {
      assert Fits(x[0]) && Fits(x[1]) && Fits(x[2]) && Fits(x[3]) && Fits(x[4]) && Fits(x[5]) && Fits(x[6]) && Fits(x[7]);
    } else if && AllFit([Ascii("untracked-path"), u.path]) && AllFit([Ascii("untracked-kind"), u.record.kind])
              && AllFit([Ascii("untracked-mode"), u.record.mode])
              && AllFit([Ascii("untracked-content-sha256"), u.record.digest]) {
      RecordEncoding(u);
    }
  }

  /** The four records of one untracked path. */
  method HashUntracked(hasher: Hasher, u: Untracked) returns (ok: bool)
    modifies hasher
    ensures ok <==> AllFit(RecordParts(u))
    ensures ok ==> hasher.stream == old(hasher.stream) + Encode(RecordParts(u))
  {
    RecordFits(u);
    ok := HashRecord(hasher, Ascii("untracked-path"), u.path);
    if !ok { return; }
    ghost var first := hasher.stream;
    ok := HashRecord(hasher, Ascii("untracked-kind"), u.record.kind);
    if !ok { return; }
    ok := HashRecord(hasher, Ascii("untracked-mode"), u.record.mode);
    if !ok { return; }
    ok := HashRecord(hasher, Ascii("untracked-content-sha256"), u.record.digest);
    if !ok { return; }
    RecordEncoding(u);
    AppendFour(old(hasher.stream), Encode([Ascii("untracked-path"), u.path]),
               Encode([Ascii("untracked-kind"), u.record.kind]),
               Encode([Ascii("untracked-mode"), u.record.mode]), Encode([Ascii("untracked-content-sha256"), u.record.digest]));
  }

  lemma AppendFour(s: Bytes, a: Bytes, b: Bytes, c: Bytes, d: Bytes)
    ensures s + a + b + c + d == s + (a + b + c + d)
  {
  }
}
