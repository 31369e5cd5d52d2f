/** run_task: what stands where in the bytes that are hashed. */
module StreamLayout {
  import opened Bytes
  import opened Ordering
  import opened FingerprintFraming
  import Text

  /** Eight bytes that stand for n, the most significant first. */
  predicate LengthBytes(b: Bytes, n: nat) {
    && |b| == 8
    && n == 0x100_0000_0000_0000 * (b[0] as int) + 0x1_0000_0000_0000 * (b[1] as int) + 0x100_0000_0000 * (b[2] as int)
            + 0x1_0000_0000 * (b[3] as int) + 0x100_0000 * (b[4] as int) + 0x1_0000 * (b[5] as int) + 0x100 * (b[6] as int)
            + (b[7] as int)
  }

  lemma FromNext(b: Bytes, n: nat)
    requires n < |b|
    ensures FromBigEndian(b[..n + 1]) == 256 * FromBigEndian(b[..n]) + (b[n] as int)
  {
    assert b[..n + 1][..n] == b[..n];
  }

  /** The length field of a part, and how long a part can be. */
  lemma LengthMeans(n: nat)
    ensures LIMIT == 0x1_0000_0000_0000_0000
    ensures n < LIMIT ==> LengthBytes(ToBigEndian(n, WIDTH), n)
  {
    PowersOf256();
    if n < LIMIT {
      var b := ToBigEndian(n, WIDTH);
      BigEndianRoundTrip(n, WIDTH);
      assert b[..0] == [] && b[..8] == b;
      FromNext(b, 0);
      FromNext(b, 1);
      FromNext(b, 2);
      FromNext(b, 3);
      FromNext(b, 4);
      FromNext(b, 5);
      FromNext(b, 6);
      FromNext(b, 7);
    }
  }

  lemma PowersOf256()
    ensures Pow256(8) == 0x1_0000_0000_0000_0000
  {
    assert Pow256(2) == 0x1_0000;
    assert Pow256(4) == 0x1_0000_0000;
    assert Pow256(6) == 0x1_0000_0000_0000;
  }

  /** A name and a payload, each after its length. */
  ghost predicate Labelled(b: Bytes, name: string, payload: Bytes) {
    && |b| == 16 + |name| + |payload|
    && LengthBytes(b[..8], |name|)
    && (forall i :: 0 <= i < |name| ==> b[8 + i] as int == name[i] as int)
    && LengthBytes(b[8 + |name|..16 + |name|], |payload|)
    && b[16 + |name|..] == payload
  }

  /** Every character has a one-byte code. */
  predicate Latin(s: string) {
    forall i :: 0 <= i < |s| ==> s[i] as int < 256
  }

  lemma LabelMeans(name: string, payload: Bytes)
    requires Latin(name) && AllFit([Ascii(name), payload])
    ensures Labelled(Encode([Ascii(name), payload]), name, payload)
  {
    var b := Encode([Ascii(name), payload]);
    assert [Ascii(name), payload][0] == Ascii(name) && [Ascii(name), payload][1] == payload;
    assert Fits(Ascii(name)) && Fits(payload);
    LengthMeans(|name|);
    LengthMeans(|payload|);
    var one, two := ToBigEndian(|name|, WIDTH), ToBigEndian(|payload|, WIDTH);
    TwoFrames(Ascii(name), payload);
    assert b == one + Ascii(name) + two + payload;
    assert b[..8] == one;
    assert b[8 + |name|..16 + |name|] == two;
    assert b[16 + |name|..] == payload;
  }

  lemma TwoFrames(a: Bytes, b: Bytes)
    requires AllFit([a, b]) && Fits(a) && Fits(b)
    ensures Encode([a, b]) == ToBigEndian(|a|, WIDTH) + a + ToBigEndian(|b|, WIDTH) + b
  {
    assert [a, b][1..] == [b] && [b][1..] == [];
    assert Encode([b]) == Frame(b) + [];
  }

  /** The four records of an untracked path. */
  ghost predicate UntrackedBytes(b: Bytes, u: Untracked) {
    exists p, k, m, d :: b == p + k + m + d
      && Labelled(p, "untracked-path", u.path) && Labelled(k, "untracked-kind", u.record.kind)
      && Labelled(m, "untracked-mode", u.record.mode) && Labelled(d, "untracked-content-sha256", u.record.digest)
  }

  /** One after the other. */
  ghost predicate ListBytes(b: Bytes, us: seq<Untracked>)
    decreases |us|
  {
    if |us| == 0 then b == []
    else
      var n := |us| - 1;
      exists k :: 0 <= k <= |b| && ListBytes(b[..k], us[..n]) && UntrackedBytes(b[k..], us[n])
  }

  /** The whole stream of a repository state. */
  ghost predicate Layout(b: Bytes, s: State) {
    exists h, i, w, rest :: b == h + i + w + rest
      && Labelled(h, "head", s.head) && Labelled(i, "index-diff", s.indexDiff) && Labelled(w, "worktree-diff", s.worktreeDiff)
      && ListBytes(rest, s.untracked)
  }

  lemma NamesAreLatin()
    ensures Latin("head") && Latin("index-diff") && Latin("worktree-diff")
    ensures Latin("untracked-path") && Latin("untracked-kind") && Latin("untracked-mode") && Latin("untracked-content-sha256")
  { }

  lemma UntrackedMeans(u: Untracked)
    requires AllFit(RecordParts(u))
    ensures UntrackedBytes(Encode(RecordParts(u)), u)
  {
    RecordFits(u);
    RecordEncoding(u);
    NamesAreLatin();
    LabelMeans("untracked-path", u.path);
    LabelMeans("untracked-kind", u.record.kind);
    LabelMeans("untracked-mode", u.record.mode);
    LabelMeans("untracked-content-sha256", u.record.digest);
  }

  lemma FitsApart(a: seq<Bytes>, b: seq<Bytes>)
    requires AllFit(a + b)
    ensures AllFit(a) && AllFit(b)
  {
    forall i | 0 <= i < |a| ensures Fits(a[i]) {
      assert (a + b)[i] == a[i];
    }
    forall i | 0 <= i < |b| ensures Fits(b[i]) {
      assert (a + b)[|a| + i] == b[i];
    }
  }

  lemma {:induction false} ListMeans(us: seq<Untracked>)
    requires AllFit(UntrackedParts(us))
    ensures ListBytes(Encode(UntrackedParts(us)), us)
  {
    if |us| > 0 {
      var init, last := us[..|us| - 1], us[|us| - 1];
      FitsApart(UntrackedParts(init), RecordParts(last));
      ListMeans(init);
      UntrackedMeans(last);
      EncodeAppend(UntrackedParts(init), RecordParts(last));
      ListNext(Encode(UntrackedParts(init)), Encode(RecordParts(last)), us);
    }
  }

  lemma ListNext(before: Bytes, next: Bytes, us: seq<Untracked>)
    requires |us| > 0 && ListBytes(before, us[..|us| - 1]) && UntrackedBytes(next, us[|us| - 1])
    ensures ListBytes(before + next, us)
  {
    assert (before + next)[..|before|] == before && (before + next)[|before|..] == next;
  }

  /** What is hashed of a state: its parts behind their names, each with its length in eight bytes in front. */
  lemma StreamMeans(s: State)
    requires AllFit(Parts(s))
    ensures Layout(Encode(Parts(s)), s)
  {
    FitsApart(Header(s.head, s.indexDiff, s.worktreeDiff), UntrackedParts(s.untracked));
    EncodeAppend(Header(s.head, s.indexDiff, s.worktreeDiff), UntrackedParts(s.untracked));
    HeaderFits(s.head, s.indexDiff, s.worktreeDiff);
    HeaderEncoding(s.head, s.indexDiff, s.worktreeDiff);
    NamesAreLatin();
    LabelMeans("head", s.head);
    LabelMeans("index-diff", s.indexDiff);
    LabelMeans("worktree-diff", s.worktreeDiff);
    ListMeans(s.untracked);
  }

  /** The paths are hashed in ascending order of their bytes: a prefix first, else by the first difference. */
  lemma PathsAscend(raw: Bytes, i: nat, j: nat)
    requires i < j < |ListedPaths(raw)|
    ensures var a, b := ListedPaths(raw)[i], ListedPaths(raw)[j];
            a <= b || exists k :: 0 <= k < |a| && k < |b| && a[..k] == b[..k] && a[k] < b[k]
  {
    BytesOrder();
    StableSortSorts(BytesLe, NonEmpty(Text.Split(raw, 0)));
    var a, b := ListedPaths(raw)[i], ListedPaths(raw)[j];
    LexMeans(ByteCode, a, b);
    if k: nat :| FirstBelow(ByteCode, a, b, k) {
      assert a[..k] == b[..k] && a[k] < b[k];
    }
  }
}
