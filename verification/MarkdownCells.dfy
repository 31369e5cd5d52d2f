/** A grammar of table cells: plain characters, escape pairs, and code spans; every such cell survives a printed row. */
module MarkdownCells {
  import opened Wrappers
  import opened Text
  import opened MarkdownRow

  /** One character, a backslash with the character behind it, or a run of backticks. */
  datatype Atom = Plain(c: char) | Pair(c: char) | Run(n: nat)

  datatype Piece = Bare(atom: Atom) | Span(ticks: nat, inner: seq<Atom>)

  function Backticks(n: nat): (s: string)
    ensures |s| == n && forall i :: 0 <= i < n ==> s[i] == '`'
  {
    if n == 0 then "" else "`" + Backticks(n - 1)
  }

  function AtomText(a: Atom): string {
    match a
    case Plain(c) => [c]
    case Pair(c) => ['\\', c]
    case Run(n) => Backticks(n)
  }

  function InnerText(inner: seq<Atom>): string {
    if |inner| == 0 then "" else AtomText(inner[0]) + InnerText(inner[1..])
  }

  function PieceText(p: Piece): string {
    match p
    case Bare(a) => AtomText(a)
    case Span(n, inner) => Backticks(n) + (InnerText(inner) + Backticks(n))
  }

  function CellText(pieces: seq<Piece>): string {
    if |pieces| == 0 then "" else PieceText(pieces[0]) + CellText(pieces[1..])
  }

  /** Inside a span of k backticks pipes are plain, and a run of backticks has another length. */
  predicate InnerAtom(a: Atom, k: nat) {
    match a
    case Plain(c) => c != '`' && c != '\\'
    case Pair(_) => true
    case Run(n) => n > 0 && n != k
  }

  /** A run is followed by another kind of atom. */
  predicate Followed(inner: seq<Atom>, i: nat)
    requires i < |inner|
  {
    inner[i].Run? ==> i + 1 < |inner| && !inner[i + 1].Run?
  }

  /** Runs are not adjacent, and the last atom is none. */
  predicate InnerAtoms(inner: seq<Atom>, k: nat) {
    && (forall i :: 0 <= i < |inner| ==> InnerAtom(inner[i], k))
    && (forall i :: 0 <= i < |inner| ==> Followed(inner, i))
  }

  /** Outside of spans a pipe must be escaped; a span holds at least one atom and does not begin with a run. */
  predicate GoodPiece(p: Piece) {
    match p
    case Bare(Plain(c)) => c != '`' && c != '\\' && c != '|'
    case Bare(Pair(_)) => true
    case Bare(Run(_)) => false
    case Span(k, inner) => k > 0 && |inner| > 0 && !inner[0].Run? && InnerAtoms(inner, k)
  }

  /** A cell: good pieces, no two spans side by side. */
  predicate GoodCell(pieces: seq<Piece>) {
    && (forall i :: 0 <= i < |pieces| ==> GoodPiece(pieces[i]))
    && (forall i :: 0 <= i < |pieces| - 1 ==> !(pieces[i].Span? && pieces[i + 1].Span?))
  }

  predicate NoTick(s: string) {
    |s| > 0 ==> s[0] != '`'
  }

  lemma ScanToken(token: string, rest: string, code: Option<string>)
    requires |token| > 0 && Token(token + rest) == |token| && !(token[0] == '|' && code == None)
    ensures Scan(token + rest, code) == Scan(rest, Delimiter(token, code))
  {
    var s := token + rest;
    assert s[..|token|] == token && s[|token|..] == rest;
  }

  lemma ScanTicks(n: nat, rest: string, code: Option<string>)
    requires n > 0 && NoTick(rest)
    ensures Scan(Backticks(n) + rest, code) == Scan(rest, Delimiter(Backticks(n), code))
  {
    var s := Backticks(n) + rest;
    TicksIs(s, n);
    ScanToken(Backticks(n), rest, code);
  }

  /** Inside a span, an atom leaves the delimiter as it is. */
  lemma ScanAtom(a: Atom, k: nat, rest: string)
    requires k > 0 && InnerAtom(a, k) && (a.Run? ==> NoTick(rest))
    ensures Scan(AtomText(a) + rest, Some(Backticks(k))) == Scan(rest, Some(Backticks(k)))
  {
    match a {
      case Run(n) =>
        ScanTicks(n, rest, Some(Backticks(k)));
        assert |Backticks(n)| != |Backticks(k)|;
      case Pair(c) => ScanToken(AtomText(a), rest, Some(Backticks(k)));
      case Plain(c) => ScanToken(AtomText(a), rest, Some(Backticks(k)));
    }
  }

  lemma AtomNoTick(inner: seq<Atom>, k: nat, rest: string)
    requires InnerAtoms(inner, k) && |inner| > 0 && !inner[0].Run?
    ensures NoTick(InnerText(inner) + rest)
  {
    assert InnerAtom(inner[0], k);
    assert (InnerText(inner) + rest)[0] == AtomText(inner[0])[0];
  }

  lemma InnerTail(inner: seq<Atom>, k: nat)
    requires InnerAtoms(inner, k) && |inner| > 0
    ensures InnerAtoms(inner[1..], k) && (inner[0].Run? ==> |inner| > 1 && !inner[1].Run?)
  {
    var tail := inner[1..];
    assert Followed(inner, 0);
    forall i | 0 <= i < |tail| ensures InnerAtom(tail[i], k) && Followed(tail, i) {
      assert tail[i] == inner[i + 1] && Followed(inner, i + 1);
    }
  }

  /** The rest of a span, up to the run that closes it. */
  lemma {:induction false} ScanInner(inner: seq<Atom>, k: nat, rest: string)
    requires k > 0 && InnerAtoms(inner, k) && NoTick(rest)
    ensures Scan(InnerText(inner) + (Backticks(k) + rest), Some(Backticks(k))) == Scan(rest, None)
  {
    var close := Backticks(k) + rest;
    if |inner| == 0 {
      assert InnerText(inner) + close == close;
      ScanTicks(k, rest, Some(Backticks(k)));
    } else {
      var a, tail := inner[0], inner[1..];
      ConcatAssociative(AtomText(a), InnerText(tail), close);
      assert InnerAtom(inner[0], k);
      InnerTail(inner, k);
      if a.Run? {
        AtomNoTick(tail, k, close);
      }
      ScanAtom(a, k, InnerText(tail) + close);
      ScanInner(tail, k, rest);
    }
  }

  lemma SpanText(k: nat, inner: seq<Atom>, rest: string)
    ensures PieceText(Span(k, inner)) + rest == Backticks(k) + (InnerText(inner) + (Backticks(k) + rest))
  { }

  /** Outside of code, a good piece leaves no code open. */
  lemma ScanPiece(p: Piece, rest: string)
    requires GoodPiece(p) && (p.Span? ==> NoTick(rest))
    ensures Scan(PieceText(p) + rest, None) == Scan(rest, None)
  {
    match p {
      case Bare(a) => ScanToken(AtomText(a), rest, None);
      case Span(k, inner) =>
        SpanText(k, inner, rest);
        AtomNoTick(inner, k, Backticks(k) + rest);
        ScanTicks(k, InnerText(inner) + (Backticks(k) + rest), None);
        ScanInner(inner, k, rest);
    }
  }

  lemma CellNoTick(pieces: seq<Piece>, rest: string)
    requires GoodCell(pieces) && (|pieces| == 0 ==> NoTick(rest)) && (|pieces| > 0 ==> !pieces[0].Span?)
    ensures NoTick(CellText(pieces) + rest)
  {
    if |pieces| == 0 {
      assert CellText(pieces) + rest == rest;
    } else {
      assert GoodPiece(pieces[0]);
      assert (CellText(pieces) + rest)[0] == PieceText(pieces[0])[0];
    }
  }

  lemma {:induction false} ScanCell(pieces: seq<Piece>, rest: string)
    requires GoodCell(pieces) && NoTick(rest)
    ensures Scan(CellText(pieces) + rest, None) == Scan(rest, None)
  {
    if |pieces| == 0 {
      assert CellText(pieces) + rest == rest;
    } else {
      var p, tail := pieces[0], pieces[1..];
      ConcatAssociative(PieceText(p), CellText(tail), rest);
      assert GoodPiece(pieces[0]);
      if p.Span? {
        assert |tail| > 0 ==> !pieces[0 + 1].Span?;
        CellNoTick(tail, rest);
      }
      ScanPiece(p, CellText(tail) + rest);
      ScanCell(tail, rest);
    }
  }

  /** Every trimmed text of the grammar is a well-formed cell. */
  lemma GrammarWellFormed(pieces: seq<Piece>)
    requires GoodCell(pieces) && Trimmed(CellText(pieces))
    ensures WellFormedCell(CellText(pieces))
  {
    ScanCell(pieces, " ");
    ScanPlain(' ', "");
    assert [' '] + "" == " ";
  }
}
