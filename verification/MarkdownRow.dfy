/** generate_task_index._split_markdown_row: splitting a table row without breaking escaped or inline-code pipes. */
module MarkdownRow {
  import opened Wrappers
  import opened Text

  /** The length of the run of backticks at the front. */
  function Ticks(s: string): (n: nat)
    ensures n <= |s|
    ensures |s| > 0 && s[0] == '`' ==> n > 0
    ensures forall i :: 0 <= i < n ==> s[i] == '`'
    ensures n < |s| ==> s[n] != '`'
  {
    if |s| > 0 && s[0] == '`' then 1 + Ticks(s[1..]) else 0
  }

  /** How much is consumed at once: an escape pair, a run of backticks, or one character. */
  function Token(s: string): (n: nat)
    requires |s| > 0
    ensures 1 <= n <= |s|
  {
    if s[0] == '\\' && |s| > 1 then 2 else if s[0] == '`' then Ticks(s) else 1
  }

  /** The code delimiter that is open after a token. */
  function Delimiter(token: string, code: Option<string>): Option<string>
    requires |token| > 0
  {
    if token[0] != '`' then code
    else if code == None then Some(token)
    else if code == Some(token) then None
    else code
  }

  function Cells(s: string, buffer: string, code: Option<string>): (r: seq<string>)
    ensures |r| >= 1
    decreases |s|
  {
    if |s| == 0 then [Strip(buffer)]
    else if s[0] == '|' && code == None then [Strip(buffer)] + Cells(s[1..], "", None)
    else
      var n := Token(s);
      Cells(s[n..], buffer + s[..n], Delimiter(s[..n], code))
  }

  /** The row without its outer pipes. */
  function RowBody(stripped: string): string
    requires |stripped| > 0 && stripped[0] == '|'
  {
    if |stripped| >= 2 && stripped[|stripped| - 1] == '|' then stripped[1..|stripped| - 1]
    else if |stripped| >= 2 then stripped[1..] else ""
  }

  function SplitRow(line: string): seq<string> {
    var stripped := Strip(line);
    if |stripped| == 0 || stripped[0] != '|' then [] else Cells(RowBody(stripped), "", None)
  }

  lemma CellsToken(body: string, index: nat, buffer: string, code: Option<string>)
    requires index < |body| && !(body[index] == '|' && code == None)
    ensures var end := index + Token(body[index..]);
            Cells(body[index..], buffer, code) ==
            Cells(body[end..], buffer + body[index..end], Delimiter(body[index..end], code))
  {
    var n := Token(body[index..]);
    assert body[index..][n..] == body[index + n..] && body[index..][..n] == body[index..index + n];
  }

  lemma CellsPipe(cells: seq<string>, body: string, index: nat, buffer: string)
    requires index < |body| && body[index] == '|'
    ensures (cells + [Strip(buffer)]) + Cells(body[index + 1..], "", None) == cells + Cells(body[index..], buffer, None)
  {
    assert body[index..][1..] == body[index + 1..];
    ConcatAssociative(cells, [Strip(buffer)], Cells(body[index + 1..], "", None));
  }

  /** The cells split off so far, followed by what the rest of the row still gives. */
  ghost function Remaining(cells: seq<string>, body: string, index: nat, buffer: string,
                           code: Option<string>): seq<string>
    requires index <= |body|
  {
    cells + Cells(body[index..], buffer, code)
  }

  lemma AdvancePipe(cells: seq<string>, body: string, index: nat, buffer: string)
    requires index < |body| && body[index] == '|'
    ensures Remaining(cells + [Strip(buffer)], body, index + 1, "", None) == Remaining(cells, body, index, buffer, None)
  {
    CellsPipe(cells, body, index, buffer);
  }

  lemma AdvanceToken(cells: seq<string>, body: string, index: nat, buffer: string, code: Option<string>)
    requires index < |body| && !(body[index] == '|' && code == None)
    ensures var end := index + Token(body[index..]);
            Remaining(cells, body, end, buffer + body[index..end], Delimiter(body[index..end], code)) ==
            Remaining(cells, body, index, buffer, code)
  {
    CellsToken(body, index, buffer, code);
  }

  lemma RemainingStart(body: string)
    ensures Remaining([], body, 0, "", None) == Cells(body, "", None)
  {
    assert body[0..] == body;
  }

  lemma RemainingEnd(cells: seq<string>, body: string, buffer: string, code: Option<string>)
    ensures Remaining(cells, body, |body|, buffer, code) == cells + [Strip(buffer)]
  { }

  method SplitMarkdownRow(line: string) returns (cells: seq<string>)
    ensures cells == SplitRow(line)
  {
    var stripped := Strip(line);
    if |stripped| == 0 || stripped[0] != '|' { return []; }
    var body := RowBody(stripped);
    cells := SplitBody(body);
  }

  method SplitBody(body: string) returns (cells: seq<string>)
    ensures cells == Cells(body, "", None)
  {
    cells := [];
    var buffer := "";
    var code: Option<string> := None;
    var index := 0;
    RemainingStart(body);
    while index < |body|
      invariant index <= |body|
      invariant Remaining(cells, body, index, buffer, code) == Cells(body, "", None)
    {
      cells, buffer, code, index := Advance(cells, body, index, buffer, code);
    }
    RemainingEnd(cells, body, buffer, code);
    cells := cells + [Strip(buffer)];
  }

  /** The body of the loop: a bare pipe ends a cell, anything else goes into the buffer. */
  method Advance(cells0: seq<string>, body: string, index: nat, buffer: string, code: Option<string>)
    returns (cells: seq<string>, read: string, delimiter: Option<string>, end: nat)
    requires index < |body|
    ensures index < end <= |body|
    ensures Remaining(cells, body, end, read, delimiter) == Remaining(cells0, body, index, buffer, code)
  {
    if body[index] == '|' && code == None {
      AdvancePipe(cells0, body, index, buffer);
      return cells0 + [Strip(buffer)], "", None, index + 1;
    }
    AdvanceToken(cells0, body, index, buffer, code);
    cells := cells0;
    read, delimiter, end := ReadToken(body, index, buffer, code);
  }

  /** An escape pair, a run of backticks, or one character goes into the buffer. */
  method ReadToken(body: string, index: nat, buffer: string, code: Option<string>)
    returns (read: string, delimiter: Option<string>, end: nat)
    requires index < |body|
    ensures end == index + Token(body[index..])
    ensures read == buffer + body[index..end] && delimiter == Delimiter(body[index..end], code)
  {
    var c := body[index];
    if c == '\\' && index + 1 < |body| {
      return buffer + [c, body[index + 1]], code, index + 2;
    }
    if c == '`' {
      end := RunEnd(body, index);
      var run := body[index..end];
      delimiter := code;
      if code == None {
        delimiter := Some(run);
      } else if code == Some(run) {
        delimiter := None;
      }
      read := buffer + run;
      return;
    }
    return buffer + [c], code, index + 1;
  }

  /** The inner loop over a run of backticks. */
  method RunEnd(body: string, index: nat) returns (end: nat)
    requires index < |body| && body[index] == '`'
    ensures index < end <= |body| && end - index == Ticks(body[index..])
  {
    end := index;
    while end < |body| && body[end] == '`'
      invariant index <= end <= |body|
      invariant forall i :: index <= i < end ==> body[i] == '`'
    {
      end := end + 1;
    }
    TicksIs(body[index..], end - index);
  }

  lemma TicksIs(s: string, n: nat)
    requires n <= |s| && (forall i :: 0 <= i < n ==> s[i] == '`') && (n < |s| ==> s[n] != '`')
    ensures Ticks(s) == n
  { }

  // ----- rows of well-formed cells -----

  /** Reads a text: None at a bare pipe outside code, else the delimiter that is open at the end. */
  function Scan(s: string, code: Option<string>): Option<Option<string>>
    decreases |s|
  {
    if |s| == 0 then Some(code)
    else if s[0] == '|' && code == None then None
    else Scan(s[Token(s)..], Delimiter(s[..Token(s)], code))
  }

  /** A trimmed cell whose code spans are balanced and whose pipes are all escaped or inside a code span. */
  predicate WellFormedCell(cell: string) {
    Trimmed(cell) && Scan(cell + " ", None) == Some(None)
  }

  function Row(cells: seq<string>): string
    requires |cells| >= 1
  {
    if |cells| == 1 then " " + cells[0] + " " else " " + cells[0] + " " + ("|" + Row(cells[1..]))
  }

  /** A token of a text that ends in a space is the same token when more text follows. */
  lemma TokenStable(s: string, tail: string)
    requires |s| > 0 && s[|s| - 1] == ' '
    ensures Token(s + tail) == Token(s)
  {
    if s[0] == '`' {
      var n := Ticks(s);
      assert n < |s|;
      assert (s + tail)[n] == s[n];
      TicksIs(s + tail, n);
    }
  }

  /** What is left after a token still ends in a space, or is empty. */
  lemma TokenRest(s: string)
    requires |s| > 0 && s[|s| - 1] == ' '
    ensures var rest := s[Token(s)..]; |rest| > 0 ==> rest[|rest| - 1] == ' '
  { }

  lemma SliceAppend(s: string, tail: string, n: nat)
    requires n <= |s|
    ensures (s + tail)[..n] == s[..n] && (s + tail)[n..] == s[n..] + tail
  { }

  /** A well-scanned text is read into the buffer as a whole. */
  lemma {:induction false} CellsRead(s: string, tail: string, buffer: string, code: Option<string>)
    requires |s| > 0 ==> s[|s| - 1] == ' '
    requires Scan(s, code) == Some(None)
    ensures Cells(s + tail, buffer, code) == Cells(tail, buffer + s, None)
    decreases |s|
  {
    if |s| == 0 {
      assert s + tail == tail && buffer + s == buffer;
    } else {
      var n := Token(s);
      TokenStable(s, tail);
      TokenRest(s);
      SliceAppend(s, tail, n);
      CellsRead(s[n..], tail, buffer + s[..n], Delimiter(s[..n], code));
      TakeDrop(s, n);
      ConcatAssociative(buffer, s[..n], s[n..]);
    }
  }

  lemma CellRead(cell: string, tail: string)
    requires WellFormedCell(cell)
    ensures Cells(" " + cell + " " + tail, "", None) == Cells(tail, " " + cell + " ", None)
    ensures Strip(" " + cell + " ") == cell
  {
    var s := " " + cell + " ";
    assert s[1..] == cell + " ";
    assert Token(s) == 1 && s[..1] == " ";
    CellsRead(s, tail, "", None);
    assert "" + s == s;
    StripPadded(" ", cell, " ");
  }

  lemma RowFirst(cell: string, rest: seq<string>)
    requires |rest| >= 1
    ensures Row([cell] + rest) == " " + cell + " " + ("|" + Row(rest))
  {
    assert ([cell] + rest)[1..] == rest;
  }

  lemma {:induction false} RowCells(cells: seq<string>)
    requires |cells| >= 1 && forall i :: 0 <= i < |cells| ==> WellFormedCell(cells[i])
    ensures Cells(Row(cells), "", None) == cells
  {
    var cell, rest := cells[0], cells[1..];
    if |cells| == 1 {
      CellRead(cell, "");
      assert Row(cells) == " " + cell + " " + "";
    } else {
      RowCells(rest);
      assert cells == [cell] + rest;
      RowFirst(cell, rest);
      CellRead(cell, "|" + Row(rest));
      LeadingPipe(Row(rest), " " + cell + " ");
    }
  }

  lemma LeadingPipe(tail: string, buffer: string)
    ensures Cells("|" + tail, buffer, None) == [Strip(buffer)] + Cells(tail, "", None)
  {
    assert ("|" + tail)[1..] == tail;
  }

  /** Splitting a printed row, indented or followed by white space, gives back its cells. */
  lemma SplitRowOfCells(cells: seq<string>, left: string, right: string)
    requires |cells| >= 1 && forall i :: 0 <= i < |cells| ==> WellFormedCell(cells[i])
    requires AllSpace(left) && AllSpace(right)
    ensures SplitRow(left + ("|" + Row(cells) + "|") + right) == cells
  {
    var row := "|" + Row(cells) + "|";
    StripPadded(left, row, right);
    RowBodyInside(Row(cells));
    RowCells(cells);
  }

  lemma RowBodyInside(inner: string)
    ensures RowBody("|" + inner + "|") == inner
  {
    var row := "|" + inner + "|";
    assert row[1..|row| - 1] == inner;
  }

  // ----- any text can be a cell -----

  /** A text with its pipes, backticks and backslashes escaped. */
  function Escape(text: string): string {
    if |text| == 0 then ""
    else (if text[0] in "|`\\" then ['\\', text[0]] else [text[0]]) + Escape(text[1..])
  }

  lemma {:induction false} EscapeEnds(text: string)
    requires |text| > 0
    ensures |Escape(text)| > 0
    ensures Escape(text)[0] == '\\' || Escape(text)[0] == text[0]
    ensures Escape(text)[|Escape(text)| - 1] == text[|text| - 1]
  {
    if |text| > 1 {
      EscapeEnds(text[1..]);
    } else {
      assert Escape(text[1..]) == "";
    }
  }

  lemma ScanPair(c: char, rest: string)
    ensures Scan(['\\', c] + rest, None) == Scan(rest, None)
  {
    var s := ['\\', c] + rest;
    assert Token(s) == 2 && s[2..] == rest && s[..2][0] == '\\';
  }

  lemma ScanPlain(c: char, rest: string)
    requires c !in "|`\\"
    ensures Scan([c] + rest, None) == Scan(rest, None)
  {
    var s := [c] + rest;
    assert c != '|' && c != '`' && c != '\\';
    assert Token(s) == 1 && s[1..] == rest && s[..1][0] == c;
  }

  lemma {:induction false} EscapeScans(text: string)
    ensures Scan(Escape(text) + " ", None) == Some(None)
  {
    if |text| == 0 {
      ScanPlain(' ', "");
      assert Escape(text) + " " == [' '] + "";
    } else {
      var rest := Escape(text[1..]);
      EscapeScans(text[1..]);
      if text[0] in "|`\\" {
        ScanPair(text[0], rest + " ");
        ConcatAssociative(['\\', text[0]], rest, " ");
      } else {
        ScanPlain(text[0], rest + " ");
        ConcatAssociative([text[0]], rest, " ");
      }
    }
  }

  /** Every trimmed text is a well-formed cell once it is escaped. */
  lemma EscapedCell(text: string)
    requires Trimmed(text)
    ensures WellFormedCell(Escape(text))
  {
    EscapeScans(text);
    if |text| > 0 {
      EscapeEnds(text);
    }
  }
}
