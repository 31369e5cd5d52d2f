/** The Python string operations the tools are built from. */
module Text {

  lemma ConcatAssociative<T>(a: seq<T>, b: seq<T>, c: seq<T>)
    ensures a + b + c == a + (b + c)
  { }

  // ----- split and join on one separator -----

  function Split<T(==)>(s: seq<T>, sep: T): (r: seq<seq<T>>)
    ensures |r| >= 1
  {
    if |s| == 0 then [[]]
    else
      var r := Split(s[1..], sep);
      if s[0] == sep then [[]] + r else [[s[0]] + r[0]] + r[1..]
  }

  function Join<T>(parts: seq<seq<T>>, sep: T): seq<T>
    requires |parts| >= 1
  {
    if |parts| == 1 then parts[0] else parts[0] + [sep] + Join(parts[1..], sep)
  }

  lemma {:induction false} JoinOfSplit<T>(s: seq<T>, sep: T)
    ensures Join(Split(s, sep), sep) == s
  {
    if |s| > 0 {
      JoinOfSplit(s[1..], sep);
      var r := Split(s[1..], sep);
      if s[0] == sep {
        assert ([[]] + r)[1..] == r;
      } else {
        var all := [[s[0]] + r[0]] + r[1..];
        assert all[1..] == r[1..];
        assert s == [s[0]] + s[1..];
        if |r| == 1 {
          assert Join(all, sep) == [s[0]] + r[0];
        } else {
          assert Join(all, sep) == [s[0]] + r[0] + [sep] + Join(r[1..], sep);
          assert Join(r, sep) == r[0] + [sep] + Join(r[1..], sep);
        }
      }
    }
  }

  lemma {:induction false} SplitHasNoSeparator<T>(s: seq<T>, sep: T)
    ensures forall p :: p in Split(s, sep) ==> sep !in p
  {
    if |s| > 0 {
      SplitHasNoSeparator(s[1..], sep);
      var r := Split(s[1..], sep);
      forall p | p in Split(s, sep) ensures sep !in p {
        if p !in r && s[0] != sep {
          assert p == [s[0]] + r[0];
          assert r[0] in r;
        }
      }
    }
  }

  lemma {:induction false} SplitPiece<T>(p: seq<T>, sep: T, rest: seq<T>)
    requires sep !in p
    ensures Split(p + [sep] + rest, sep) == [p] + Split(rest, sep)
  {
    var s := p + [sep] + rest;
    if |p| == 0 {
      assert s[1..] == rest;
    } else {
      assert s[1..] == p[1..] + [sep] + rest;
      SplitPiece(p[1..], sep, rest);
      assert p == [p[0]] + p[1..];
    }
  }

  lemma {:induction false} SplitSingle<T>(p: seq<T>, sep: T)
    requires sep !in p
    ensures Split(p, sep) == [p]
  {
    if |p| > 0 {
      SplitSingle(p[1..], sep);
      assert p == [p[0]] + p[1..];
    }
  }

  lemma {:induction false} SplitOfJoin<T>(parts: seq<seq<T>>, sep: T)
    requires |parts| >= 1 && forall p :: p in parts ==> sep !in p
    ensures Split(Join(parts, sep), sep) == parts
  {
    if |parts| == 1 {
      SplitSingle(parts[0], sep);
    } else {
      SplitOfJoin(parts[1..], sep);
      SplitPiece(parts[0], sep, Join(parts[1..], sep));
    }
  }

  lemma SplitFirst<T>(x: T, s: seq<T>, sep: T)
    ensures Split([x] + s, sep) == if x == sep then [[]] + Split(s, sep) else [[x] + Split(s, sep)[0]] + Split(s, sep)[1..]
  {
    assert ([x] + s)[1..] == s;
  }

  lemma JoinPieces<T>(x: T, p: seq<seq<T>>, q: seq<seq<T>>)
    requires |p| >= 1
    ensures [[]] + p + q == [[]] + (p + q)
    ensures [[x] + p[0]] + p[1..] + q == [[x] + (p + q)[0]] + (p + q)[1..]
  {
    assert (p + q)[1..] == p[1..] + q;
  }

  lemma {:induction false} SplitAppend<T>(a: seq<T>, b: seq<T>, sep: T)
    ensures Split(a + [sep] + b, sep) == Split(a, sep) + Split(b, sep)
  {
    if |a| == 0 {
      assert a + [sep] + b == [sep] + b;
      SplitFirst(sep, b, sep);
    } else {
      var x, t := a[0], a[1..];
      SplitAppend(t, b, sep);
      SplitFirst(x, t + [sep] + b, sep);
      SplitFirst(x, t, sep);
      JoinPieces(x, Split(t, sep), Split(b, sep));
      assert a == [x] + t && a + [sep] + b == [x] + (t + [sep] + b);
    }
  }

  /** A further element lengthens the last piece. */
  lemma {:induction false} SplitLonger<T>(s: seq<T>, x: T, sep: T)
    requires x != sep
    ensures var r := Split(s, sep);
            Split(s + [x], sep) == r[..|r| - 1] + [r[|r| - 1] + [x]]
  {
    if |s| == 0 {
      assert s + [x] == [x];
      assert [x] + [] == [] + [x];
    } else {
      assert (s + [x])[1..] == s[1..] + [x];
      SplitLonger(s[1..], x, sep);
      var r := Split(s[1..], sep);
      if s[0] != sep && |r| == 1 {
        assert [s[0]] + (r[0] + [x]) == ([s[0]] + r[0]) + [x];
      }
    }
  }

  // ----- numbers -----

  function Digit(n: nat): char
    requires n < 10
  {
    "0123456789"[n]
  }

  /** `str(n)` */
  function Decimal(n: nat): string {
    if n < 10 then [Digit(n)] else Decimal(n / 10) + [Digit(n % 10)]
  }

  predicate IsDigit(c: char) {
    '0' <= c <= '9'
  }

  /** The number that digits stand for. */
  function NumberOf(digits: string): int {
    if |digits| == 0 then 0 else 10 * NumberOf(digits[..|digits| - 1]) + (digits[|digits| - 1] as int - '0' as int)
  }

  /** `str(n)` has digits only, no leading zero but that of 0, and stands for n. */
  lemma {:induction false} DecimalRead(n: nat)
    ensures |Decimal(n)| > 0 && (forall c :: c in Decimal(n) ==> IsDigit(c))
    ensures Decimal(n)[0] == '0' ==> n == 0
    ensures NumberOf(Decimal(n)) == n
  {
    DigitRead(n % 10);
    if n >= 10 {
      DecimalRead(n / 10);
      var s := Decimal(n);
      assert s[..|s| - 1] == Decimal(n / 10);
    } else {
      assert [Digit(n)][..0] == [];
    }
  }

  lemma DigitRead(n: nat)
    requires n < 10
    ensures IsDigit(Digit(n)) && Digit(n) as int - '0' as int == n
  { }

  // ----- strip -----

  /** The characters for which `str.isspace` holds, which are those `str.strip` removes. */
  predicate IsSpace(c: char) {
    var n := c as int;
    || 0x09 <= n <= 0x0D || 0x1C <= n <= 0x20 || n == 0x85 || n == 0xA0 || n == 0x1680
    || 0x2000 <= n <= 0x200A || n == 0x2028 || n == 0x2029 || n == 0x202F || n == 0x205F || n == 0x3000
  }

  function StripLeft(s: string): (r: string)
    ensures |r| <= |s|
    ensures |r| > 0 ==> !IsSpace(r[0])
  {
    if |s| > 0 && IsSpace(s[0]) then StripLeft(s[1..]) else s
  }

  function StripRight(s: string): (r: string)
    ensures |r| <= |s|
    ensures |r| > 0 ==> !IsSpace(r[|r| - 1])
  {
    if |s| > 0 && IsSpace(s[|s| - 1]) then StripRight(s[..|s| - 1]) else s
  }

  /** `s.strip()` */
  function Strip(s: string): string {
    StripRight(StripLeft(s))
  }

  /** Neither end is white space. */
  predicate Trimmed(s: string) {
    |s| > 0 ==> !IsSpace(s[0]) && !IsSpace(s[|s| - 1])
  }

  predicate AllSpace(s: string) {
    forall i :: 0 <= i < |s| ==> IsSpace(s[i])
  }

  /** `strip` leaves nothing of white space, and of nothing else. */
  lemma StripIsEmpty(s: string)
    ensures Strip(s) == "" <==> AllSpace(s)
  {
    if AllSpace(s) {
      assert s == s + [];
      StripLeftSpace(s, []);
    } else {
      var left, right := StripParts(s);
    }
  }

  /** Of single characters, `strip` removes these and no others. */
  lemma StrippedCharacters(c: char)
    ensures Strip([c]) == "" <==>
              c in ['\U{0009}', '\U{000A}', '\U{000B}', '\U{000C}', '\U{000D}', '\U{001C}', '\U{001D}', '\U{001E}', '\U{001F}',
                    '\U{0020}', '\U{0085}', '\U{00A0}', '\U{1680}', '\U{2000}', '\U{2001}', '\U{2002}', '\U{2003}', '\U{2004}',
                    '\U{2005}', '\U{2006}', '\U{2007}', '\U{2008}', '\U{2009}', '\U{200A}', '\U{2028}', '\U{2029}', '\U{202F}',
                    '\U{205F}', '\U{3000}']
  {
    assert [c][1..] == [] && [c][..0] == [];
  }

  lemma {:induction false} StripLeftSplit(s: string) returns (pad: string)
    ensures s == pad + StripLeft(s) && AllSpace(pad)
  {
    if |s| > 0 && IsSpace(s[0]) {
      pad := StripLeftSplit(s[1..]);
      assert s == [s[0]] + s[1..];
      ConcatAssociative([s[0]], pad, StripLeft(s[1..]));
      pad := [s[0]] + pad;
    } else {
      pad := "";
    }
  }

  lemma {:induction false} StripRightSplit(s: string) returns (pad: string)
    ensures s == StripRight(s) + pad && AllSpace(pad)
  {
    if |s| > 0 && IsSpace(s[|s| - 1]) {
      var init, last := s[..|s| - 1], s[|s| - 1];
      pad := StripRightSplit(init);
      assert s == init + [last];
      ConcatAssociative(StripRight(init), pad, [last]);
      pad := pad + [last];
    } else {
      pad := "";
    }
  }

  lemma StripTrims(s: string)
    ensures Trimmed(Strip(s))
  {
    var pad := StripRightSplit(StripLeft(s));
    if |Strip(s)| > 0 {
      assert (Strip(s) + pad)[0] == Strip(s)[0];
    }
  }

  lemma StripTrimmed(s: string)
    requires Trimmed(s)
    ensures Strip(s) == s
  {
  }

  lemma {:induction false} StripLeftSpace(pad: string, s: string)
    requires AllSpace(pad) && (|s| > 0 ==> !IsSpace(s[0]))
    ensures StripLeft(pad + s) == s
  {
    if |pad| > 0 {
      assert (pad + s)[1..] == pad[1..] + s;
      StripLeftSpace(pad[1..], s);
    } else {
      assert pad + s == s;
    }
  }

  lemma {:induction false} StripRightSpace(s: string, pad: string)
    requires AllSpace(pad) && (|s| > 0 ==> !IsSpace(s[|s| - 1]))
    ensures StripRight(s + pad) == s
  {
    if |pad| > 0 {
      assert (s + pad)[..|s + pad| - 1] == s + pad[..|pad| - 1];
      StripRightSpace(s, pad[..|pad| - 1]);
    } else {
      assert s + pad == s;
    }
  }

  /** White space around a trimmed text goes, the text stays. */
  lemma StripPadded(left: string, s: string, right: string)
    requires AllSpace(left) && AllSpace(right) && Trimmed(s)
    ensures Strip(left + s + right) == s
  {
    if |s| == 0 {
      var pad := left + right;
      assert left + s + right == pad + [];
      assert AllSpace(pad);
      StripLeftSpace(pad, []);
    } else {
      assert left + s + right == left + (s + right);
      StripLeftSpace(left, s + right);
      StripRightSpace(s, right);
    }
  }

  lemma {:induction false} StripLeftPad(pad: string, s: string)
    requires AllSpace(pad)
    ensures StripLeft(pad + s) == StripLeft(s)
  {
    if |pad| == 0 {
      assert pad + s == s;
    } else {
      assert (pad + s)[1..] == pad[1..] + s;
      StripLeftPad(pad[1..], s);
    }
  }

  lemma {:induction false} StripRightPad(s: string, pad: string)
    requires AllSpace(pad)
    ensures StripRight(s + pad) == StripRight(s)
  {
    if |pad| == 0 {
      assert s + pad == s;
    } else {
      assert (s + pad)[..|s + pad| - 1] == s + pad[..|pad| - 1];
      StripRightPad(s, pad[..|pad| - 1]);
    }
  }

  /** White space before a text does not change what `strip` leaves. */
  lemma StripPadLeft(pad: string, s: string)
    requires AllSpace(pad)
    ensures Strip(pad + s) == Strip(s)
  {
    StripLeftPad(pad, s);
  }

  /** Nor does white space after it. */
  lemma StripPadRight(s: string, pad: string)
    requires AllSpace(pad)
    ensures Strip(s + pad) == Strip(s)
  {
    var left, right := StripParts(s);
    var core := Strip(s);
    StripTrims(s);
    assert s + pad == left + core + (right + pad);
    StripPadded(left, core, right + pad);
  }

  lemma TakeDrop<T>(s: seq<T>, n: nat)
    requires n <= |s|
    ensures s == s[..n] + s[n..]
  { }

  /** `lstrip` of a text that starts with a visible line strips that line. */
  lemma StripLeftKeeps(line: string, tail: string)
    requires StripLeft(line) != ""
    ensures StripLeft(line + tail) == StripLeft(line) + tail
  {
    var pad := StripLeftSplit(line);
    var core := StripLeft(line);
    ConcatAssociative(pad, core, tail);
    StripLeftPad(pad, core + tail);
    assert (core + tail)[0] == core[0];
  }

  /** `lstrip` skips a line of white space. */
  lemma StripLeftSkips(line: string, tail: string)
    requires StripLeft(line) == ""
    ensures StripLeft(line + tail) == StripLeft(tail)
  {
    var pad := StripLeftSplit(line);
    assert line == pad;
    StripLeftPad(line, tail);
  }

  /** What `strip` removes is white space. */
  lemma StripParts(s: string) returns (left: string, right: string)
    ensures s == left + Strip(s) + right && AllSpace(left) && AllSpace(right)
  {
    left := StripLeftSplit(s);
    right := StripRightSplit(StripLeft(s));
    ConcatAssociative(left, Strip(s), right);
  }
}
