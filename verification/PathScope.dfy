/** validate_handoff and check_non_ideal_task: repository paths, scopes, and when a forbidden scope blocks an allowed one. */
module PathScope {
  import opened Wrappers
  import opened Text

  function Slashes(s: string): (r: string)
    ensures |r| == |s| && forall i :: 0 <= i < |s| ==> r[i] == if s[i] == '\\' then '/' else s[i]
  {
    seq(|s|, i requires 0 <= i < |s| => if s[i] == '\\' then '/' else s[i])
  }

  /** `value.replace("\\", "/").strip()` */
  function Clean(s: string): string {
    Strip(Slashes(s))
  }

  predicate IsLetter(c: char) {
    'A' <= c <= 'Z' || 'a' <= c <= 'z'
  }

  predicate HasDrive(s: string) {
    |s| >= 3 && IsLetter(s[0]) && s[1] == ':' && s[2] == '/'
  }

  predicate IsDirectory(s: string) {
    |s| > 0 && s[|s| - 1] == '/'
  }

  function WithoutSlash(s: string): string {
    if IsDirectory(s) then s[..|s| - 1] else s
  }

  /** The segments of a path or scope; a directory's trailing slash does not count. */
  function Segments(s: string): seq<string> {
    Split(WithoutSlash(s), '/')
  }

  predicate LegalSegment(p: string) {
    p != "" && p != "." && p != ".."
  }

  function NormalizeRepoPath(value: string, allowDirectory: bool): Option<string> {
    var raw := Clean(value);
    if raw == "" || raw[0] == '/' || HasDrive(raw) then None
    else
      var parts := Segments(raw);
      if exists i :: 0 <= i < |parts| && !LegalSegment(parts[i]) then None
      else if IsDirectory(raw) && !allowDirectory then None
      else Some(Join(parts, '/') + if IsDirectory(raw) then "/" else "")
  }

  predicate PathMatchesScope(path: string, scope: string) {
    Matches(NormalizeRepoPath(path, false), NormalizeRepoPath(scope, true))
  }

  predicate Matches(path: Option<string>, scope: Option<string>) {
    path.Some? && scope.Some? && if IsDirectory(scope.value) then scope.value <= path.value else path.value == scope.value
  }

  // ----- normal paths -----

  /** A path or scope in the form that normalisation produces. */
  predicate Normal(s: string) {
    && s != "" && s[0] != '/' && !HasDrive(s) && Trimmed(s) && '\\' !in s
    && forall i :: 0 <= i < |Segments(s)| ==> LegalSegment(Segments(s)[i])
  }

  lemma CleanOfNormal(s: string)
    requires Trimmed(s) && '\\' !in s
    ensures Clean(s) == s
  {
    assert Slashes(s) == s;
    StripTrimmed(s);
  }

  lemma CleanIsClean(s: string)
    ensures Trimmed(Clean(s)) && '\\' !in Clean(s)
  {
    var raw := Slashes(s);
    StripTrims(raw);
    var left, right := StripParts(raw);
    MiddleOf(left, Strip(raw), right, '\\');
  }

  lemma MiddleOf(left: string, core: string, right: string, c: char)
    ensures c in core ==> c in left + core + right
  {
    if c in core {
      var i :| 0 <= i < |core| && core[i] == c;
      assert (left + core + right)[|left| + i] == c;
    }
  }

  lemma SegmentsJoin(s: string)
    ensures s == Join(Segments(s), '/') + if IsDirectory(s) then "/" else ""
  {
    JoinOfSplit(WithoutSlash(s), '/');
  }

  /** A value normalises to its cleaned text exactly when that is a normal path, and a file path unless directories are
      allowed. */
  lemma NormalizeIff(value: string, allowDirectory: bool)
    ensures NormalizeRepoPath(value, allowDirectory) ==
            if Normal(Clean(value)) && (allowDirectory || !IsDirectory(Clean(value))) then Some(Clean(value)) else None
  {
    CleanIsClean(value);
    SegmentsJoin(Clean(value));
  }

  /** Normalisation is idempotent and yields normal paths only. */
  lemma NormalizeIdempotent(value: string, allowDirectory: bool)
    requires NormalizeRepoPath(value, allowDirectory).Some?
    ensures var r := NormalizeRepoPath(value, allowDirectory).value;
            Normal(r) && (IsDirectory(r) ==> allowDirectory) && NormalizeRepoPath(r, allowDirectory) == Some(r)
  {
    NormalizeIff(value, allowDirectory);
    CleanIsClean(value);
    CleanOfNormal(Clean(value));
    NormalizeIff(Clean(value), allowDirectory);
  }

  // ----- normal paths, character by character -----

  /** A stretch of the text between two slashes, or between a slash and an end. */
  ghost predicate Stretch(t: string, left: string, piece: string, right: string) {
    && t == left + piece + right && '/' !in piece
    && (left == "" || left[|left| - 1] == '/') && (right == "" || right[0] == '/')
  }

  lemma StretchLonger(x: char, t: string, left: string, piece: string, right: string)
    requires Stretch(t, left, piece, right)
    ensures left != "" || x == '/' ==> Stretch([x] + t, [x] + left, piece, right)
    ensures left == "" && x != '/' ==> Stretch([x] + t, "", [x] + piece, right)
  {
    assert [x] + t == [x] + left + piece + right;
    if left == "" {
      assert [x] + t == [x] + piece + right;
    }
  }

  lemma {:induction false} PieceAt(t: string, k: nat) returns (left: string, right: string)
    requires k < |Split(t, '/')|
    ensures Stretch(t, left, Split(t, '/')[k], right) && (left == "" <==> k == 0)
  {
    left, right := "", "";
    if |t| > 0 {
      var x, rest := t[0], t[1..];
      assert t == [x] + rest;
      SplitFirst(x, rest, '/');
      if x == '/' && k == 0 {
        right := t;
      } else {
        var j := if x == '/' then k - 1 else k;
        left, right := PieceAt(rest, j);
        StretchLonger(x, rest, left, Split(rest, '/')[j], right);
        left := if x == '/' || k > 0 then [x] + left else "";
      }
    }
  }

  lemma StretchIsPiece(t: string, left: string, piece: string, right: string)
    requires Stretch(t, left, piece, right)
    ensures piece in Split(t, '/')
  {
    var tail := piece + right;
    if right == "" {
      assert tail == piece;
      SplitSingle(piece, '/');
    } else {
      assert tail == piece + ['/'] + right[1..];
      SplitPiece(piece, '/', right[1..]);
    }
    assert piece in Split(tail, '/');
    if left == "" {
      assert t == tail;
    } else {
      assert t == left[..|left| - 1] + ['/'] + tail;
      SplitAppend(left[..|left| - 1], tail, '/');
    }
  }

  /** A normal path starts with no slash and no drive letter, has no white space at its ends and no backslash, and between
      its slashes, of which it may end with one, stand neither nothing nor dots. */
  lemma NormalMeans(s: string)
    ensures Normal(s) <==>
            && s != "" && !("/" <= s) && '\\' !in s && Strip(s) == s
            && (forall c, rest :: s == [c] + ":/" + rest ==> !('A' <= c <= 'Z' || 'a' <= c <= 'z'))
            && NoDots(if s != "" && s[|s| - 1] == '/' then s[..|s| - 1] else s)
  {
    StrippedIffTrimmed(s);
    DriveMeans(s);
    PiecesMean(WithoutSlash(s));
    assert Segments(s) == Split(WithoutSlash(s), '/');
    assert s != "" ==> ("/" <= s <==> s[0] == '/');
    assert AllLegal(Segments(s)) <==> forall i :: 0 <= i < |Segments(s)| ==> LegalSegment(Segments(s)[i]);
  }

  lemma StrippedIffTrimmed(s: string)
    ensures Trimmed(s) <==> Strip(s) == s
  {
    StripTrims(s);
    if Trimmed(s) {
      StripTrimmed(s);
    }
  }

  lemma DriveMeans(s: string)
    ensures !HasDrive(s) <==> forall c, rest :: s == [c] + ":/" + rest ==> !('A' <= c <= 'Z' || 'a' <= c <= 'z')
  {
    if HasDrive(s) {
      assert s == [s[0]] + ":/" + s[3..];
    }
    if c, rest :| s == [c] + ":/" + rest && ('A' <= c <= 'Z' || 'a' <= c <= 'z') {
      assert s[0] == c && s[1] == ':' && s[2] == '/';
    }
  }

  predicate AllLegal(pieces: seq<string>) {
    forall i :: 0 <= i < |pieces| ==> LegalSegment(pieces[i])
  }

  ghost predicate NoDots(t: string) {
    forall left, piece, right :: Stretch(t, left, piece, right) ==> piece != "" && piece != "." && piece != ".."
  }

  lemma PiecesMean(t: string)
    ensures AllLegal(Split(t, '/')) <==> NoDots(t)
  {
    var pieces := Split(t, '/');
    if AllLegal(pieces) {
      forall left, piece, right | Stretch(t, left, piece, right) ensures piece != "" && piece != "." && piece != ".." {
        StretchIsPiece(t, left, piece, right);
        var i :| 0 <= i < |pieces| && pieces[i] == piece;
        assert LegalSegment(pieces[i]);
      }
    }
    if NoDots(t) {
      forall i | 0 <= i < |pieces| ensures LegalSegment(pieces[i]) {
        var left, right := PieceAt(t, i);
      }
    }
  }

  // ----- a directory scope is a prefix of segments -----

  lemma {:induction false} JoinAppend(one: seq<string>, other: seq<string>, sep: char)
    requires |one| >= 1 && |other| >= 1
    ensures Join(one + other, sep) == Join(one, sep) + [sep] + Join(other, sep)
  {
    if |one| == 1 {
      assert (one + other)[1..] == other;
    } else {
      assert (one + other)[1..] == one[1..] + other;
      JoinAppend(one[1..], other, sep);
    }
  }

  predicate ProperPrefix(one: seq<string>, other: seq<string>) {
    |one| < |other| && one <= other
  }

  /** String prefixing up to a slash is proper prefixing of segments. */
  lemma SlashPrefixIffSegments(dir: string, path: string)
    ensures dir + "/" <= path <==> ProperPrefix(Split(dir, '/'), Split(path, '/'))
  {
    var ds, ps := Split(dir, '/'), Split(path, '/');
    if dir + "/" <= path {
      var rest := path[|dir| + 1..];
      assert path == dir + ['/'] + rest;
      SplitAppend(dir, rest, '/');
    }
    if ProperPrefix(ds, ps) {
      JoinOfSplit(dir, '/');
      JoinOfSplit(path, '/');
      assert ps == ds + ps[|ds|..];
      JoinAppend(ds, ps[|ds|..], '/');
    }
  }

  /** String prefixing up to a slash, or equality, is prefixing of segments. */
  lemma PrefixIffSegments(dir: string, path: string)
    ensures path == dir || dir + "/" <= path <==> Split(dir, '/') <= Split(path, '/')
  {
    SlashPrefixIffSegments(dir, path);
    if Split(dir, '/') <= Split(path, '/') && !ProperPrefix(Split(dir, '/'), Split(path, '/')) {
      assert Split(dir, '/') == Split(path, '/');
      JoinOfSplit(dir, '/');
      JoinOfSplit(path, '/');
    }
  }

  lemma NormalizeNormal(s: string, allowDirectory: bool)
    requires Normal(s) && (allowDirectory || !IsDirectory(s))
    ensures NormalizeRepoPath(s, allowDirectory) == Some(s)
  {
    CleanOfNormal(s);
    NormalizeIff(s, allowDirectory);
  }

  /** The segments of a file inside a scope: under a directory its proper extensions, else the path itself. */
  predicate Inside(segments: seq<string>, scope: string) {
    if IsDirectory(scope) then ProperPrefix(Segments(scope), segments) else segments == Segments(scope)
  }

  lemma NormalMatch(path: string, scope: string)
    requires Normal(path) && !IsDirectory(path) && Normal(scope)
    ensures Matches(Some(path), Some(scope)) <==> Inside(Segments(path), scope)
  {
    if IsDirectory(scope) {
      assert scope == WithoutSlash(scope) + "/";
      SlashPrefixIffSegments(WithoutSlash(scope), path);
    } else {
      SegmentsJoin(path);
      SegmentsJoin(scope);
    }
  }

  /** Which paths a normal scope matches. */
  lemma MatchesBySegments(path: string, scope: string)
    requires Normal(scope)
    ensures PathMatchesScope(path, scope) <==>
            Normal(Clean(path)) && !IsDirectory(Clean(path)) && Inside(Segments(Clean(path)), scope)
  {
    NormalizeIff(path, false);
    NormalizeNormal(scope, true);
    if Normal(Clean(path)) && !IsDirectory(Clean(path)) {
      NormalMatch(Clean(path), scope);
    }
  }

  // ----- the guard -----

  function StripSlashes(s: string): string {
    if IsDirectory(s) then StripSlashes(s[..|s| - 1]) else s
  }

  /** `_trim_trailing` */
  function TrimTrailing(s: string): string {
    StripSlashes(Clean(s))
  }

  predicate ForbiddenBlocksAllowed(allowed: string, forbidden: string) {
    var a, f := TrimTrailing(allowed), TrimTrailing(forbidden);
    if a == "" || f == "" then false else a == f || f + "/" <= a
  }

  lemma {:induction false} LastSegment(s: string)
    requires |s| > 0 && s[|s| - 1] == '/'
    ensures Split(s, '/')[|Split(s, '/')| - 1] == ""
  {
    assert s == s[..|s| - 1] + ['/'] + [];
    SplitAppend(s[..|s| - 1], [], '/');
  }

  lemma OneSlash(s: string)
    requires s != "" && s[0] != '/' && forall i :: 0 <= i < |Segments(s)| ==> LegalSegment(Segments(s)[i])
    ensures WithoutSlash(s) != "" && !IsDirectory(WithoutSlash(s))
  {
    assert LegalSegment(Segments(s)[|Segments(s)| - 1]);
    if IsDirectory(WithoutSlash(s)) {
      LastSegment(WithoutSlash(s));
    }
  }

  /** A normal scope has one trailing slash at most. */
  lemma TrimNormal(s: string)
    requires Normal(s)
    ensures TrimTrailing(s) == WithoutSlash(s) != ""
  {
    CleanOfNormal(s);
    OneSlash(s);
    StripOneSlash(s);
  }

  lemma StripOneSlash(s: string)
    requires !IsDirectory(WithoutSlash(s))
    ensures StripSlashes(s) == WithoutSlash(s)
  {
    assert StripSlashes(WithoutSlash(s)) == WithoutSlash(s);
  }

  /** On normal scopes the guard compares segments and does not see whether a scope is a directory. */
  lemma BlocksIffPrefix(allowed: string, forbidden: string)
    requires Normal(allowed) && Normal(forbidden)
    ensures ForbiddenBlocksAllowed(allowed, forbidden) <==> Segments(forbidden) <= Segments(allowed)
  {
    TrimNormal(allowed);
    TrimNormal(forbidden);
    PrefixIffSegments(WithoutSlash(forbidden), WithoutSlash(allowed));
  }

  /** Every path inside the allowed scope is inside the forbidden one. */
  ghost predicate Covers(forbidden: string, allowed: string) {
    forall p: string :: PathMatchesScope(p, allowed) ==> PathMatchesScope(p, forbidden)
  }

  /** A file in a normal directory. */
  lemma FileInside(dir: string, name: char)
    requires Normal(dir) && IsDirectory(dir) && IsLetter(name)
    ensures Normal(dir + [name]) && !IsDirectory(dir + [name])
    ensures Segments(dir + [name]) == Segments(dir) + [[name]]
  {
    var p := dir + [name];
    assert p == WithoutSlash(dir) + ['/'] + [name];
    SplitAppend(WithoutSlash(dir), [name], '/');
    SplitSingle([name], '/');
    assert Segments(p) == Segments(dir) + [[name]];
    assert p[0] == dir[0];
    assert |dir| >= 3 ==> p[1] == dir[1] && p[2] == dir[2];
  }

  /** Between directories the guard decides coverage. */
  lemma DirectoryGuardExact(allowed: string, forbidden: string)
    requires Normal(allowed) && Normal(forbidden) && IsDirectory(allowed) && IsDirectory(forbidden)
    ensures ForbiddenBlocksAllowed(allowed, forbidden) <==> Covers(forbidden, allowed)
  {
    CoversIff(allowed, forbidden);
    BlocksIffPrefix(allowed, forbidden);
  }

  /** Coverage in terms of segments and of the two kinds of scope. */
  ghost predicate CoversBySegments(forbidden: string, allowed: string) {
    if IsDirectory(forbidden) then
      if IsDirectory(allowed) then Segments(forbidden) <= Segments(allowed)
      else ProperPrefix(Segments(forbidden), Segments(allowed))
    else
      !IsDirectory(allowed) && Segments(forbidden) == Segments(allowed)
  }

  lemma CoversIfBySegments(allowed: string, forbidden: string)
    requires Normal(allowed) && Normal(forbidden) && CoversBySegments(forbidden, allowed)
    ensures Covers(forbidden, allowed)
  {
    forall p: string | PathMatchesScope(p, allowed) ensures PathMatchesScope(p, forbidden) {
      MatchesBySegments(p, allowed);
      MatchesBySegments(p, forbidden);
    }
  }

  lemma PrefixOfExtension(one: seq<string>, other: seq<string>, last: string)
    ensures ProperPrefix(one, other + [last]) <==> one <= other
  {
    if ProperPrefix(one, other + [last]) {
      assert other == (other + [last])[..|other|];
    }
  }

  lemma OutsideName(segments: seq<string>, forbidden: string)
    requires IsDirectory(forbidden) ==> !(Segments(forbidden) <= segments)
    ensures !Inside(segments + ["x"], forbidden) || !Inside(segments + ["y"], forbidden)
  {
    if IsDirectory(forbidden) {
      PrefixOfExtension(Segments(forbidden), segments, "x");
    } else {
      assert (segments + ["x"])[|segments|] != (segments + ["y"])[|segments|];
    }
  }

  lemma CoversIff(allowed: string, forbidden: string)
    requires Normal(allowed) && Normal(forbidden)
    ensures Covers(forbidden, allowed) <==> CoversBySegments(forbidden, allowed)
  {
    if CoversBySegments(forbidden, allowed) {
      CoversIfBySegments(allowed, forbidden);
    } else if IsDirectory(allowed) {
      DirectoryNotCovered(allowed, forbidden);
    } else {
      FileScopeNotCovered(allowed, forbidden);
    }
  }

  lemma DirectoryNotCovered(allowed: string, forbidden: string)
    requires Normal(allowed) && Normal(forbidden) && IsDirectory(allowed)
    requires IsDirectory(forbidden) ==> !(Segments(forbidden) <= Segments(allowed))
    ensures !Covers(forbidden, allowed)
  {
    OutsideName(Segments(allowed), forbidden);
    FileNotCovered(allowed, forbidden, if Inside(Segments(allowed) + ["x"], forbidden) then 'y' else 'x');
  }

  lemma FileScopeNotCovered(allowed: string, forbidden: string)
    requires Normal(allowed) && Normal(forbidden) && !IsDirectory(allowed)
    requires !Inside(Segments(allowed), forbidden)
    ensures !Covers(forbidden, allowed)
  {
    CleanOfNormal(allowed);
    MatchesBySegments(allowed, allowed);
    MatchesBySegments(allowed, forbidden);
  }

  lemma FileNotCovered(allowed: string, forbidden: string, name: char)
    requires Normal(allowed) && Normal(forbidden) && IsDirectory(allowed) && IsLetter(name)
    requires !Inside(Segments(allowed) + [[name]], forbidden)
    ensures !Covers(forbidden, allowed)
  {
    var p := allowed + [name];
    FileInside(allowed, name);
    CleanOfNormal(p);
    MatchesBySegments(p, allowed);
    MatchesBySegments(p, forbidden);
  }

  /** The guard never lets a covered scope through, and it blocks without coverage in exactly two cases: the forbidden
      scope is a file and the allowed one lies under that name or is the directory of that name, or the forbidden scope is
      a directory and the allowed one is the file of that name. */
  lemma GuardExact(allowed: string, forbidden: string)
    requires Normal(allowed) && Normal(forbidden)
    ensures Covers(forbidden, allowed) ==> ForbiddenBlocksAllowed(allowed, forbidden)
    ensures ForbiddenBlocksAllowed(allowed, forbidden) && !Covers(forbidden, allowed) <==>
            || (!IsDirectory(forbidden) && forbidden + "/" <= allowed)
            || allowed + "/" == forbidden
  {
    CoversIff(allowed, forbidden);
    BlocksIffPrefix(allowed, forbidden);
    SegmentsJoin(allowed);
    SegmentsJoin(forbidden);
    if IsDirectory(forbidden) {
      OneSlash(forbidden);
      SameSegments(allowed, forbidden);
    } else {
      ProperlyUnder(allowed, forbidden);
    }
  }

  lemma SameSegments(allowed: string, forbidden: string)
    requires IsDirectory(forbidden) && !IsDirectory(WithoutSlash(forbidden))
    ensures allowed + "/" == forbidden <==> !IsDirectory(allowed) && Segments(allowed) == Segments(forbidden)
  {
    SegmentsJoin(allowed);
    SegmentsJoin(forbidden);
    if allowed + "/" == forbidden {
      assert allowed == WithoutSlash(forbidden);
    }
  }

  lemma ProperlyUnder(allowed: string, forbidden: string)
    requires !IsDirectory(forbidden)
    ensures forbidden + "/" <= allowed <==>
            if IsDirectory(allowed) then Segments(forbidden) <= Segments(allowed)
            else ProperPrefix(Segments(forbidden), Segments(allowed))
  {
    var a := WithoutSlash(allowed);
    SlashPrefixIffSegments(forbidden, a);
    PrefixIffSegments(forbidden, a);
    if IsDirectory(allowed) {
      assert allowed == a + "/";
      assert forbidden + "/" <= allowed <==> forbidden + "/" <= a || forbidden == a;
    }
  }
}
