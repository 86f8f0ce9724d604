/** The string operations of the pipeline, with the semantics of Python's runtime:
    `strip`, `lower`, `title`, `replace`, `split(sep)` and `sep.join(parts)`. */
module Text {

  /** `str.isspace` for one character: the ASCII controls 9-13 and 28-31, the space, and
      the Unicode space separators the runtime counts as whitespace. */
  predicate IsSpace(c: char) {
    var n := c as int;
    (9 <= n <= 13) || (28 <= n <= 32) || n == 0x85 || n == 0xA0 || n == 0x1680
    || (0x2000 <= n <= 0x200A) || n == 0x2028 || n == 0x2029 || n == 0x202F
    || n == 0x205F || n == 0x3000
  }

  predicate IsDigit(c: char) { '0' <= c <= '9' }

  predicate IsUpper(c: char) { 'A' <= c <= 'Z' }

  predicate IsLower(c: char) { 'a' <= c <= 'z' }

  function ToLower(c: char): char {
    if IsUpper(c) then (c as int + 32) as char else c
  }

  function ToUpper(c: char): char {
    if IsLower(c) then (c as int - 32) as char else c
  }

  /** A string with no whitespace at either end. */
  predicate Stripped(s: string) {
    s == [] || (!IsSpace(s[0]) && !IsSpace(s[|s| - 1]))
  }

  /** Every character of `s` is whitespace. */
  predicate AllSpace(s: string) {
    forall k :: 0 <= k < |s| ==> IsSpace(s[k])
  }

  function StripLeft(s: string): (r: string)
    ensures r == [] || !IsSpace(r[0])
    ensures exists i :: 0 <= i <= |s| && r == s[i..] && AllSpace(s[..i])
  {
    if s != [] && IsSpace(s[0]) then
      var t := s[1..];
      var r := StripLeft(t);
      ghost var i :| 0 <= i <= |t| && r == t[i..] && AllSpace(t[..i]);
      SpacesBefore(s, t, i);
      assert r == s[i + 1..];
      r
    else
      assert s == s[0..] && s[..0] == [];
      s
  }

  lemma SpacesBefore(s: string, t: string, i: nat)
    requires s != [] && IsSpace(s[0]) && t == s[1..] && i <= |t| && AllSpace(t[..i])
    ensures AllSpace(s[..i + 1])
  {
    var p := s[..i + 1];
    forall k | 0 <= k < |p| ensures IsSpace(p[k]) {
      if k > 0 {
        assert p[k] == t[..i][k - 1];
      }
    }
  }

  function StripRight(s: string): (r: string)
    ensures r == [] || !IsSpace(r[|r| - 1])
    ensures exists j :: 0 <= j <= |s| && r == s[..j] && AllSpace(s[j..])
  {
    if s != [] && IsSpace(s[|s| - 1]) then
      var t := s[..|s| - 1];
      var r := StripRight(t);
      ghost var j :| 0 <= j <= |t| && r == t[..j] && AllSpace(t[j..]);
      SpacesAfter(s, t, j);
      assert r == s[..j];
      r
    else
      assert s == s[..|s|] && s[|s|..] == [];
      s
  }

  lemma SpacesAfter(s: string, t: string, j: nat)
    requires s != [] && IsSpace(s[|s| - 1]) && t == s[..|s| - 1] && j <= |t| && AllSpace(t[j..])
    ensures AllSpace(s[j..])
  {
    var p := s[j..];
    forall k | 0 <= k < |p| ensures IsSpace(p[k]) {
      if k < |t| - j {
        assert p[k] == t[j..][k];
      }
    }
  }

  /** `s.strip()`: `s` less its leading and trailing whitespace, and nothing else. */
  function Strip(s: string): (r: string)
    ensures Stripped(r)
    ensures exists i, j :: 0 <= i <= j <= |s| && r == s[i..j] && AllSpace(s[..i]) && AllSpace(s[j..])
  {
    var l := StripLeft(s);
    var r := StripRight(l);
    ghost var i :| 0 <= i <= |s| && l == s[i..] && AllSpace(s[..i]);
    ghost var j :| 0 <= j <= |l| && r == l[..j] && AllSpace(l[j..]);
    SliceOfSlice(s, l, r, i, j);
    r
  }

  /** Trimming the front and then the back of `s` leaves a slice of `s` with only
      whitespace after it. */
  lemma SliceOfSlice(s: string, l: string, r: string, i: nat, j: nat)
    requires i <= |s| && l == s[i..] && j <= |l| && r == l[..j] && AllSpace(l[j..])
    ensures r == s[i..i + j]
    ensures AllSpace(s[i + j..])
  {
    assert s[i + j..] == l[j..];
  }

  lemma {:induction false} StripLeftOfStripped(s: string)
    requires s == [] || !IsSpace(s[0])
    ensures StripLeft(s) == s
  {
  }

  lemma {:induction false} StripRightOfStripped(s: string)
    requires s == [] || !IsSpace(s[|s| - 1])
    ensures StripRight(s) == s
  {
  }

  /** Stripping a stripped string changes nothing, so `strip` is idempotent. */
  lemma {:induction false} StripOfStripped(s: string)
    requires Stripped(s)
    ensures Strip(s) == s
  {
    StripLeftOfStripped(s);
    StripRightOfStripped(s);
  }

  /** `s.lower()` on the ASCII letters: no capital is left, every other character is
      kept, and each capital becomes the small letter whose capital it is. */
  function Lower(s: string): (r: string)
    ensures |r| == |s|
    ensures forall i :: 0 <= i < |r| ==> !IsUpper(r[i])
    ensures forall i :: 0 <= i < |s| && !IsUpper(s[i]) ==> r[i] == s[i]
    ensures forall i :: 0 <= i < |s| && IsUpper(s[i]) ==> IsLower(r[i]) && ToUpper(r[i]) == s[i]
  {
    seq(|s|, i requires 0 <= i < |s| => ToLower(s[i]))
  }

  /** Lower-casing twice is lower-casing once. */
  lemma LowerIdempotent(s: string)
    ensures Lower(Lower(s)) == Lower(s)
  {
  }

  /** `s.replace(a, b)` for single characters `a` and `b`. */
  function ReplaceChar(s: string, a: char, b: char): (r: string)
    ensures |r| == |s|
    ensures forall i :: 0 <= i < |s| ==> r[i] == if s[i] == a then b else s[i]
  {
    seq(|s|, i requires 0 <= i < |s| => if s[i] == a then b else s[i])
  }

  /** `sub in s` for strings. */
  predicate Contains(s: string, sub: string) {
    exists i :: 0 <= i <= |s| && OccursAt(s, sub, i)
  }

  predicate OccursAt(s: string, sub: string, i: nat) {
    i + |sub| <= |s| && s[i..i + |sub|] == sub
  }

  /** `s.split(sep)` with an explicit, non-empty separator: the pieces between the
      occurrences of `sep`, found left to right without overlap; empty pieces are kept. */
  function SplitOn(s: string, sep: string): (parts: seq<string>)
    requires sep != []
    ensures |parts| >= 1
    decreases |s|
  {
    if |s| < |sep| then [s]
    else if s[..|sep|] == sep then [""] + SplitOn(s[|sep|..], sep)
    else
      var rest := SplitOn(s[1..], sep);
      [[s[0]] + rest[0]] + rest[1..]
  }

  /** `sep.join(parts)`. */
  function JoinWith(sep: string, parts: seq<string>): string
    decreases |parts|
  {
    if parts == [] then ""
    else if |parts| == 1 then parts[0]
    else parts[0] + sep + JoinWith(sep, parts[1..])
  }

  /** `s.replace(target, replacement)`: the runtime replaces every occurrence, left to right. */
  function Replace(s: string, target: string, replacement: string): string
    requires target != []
  {
    JoinWith(replacement, SplitOn(s, target))
  }

  lemma {:induction false} JoinPrepend(sep: string, c: char, parts: seq<string>)
    requires |parts| >= 1
    ensures JoinWith(sep, [[c] + parts[0]] + parts[1..]) == [c] + JoinWith(sep, parts)
  {
    var q := [[c] + parts[0]] + parts[1..];
    if |parts| > 1 {
      assert q[1..] == parts[1..];
    }
  }

  /** Splitting at a separator and joining with it again gives back the string. */
  lemma {:induction false} JoinSplit(s: string, sep: string)
    requires sep != []
    ensures JoinWith(sep, SplitOn(s, sep)) == s
    decreases |s|
  {
    if |s| < |sep| {
    } else if s[..|sep|] == sep {
      JoinSplit(s[|sep|..], sep);
      JoinSplitAtSeparator(s, sep);
    } else {
      var rest := SplitOn(s[1..], sep);
      JoinSplit(s[1..], sep);
      JoinSplitPastChar(s, sep, rest);
    }
  }

  lemma JoinSplitAtSeparator(s: string, sep: string)
    requires sep != [] && |sep| <= |s| && s[..|sep|] == sep
    requires JoinWith(sep, SplitOn(s[|sep|..], sep)) == s[|sep|..]
    ensures JoinWith(sep, SplitOn(s, sep)) == s
  {
    var rest := SplitOn(s[|sep|..], sep);
    var parts := [""] + rest;
    assert SplitOn(s, sep) == parts;
    assert |parts| >= 2 && parts[0] == "" && parts[1..] == rest;
    assert JoinWith(sep, parts) == parts[0] + sep + JoinWith(sep, rest);
    EmptyFirst(parts[0], sep, JoinWith(sep, rest));
    Rejoined(s, |sep|);
    assert JoinWith(sep, parts) == s[..|sep|] + s[|sep|..];
  }

  lemma EmptyFirst(e: string, x: string, y: string)
    requires e == []
    ensures e + x + y == x + y
  {
  }

  lemma Rejoined(s: string, n: nat)
    requires n <= |s|
    ensures s[..n] + s[n..] == s
  {
  }

  lemma JoinSplitPastChar(s: string, sep: string, rest: seq<string>)
    requires |s| >= 1 && |rest| >= 1 && JoinWith(sep, rest) == s[1..]
    ensures JoinWith(sep, [[s[0]] + rest[0]] + rest[1..]) == s
  {
    JoinPrepend(sep, s[0], rest);
    assert [s[0]] == s[..1];
    Rejoined(s, 1);
  }

  /** A string without the separator splits into itself alone. */
  lemma {:induction false} SplitWithoutSeparator(s: string, sep: string)
    requires sep != [] && !Contains(s, sep)
    ensures SplitOn(s, sep) == [s]
    decreases |s|
  {
    if |s| >= |sep| {
      assert !OccursAt(s, sep, 0);
      if !Contains(s[1..], sep) {
        SplitWithoutSeparator(s[1..], sep);
        assert s == [s[0]] + s[1..];
      } else {
        var i :| 0 <= i <= |s[1..]| && OccursAt(s[1..], sep, i);
        assert s[i + 1..i + 1 + |sep|] == s[1..][i..i + |sep|];
        assert OccursAt(s, sep, i + 1);
        assert false;
      }
    }
  }

  /** Replacing one character by another through split and join is the same as
      mapping every occurrence of it. */
  lemma {:induction false} ReplaceByChar(s: string, a: char, b: char)
    ensures Replace(s, [a], [b]) == ReplaceChar(s, a, b)
    decreases |s|
  {
    if s != [] {
      ReplaceByChar(s[1..], a, b);
      assert ReplaceChar(s, a, b) == [if s[0] == a then b else s[0]] + ReplaceChar(s[1..], a, b);
      if s[..1] == [a] {
        var rest := SplitOn(s[1..], [a]);
        assert ([""] + rest)[1..] == rest;
      } else {
        JoinPrepend([b], s[0], SplitOn(s[1..], [a]));
      }
    }
  }

  /** `s.title()` with ASCII letters as the cased characters: a letter is upper-cased
      when it follows an uncased character (or starts the string) and lower-cased
      when it follows a cased one. */
  function Title(s: string): string {
    TitleAfter(s, false)
  }

  function TitleAfter(s: string, previousCased: bool): (r: string)
    ensures |r| == |s|
  {
    if s == [] then []
    else
      [if previousCased then ToLower(s[0]) else ToUpper(s[0])]
      + TitleAfter(s[1..], IsUpper(s[0]) || IsLower(s[0]))
  }

  function DigitChar(d: nat): char
    requires d < 10
  {
    ('0' as int + d) as char
  }

  /** `str(i)` for an integer: its decimal digits, with a leading minus when negative. */
  function IntToString(i: int): (r: string)
    ensures r != []
  {
    if i < 0 then "-" + NatToString(-i) else NatToString(i)
  }

  function NatToString(n: nat): (r: string)
    ensures r != []
    ensures forall k :: 0 <= k < |r| ==> IsDigit(r[k])
  {
    if n < 10 then [DigitChar(n)] else NatToString(n / 10) + [DigitChar(n % 10)]
  }
}
