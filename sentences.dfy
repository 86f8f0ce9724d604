/** Sentence splitting for the report-text tables: `re.split(r"\d+[.,]", text)` followed
    by stripping every piece and dropping the blank ones. The numbered items of a cell
    ("1. Listens. 2. Asks questions.") become one sentence each. */
module Sentences {
  import opened Common
  import opened Text

  predicate IsMarkEnd(c: char) { c == '.' || c == ',' }

  /** The length of the run of digits that starts `s`. */
  function DigitRun(s: string): (k: nat)
    ensures k <= |s|
    ensures forall i :: 0 <= i < k ==> IsDigit(s[i])
    ensures k < |s| ==> !IsDigit(s[k])
  {
    if s != [] && IsDigit(s[0]) then 1 + DigitRun(s[1..]) else 0
  }

  /** A text the pattern `\d+[.,]` matches as a whole. */
  predicate IsMarker(m: string) {
    |m| >= 2 && IsMarkEnd(m[|m| - 1]) && forall i :: 0 <= i < |m| - 1 ==> IsDigit(m[i])
  }

  /** Some digit of `s` is directly followed by `.` or `,`: the pattern matches
      somewhere in `s`. */
  predicate HasMarker(s: string) {
    exists i :: 0 <= i < |s| - 1 && IsDigit(s[i]) && IsMarkEnd(s[i + 1])
  }

  predicate EndsInDigit(p: string) {
    p != [] && IsDigit(p[|p| - 1])
  }

  /** The pieces between the matches, and the matches themselves, in order. */
  datatype Split = Split(pieces: seq<string>, markers: seq<string>)

  /** `re.split(r"\d+[.,]", s)`, keeping the matched markers aside. Scanning left to
      right, a match starts at the first digit of a run of digits that is followed by
      `.` or `,`, and takes the whole run and that character; a run followed by
      anything else is ordinary text. */
  function SplitAtMarkers(s: string): (r: Split)
    ensures |r.pieces| == |r.markers| + 1
    ensures forall m :: m in r.markers ==> IsMarker(m)
    decreases |s|
  {
    if s == [] then Split([""], [])
    else if IsDigit(s[0]) then
      var k := DigitRun(s);
      if k < |s| && IsMarkEnd(s[k]) then
        var rest := SplitAtMarkers(s[k + 1..]);
        Split([""] + rest.pieces, [s[..k + 1]] + rest.markers)
      else
        var rest := SplitAtMarkers(s[k..]);
        Split([s[..k] + rest.pieces[0]] + rest.pieces[1..], rest.markers)
    else
      var rest := SplitAtMarkers(s[1..]);
      Split([[s[0]] + rest.pieces[0]] + rest.pieces[1..], rest.markers)
  }

  /** The pieces with the markers put back between them. */
  function Interleave(pieces: seq<string>, markers: seq<string>): string
    requires |pieces| == |markers| + 1
    decreases |markers|
  {
    if markers == [] then pieces[0]
    else pieces[0] + markers[0] + Interleave(pieces[1..], markers[1..])
  }

  lemma InterleaveCons(p: string, m: string, pieces: seq<string>, markers: seq<string>)
    requires |pieces| == |markers| + 1
    ensures Interleave([p] + pieces, [m] + markers) == p + m + Interleave(pieces, markers)
  {
    assert ([p] + pieces)[1..] == pieces && ([m] + markers)[1..] == markers;
  }

  lemma {:induction false} InterleavePrepend(t: string, pieces: seq<string>, markers: seq<string>)
    requires |pieces| == |markers| + 1
    ensures Interleave([t + pieces[0]] + pieces[1..], markers) == t + Interleave(pieces, markers)
  {
    var q := [t + pieces[0]] + pieces[1..];
    if markers != [] {
      assert q[1..] == pieces[1..];
    }
  }

  /** Nothing is lost: the pieces and the markers together make up the text. */
  lemma {:induction false} SplitRoundTrip(s: string)
    ensures Interleave(SplitAtMarkers(s).pieces, SplitAtMarkers(s).markers) == s
    decreases |s|, 1
  {
    if s == [] {
    } else if IsDigit(s[0]) && DigitRun(s) < |s| && IsMarkEnd(s[DigitRun(s)]) {
      RoundTripAtMarker(s);
    } else {
      RoundTripInPiece(s);
    }
  }

  /** `SplitRoundTrip` for a text that starts with a marker. */
  lemma {:induction false} RoundTripAtMarker(s: string)
    requires s != [] && IsDigit(s[0]) && DigitRun(s) < |s| && IsMarkEnd(s[DigitRun(s)])
    ensures Interleave(SplitAtMarkers(s).pieces, SplitAtMarkers(s).markers) == s
    decreases |s|, 0
  {
    var k := DigitRun(s);
    var r := SplitAtMarkers(s);
    var rest := SplitAtMarkers(s[k + 1..]);
    SplitRoundTrip(s[k + 1..]);
    assert r.pieces == [""] + rest.pieces && r.markers == [s[..k + 1]] + rest.markers;
    InterleaveCons("", s[..k + 1], rest.pieces, rest.markers);
    assert Interleave(r.pieces, r.markers) == "" + s[..k + 1] + s[k + 1..];
    EmptyFirst("", s[..k + 1], s[k + 1..]);
    Rejoined(s, k + 1);
  }

  /** `SplitRoundTrip` for a text whose first piece is not empty. */
  lemma {:induction false} RoundTripInPiece(s: string)
    requires s != [] && !(IsDigit(s[0]) && DigitRun(s) < |s| && IsMarkEnd(s[DigitRun(s)]))
    ensures Interleave(SplitAtMarkers(s).pieces, SplitAtMarkers(s).markers) == s
    decreases |s|, 0
  {
    var k := if IsDigit(s[0]) then DigitRun(s) else 1;
    var rest := SplitAtMarkers(s[k..]);
    SplitRoundTrip(s[k..]);
    assert SplitAtMarkers(s) == Split([s[..k] + rest.pieces[0]] + rest.pieces[1..], rest.markers) by {
      if !IsDigit(s[0]) {
        assert s[..1] == [s[0]] && s[k..] == s[1..];
      }
    }
    InterleavePrepend(s[..k], rest.pieces, rest.markers);
    assert s == s[..k] + s[k..];
  }

  lemma {:induction false} FirstPieceStart(s: string)
    requires s != [] && !IsDigit(s[0])
    ensures SplitAtMarkers(s).pieces[0] != [] && SplitAtMarkers(s).pieces[0][0] == s[0]
  {
  }

  lemma {:induction false} NoMarkerAfterPlainChar(c: char, p: string)
    requires !IsDigit(c) && !HasMarker(p)
    ensures !HasMarker([c] + p)
  {
    var q := [c] + p;
    forall i | 0 <= i < |q| - 1 && IsDigit(q[i]) ensures !IsMarkEnd(q[i + 1]) {
      assert i > 0 && q[i] == p[i - 1] && q[i + 1] == p[i];
    }
  }

  lemma {:induction false} NoMarkerAfterDigits(d: string, p: string)
    requires forall i :: 0 <= i < |d| ==> IsDigit(d[i])
    requires p == [] || !IsMarkEnd(p[0])
    requires !HasMarker(p)
    ensures !HasMarker(d + p)
  {
    var q := d + p;
    forall i | 0 <= i < |q| - 1 && IsDigit(q[i]) ensures !IsMarkEnd(q[i + 1]) {
      if i + 1 < |d| {
        assert IsDigit(q[i + 1]);
      } else if i + 1 == |d| {
        assert q[i + 1] == p[0];
      } else {
        assert q[i] == p[i - |d|] && q[i + 1] == p[i + 1 - |d|];
      }
    }
  }

  /** Every match is found: no piece contains a digit followed by `.` or `,`, and a
      piece followed by a marker does not end in a digit (the marker took the whole
      run of digits). */
  lemma {:induction false} PiecesHaveNoMarker(s: string)
    ensures forall p :: p in SplitAtMarkers(s).pieces ==> !HasMarker(p)
    ensures forall i :: 0 <= i < |SplitAtMarkers(s).markers| ==>
      !EndsInDigit(SplitAtMarkers(s).pieces[i])
    decreases |s|, 1
  {
    if s == [] {
      assert SplitAtMarkers(s).pieces == [""];
    } else if IsDigit(s[0]) {
      var k := DigitRun(s);
      if k < |s| && IsMarkEnd(s[k]) {
        NoMarkerAfterMarker(s);
      } else {
        NoMarkerInDigitPiece(s);
      }
    } else {
      NoMarkerInPlainPiece(s);
    }
  }

  /** `PiecesHaveNoMarker` for a text that starts with a marker. */
  lemma {:induction false} NoMarkerAfterMarker(s: string)
    requires s != [] && IsDigit(s[0]) && DigitRun(s) < |s| && IsMarkEnd(s[DigitRun(s)])
    ensures forall p :: p in SplitAtMarkers(s).pieces ==> !HasMarker(p)
    ensures forall i :: 0 <= i < |SplitAtMarkers(s).markers| ==>
      !EndsInDigit(SplitAtMarkers(s).pieces[i])
    decreases |s|, 0
  {
    var r := SplitAtMarkers(s);
    var k := DigitRun(s);
    var rest := SplitAtMarkers(s[k + 1..]);
    PiecesHaveNoMarker(s[k + 1..]);
    assert r.pieces == [""] + rest.pieces;
    forall i | 0 <= i < |r.markers| ensures !EndsInDigit(r.pieces[i]) {
      if i > 0 {
        assert r.pieces[i] == rest.pieces[i - 1];
      }
    }
  }

  /** `PiecesHaveNoMarker` for a text that starts with digits not followed by a mark. */
  lemma {:induction false} NoMarkerInDigitPiece(s: string)
    requires s != [] && IsDigit(s[0]) && !(DigitRun(s) < |s| && IsMarkEnd(s[DigitRun(s)]))
    ensures forall p :: p in SplitAtMarkers(s).pieces ==> !HasMarker(p)
    ensures forall i :: 0 <= i < |SplitAtMarkers(s).markers| ==>
      !EndsInDigit(SplitAtMarkers(s).pieces[i])
    decreases |s|, 0
  {
    var k := DigitRun(s);
    var rest := SplitAtMarkers(s[k..]);
    PiecesHaveNoMarker(s[k..]);
    if k < |s| {
      FirstPieceStart(s[k..]);
    } else {
      assert rest.pieces == [""];
    }
    NoMarkerAfterDigits(s[..k], rest.pieces[0]);
    assert SplitAtMarkers(s) == Split([s[..k] + rest.pieces[0]] + rest.pieces[1..], rest.markers);
    GlueFirstPiece(s[..k], rest.pieces, rest.markers);
  }

  /** `PiecesHaveNoMarker` for a text that starts with a character other than a digit. */
  lemma {:induction false} NoMarkerInPlainPiece(s: string)
    requires s != [] && !IsDigit(s[0])
    ensures forall p :: p in SplitAtMarkers(s).pieces ==> !HasMarker(p)
    ensures forall i :: 0 <= i < |SplitAtMarkers(s).markers| ==>
      !EndsInDigit(SplitAtMarkers(s).pieces[i])
    decreases |s|, 0
  {
    var rest := SplitAtMarkers(s[1..]);
    PiecesHaveNoMarker(s[1..]);
    NoMarkerAfterPlainChar(s[0], rest.pieces[0]);
    assert SplitAtMarkers(s) == Split([[s[0]] + rest.pieces[0]] + rest.pieces[1..], rest.markers);
    GlueFirstPiece([s[0]], rest.pieces, rest.markers);
  }

  /** Text glued to the front of the first piece: the pieces keep having no marker,
      and a piece before a marker still does not end in a digit. */
  lemma GlueFirstPiece(head: string, pieces: seq<string>, markers: seq<string>)
    requires |pieces| == |markers| + 1
    requires !HasMarker(head + pieces[0]) && forall p :: p in pieces ==> !HasMarker(p)
    requires forall i :: 0 <= i < |markers| ==> !EndsInDigit(pieces[i])
    requires |markers| > 0 ==> pieces[0] != [] || !EndsInDigit(head)
    ensures forall p :: p in [head + pieces[0]] + pieces[1..] ==> !HasMarker(p)
    ensures forall i :: 0 <= i < |markers| ==> !EndsInDigit(([head + pieces[0]] + pieces[1..])[i])
  {
    var glued := [head + pieces[0]] + pieces[1..];
    forall p | p in glued ensures !HasMarker(p) {
      if p != glued[0] {
        assert p in pieces[1..];
      }
    }
    forall i | 0 <= i < |markers| ensures !EndsInDigit(glued[i]) {
      if i > 0 {
        assert glued[i] == pieces[i];
      } else if pieces[0] != [] {
        assert glued[0][|glued[0]| - 1] == pieces[0][|pieces[0]| - 1];
      } else {
        assert glued[0] == head;
      }
    }
  }

  lemma {:induction false} MarkerAtRunEnd(s: string)
    requires s != [] && IsDigit(s[0])
    requires DigitRun(s) < |s| && IsMarkEnd(s[DigitRun(s)])
    ensures HasMarker(s)
  {
    var k := DigitRun(s);
    assert IsDigit(s[k - 1]) && IsMarkEnd(s[k]);
  }

  /** A text the pattern does not match anywhere is returned whole. */
  lemma {:induction false} SplitWithoutMarker(s: string)
    requires !HasMarker(s)
    ensures SplitAtMarkers(s) == Split([s], [])
    decreases |s|
  {
    if s == [] {
    } else if IsDigit(s[0]) {
      var k := DigitRun(s);
      if k < |s| && IsMarkEnd(s[k]) {
        MarkerAtRunEnd(s);
        assert false;
      }
      assert !HasMarker(s[k..]) by {
        forall i | 0 <= i < |s[k..]| - 1 && IsDigit(s[k..][i]) ensures !IsMarkEnd(s[k..][i + 1]) {
          assert s[k..][i] == s[k + i] && s[k..][i + 1] == s[k + i + 1];
        }
      }
      SplitWithoutMarker(s[k..]);
      assert s[..k] + s[k..] == s;
    } else {
      assert !HasMarker(s[1..]) by {
        forall i | 0 <= i < |s[1..]| - 1 && IsDigit(s[1..][i]) ensures !IsMarkEnd(s[1..][i + 1]) {
          assert s[1..][i] == s[i + 1] && s[1..][i + 1] == s[i + 2];
        }
      }
      SplitWithoutMarker(s[1..]);
      assert [s[0]] + s[1..] == s;
    }
  }

  /** `[p.strip() for p in pieces if p.strip()]`. */
  function StrippedNonBlank(pieces: seq<string>): (r: seq<string>)
    ensures |r| <= |pieces|
    ensures forall x :: x in r ==> x != [] && Stripped(x)
  {
    if pieces == [] then []
    else
      var t := Strip(pieces[0]);
      var rest := StrippedNonBlank(pieces[1..]);
      var h := if t != [] then [t] else [];
      NonBlankStrippedConcat(h, rest);
      h + rest
  }

  lemma NonBlankStrippedConcat(h: seq<string>, rest: seq<string>)
    requires forall x :: x in h ==> x != [] && Stripped(x)
    requires forall x :: x in rest ==> x != [] && Stripped(x)
    ensures forall x :: x in h + rest ==> x != [] && Stripped(x)
  {
  }

  /** A text is kept exactly when it is a non-blank piece, stripped. */
  lemma {:induction false} StrippedNonBlankExact(pieces: seq<string>, x: string)
    ensures x in StrippedNonBlank(pieces) <==> x != [] && exists p :: p in pieces && Strip(p) == x
  {
    if pieces != [] {
      var t := Strip(pieces[0]);
      var rest := StrippedNonBlank(pieces[1..]);
      StrippedNonBlankExact(pieces[1..], x);
      assert StrippedNonBlank(pieces) == (if t != [] then [t] else []) + rest;
      if x in StrippedNonBlank(pieces) && x != t {
        var p :| p in pieces[1..] && Strip(p) == x;
        assert p in pieces;
      }
      if x != [] && exists p :: p in pieces && Strip(p) == x {
        var p :| p in pieces && Strip(p) == x;
        if p != pieces[0] {
          assert p in pieces[1..];
        }
      }
    }
  }

  /** The comprehension keeps the order and the multiplicity of the pieces: it works
      piece by piece, so it distributes over concatenation. */
  lemma {:induction false} StrippedNonBlankAppend(a: seq<string>, b: seq<string>)
    ensures StrippedNonBlank(a + b) == StrippedNonBlank(a) + StrippedNonBlank(b)
    decreases |a|
  {
    if a == [] {
      assert a + b == b;
    } else {
      var ab := a + b;
      assert ab[0] == a[0] && ab[1..] == a[1..] + b;
      StrippedNonBlankAppend(a[1..], b);
      StrippedNonBlankCons(ab);
      StrippedNonBlankCons(a);
      var h := if Strip(a[0]) != [] then [Strip(a[0])] else [];
      Regrouped(h, StrippedNonBlank(ab), StrippedNonBlank(a[1..]), StrippedNonBlank(a), StrippedNonBlank(b));
    }
  }

  lemma StrippedNonBlankCons(s: seq<string>)
    requires s != []
    ensures StrippedNonBlank(s) == (if Strip(s[0]) != [] then [Strip(s[0])] else []) + StrippedNonBlank(s[1..])
  {
  }

  /** One piece is kept, stripped, unless it is blank. */
  lemma StrippedNonBlankOne(p: string)
    ensures StrippedNonBlank([p]) == if Strip(p) == [] then [] else [Strip(p)]
  {
    assert [p][1..] == [];
  }

  /** `break_sentence(text)`: the stripped, non-blank pieces of the split. */
  function BreakSentence(text: string): (sentences: seq<string>)
    ensures forall x :: x in sentences ==> x != [] && Stripped(x)
  {
    StrippedNonBlank(SplitAtMarkers(text).pieces)
  }

  lemma {:induction false} SubstringHasNoMarker(p: string, i: nat, j: nat)
    requires i <= j <= |p| && !HasMarker(p)
    ensures !HasMarker(p[i..j])
  {
    var q := p[i..j];
    forall k | 0 <= k < |q| - 1 && IsDigit(q[k]) ensures !IsMarkEnd(q[k + 1]) {
      assert q[k] == p[i + k] && q[k + 1] == p[i + k + 1];
    }
  }

  /** The markers are removed: no sentence contains a digit followed by `.` or `,`. */
  lemma BrokenSentencesHaveNoMarker(text: string, x: string)
    requires x in BreakSentence(text)
    ensures !HasMarker(x)
  {
    var pieces := SplitAtMarkers(text).pieces;
    PiecesHaveNoMarker(text);
    StrippedNonBlankExact(pieces, x);
    var p :| p in pieces && Strip(p) == x;
    var i, j :| 0 <= i <= j <= |p| && Strip(p) == p[i..j];
    SubstringHasNoMarker(p, i, j);
  }

  /** Text without a marker gives at most one sentence: itself stripped, or nothing
      when it is blank. */
  lemma BreakSentenceWithoutMarker(text: string)
    requires !HasMarker(text)
    ensures BreakSentence(text) == if Strip(text) == [] then [] else [Strip(text)]
  {
    SplitWithoutMarker(text);
    assert [text][1..] == [];
  }
}
