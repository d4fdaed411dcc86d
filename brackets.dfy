/**
 * Bracket matching in the code editor: from a cursor, the nearest `{` before it
 * and the nearest `}` after it that enclose it, found by scans that count nesting
 * depth across line boundaries. Every character is one byte.
 */
module Brackets {
  import opened Wrappers

  /** A place in the text: a line index and a byte index in that line. */
  datatype Position = Position(line: nat, byte: nat)

  type Line = seq<char>

  predicate ValidPosition(lines: seq<Line>, p: Position)
  {
    p.line < |lines| && p.byte <= |lines[p.line]|
  }

  // ---------------------------------------------------------------------------
  // The text as one string, and its bracket depth
  // ---------------------------------------------------------------------------

  /** The lines joined; line breaks hold no bracket and are left out. */
  function Concat(lines: seq<Line>): seq<char>
  {
    if lines == [] then [] else Concat(lines[..|lines| - 1]) + lines[|lines| - 1]
  }

  lemma {:induction false} ConcatCons(x: Line, xs: seq<Line>)
    ensures Concat([x] + xs) == x + Concat(xs)
    decreases |xs|
  {
    if xs != [] {
      assert ([x] + xs)[..|xs|] == [x] + xs[..|xs| - 1];
      ConcatCons(x, xs[..|xs| - 1]);
    } else {
      assert ([x] + xs)[..0] == [];
    }
  }

  /** The text before a position. */
  function Before(lines: seq<Line>, line: nat, byte: nat): seq<char>
    requires line < |lines| && byte <= |lines[line]|
  {
    Concat(lines[..line]) + lines[line][..byte]
  }

  /** The text from a position on. */
  function After(lines: seq<Line>, line: nat, byte: nat): seq<char>
    requires line < |lines| && byte <= |lines[line]|
  {
    lines[line][byte..] + Concat(lines[line + 1..])
  }

  /** A closing brace counts one up, an opening brace one down. */
  function Weight(c: char): int
  {
    if c == '}' then 1 else if c == '{' then -1 else 0
  }

  /** Closing braces minus opening braces. */
  function Depth(s: seq<char>): int
  {
    if s == [] then 0 else Weight(s[0]) + Depth(s[1..])
  }

  lemma {:induction false} DepthAppend(a: seq<char>, b: seq<char>)
    ensures Depth(a + b) == Depth(a) + Depth(b)
  {
    if a != [] {
      assert (a + b)[0] == a[0];
      assert (a + b)[1..] == a[1..] + b;
      DepthAppend(a[1..], b);
    } else {
      assert a + b == b;
    }
  }

  /**
   * Scanning `t` backwards from its end with starting depth `d`, the `{` at `k` is
   * the first one met at depth 0: the braces after it balance to `-d`, and no
   * suffix after it has more opening than `d` plus its closing braces.
   */
  ghost predicate OpensAt(t: seq<char>, d: nat, k: nat)
  {
    && k < |t| && t[k] == '{' && d + Depth(t[k + 1..]) == 0
    && forall j :: k < j < |t| ==> d + Depth(t[j..]) >= 0
  }

  /** Scanning `t` backwards, the depth never drops below zero: no enclosing `{`. */
  ghost predicate NoOpening(t: seq<char>, d: nat)
  {
    forall j :: 0 <= j < |t| ==> d + Depth(t[j..]) >= 0
  }

  /** Scanning `t` forwards from depth `d`, the `}` at `k` is the first one met at depth 0. */
  ghost predicate ClosesAt(t: seq<char>, d: nat, k: nat)
  {
    && k < |t| && t[k] == '}' && d - Depth(t[..k]) == 0
    && forall j :: 0 < j <= k ==> d - Depth(t[..j]) >= 0
  }

  /** Scanning `t` forwards, the depth never drops below zero: no enclosing `}`. */
  ghost predicate NoClosing(t: seq<char>, d: nat)
  {
    forall j :: 0 < j <= |t| ==> d - Depth(t[..j]) >= 0
  }

  // ---------------------------------------------------------------------------
  // The scans, line by line
  // ---------------------------------------------------------------------------

  /** The backward scan from (`line`, `byte`) at nesting depth `depth`. */
  function OpenFrom(lines: seq<Line>, line: nat, byte: nat, depth: nat): Option<Position>
    requires line < |lines| && byte <= |lines[line]|
    decreases line, byte
  {
    if byte > 0 then
      var c := lines[line][byte - 1];
      if c == '{' && depth == 0 then Some(Position(line, byte - 1))
      else OpenFrom(lines, line, byte - 1, if c == '}' then depth + 1 else if c == '{' then depth - 1 else depth)
    else if line == 0 then None
    else OpenFrom(lines, line - 1, |lines[line - 1]|, depth)
  }

  /** The forward scan from (`line`, `byte`) at nesting depth `depth`. */
  function CloseFrom(lines: seq<Line>, line: nat, byte: nat, depth: nat): Option<Position>
    requires line < |lines| && byte <= |lines[line]|
    decreases |lines| - line, |lines[line]| - byte
  {
    if byte < |lines[line]| then
      var c := lines[line][byte];
      if c == '}' && depth == 0 then Some(Position(line, byte))
      else CloseFrom(lines, line, byte + 1, if c == '{' then depth + 1 else if c == '}' then depth - 1 else depth)
    else if line == |lines| - 1 then None
    else CloseFrom(lines, line + 1, 0, depth)
  }

  lemma DepthSnoc(t: seq<char>, c: char, j: nat)
    requires j <= |t|
    ensures Depth((t + [c])[j..]) == Depth(t[j..]) + Weight(c)
  {
    assert (t + [c])[j..] == t[j..] + [c];
    DepthAppend(t[j..], [c]);
  }

  /** One more character scanned backwards, at the depth it leads to, keeps the same enclosing `{`. */
  lemma OpensAtSnoc(t: seq<char>, c: char, d: nat, d': nat, k: nat)
    requires d' == d + Weight(c) && OpensAt(t, d', k)
    ensures OpensAt(t + [c], d, k)
  {
    var t2 := t + [c];
    DepthSnoc(t, c, k + 1);
    forall j | k < j < |t2| ensures d + Depth(t2[j..]) >= 0 {
      DepthSnoc(t, c, j);
      if j == |t| {
        assert t[j..] == [];
      }
    }
  }

  /** One more character scanned backwards, at the depth it leads to, still finds no enclosing `{`. */
  lemma NoOpeningSnoc(t: seq<char>, c: char, d: nat, d': nat)
    requires d' == d + Weight(c) && NoOpening(t, d')
    ensures NoOpening(t + [c], d)
  {
    var t2 := t + [c];
    forall j | 0 <= j < |t2| ensures d + Depth(t2[j..]) >= 0 {
      DepthSnoc(t, c, j);
      if j == |t| {
        assert t[j..] == [];
      }
    }
  }

  /** The backward scan finds the enclosing `{` of the text before the position, or reports that there is none. */
  lemma {:induction false} OpenFromMeaning(lines: seq<Line>, line: nat, byte: nat, d: nat)
    requires line < |lines| && byte <= |lines[line]|
    ensures var r := OpenFrom(lines, line, byte, d);
      && (r.Some? ==>
            && ValidPosition(lines, r.value) && r.value.byte < |lines[r.value.line]|
            && lines[r.value.line][r.value.byte] == '{'
            && OpensAt(Before(lines, line, byte), d, |Before(lines, r.value.line, r.value.byte)|))
      && (r.None? ==> NoOpening(Before(lines, line, byte), d))
    decreases line, byte
  {
    var t := Before(lines, line, byte);
    if byte > 0 {
      var c := lines[line][byte - 1];
      var t' := Before(lines, line, byte - 1);
      assert lines[line][..byte] == lines[line][..byte - 1] + [c];
      assert t == t' + [c];
      if c == '{' && d == 0 {
        assert t[|t'| + 1..] == [];
      } else {
        var d' := if c == '}' then d + 1 else if c == '{' then d - 1 else d;
        OpenFromMeaning(lines, line, byte - 1, d');
        var r := OpenFrom(lines, line, byte - 1, d');
        if r.Some? {
          OpensAtSnoc(t', c, d, d', |Before(lines, r.value.line, r.value.byte)|);
        } else {
          NoOpeningSnoc(t', c, d, d');
        }
      }
    } else if line > 0 {
      assert lines[..line][..line - 1] == lines[..line - 1];
      assert t == Before(lines, line - 1, |lines[line - 1]|);
      OpenFromMeaning(lines, line - 1, |lines[line - 1]|, d);
    } else {
      assert t == [];
    }
  }

  lemma DepthCons(t: seq<char>, c: char, j: nat)
    requires j <= |t|
    ensures Depth(([c] + t)[..j + 1]) == Weight(c) + Depth(t[..j])
  {
    assert ([c] + t)[..j + 1] == [c] + t[..j];
    DepthAppend([c], t[..j]);
  }

  /** One more character scanned forwards, at the depth it leads to, keeps the same enclosing `}`. */
  lemma ClosesAtCons(t: seq<char>, c: char, d: nat, d': nat, k: nat)
    requires d' == d - Weight(c) && ClosesAt(t, d', k)
    ensures ClosesAt([c] + t, d, k + 1)
  {
    var t2 := [c] + t;
    DepthCons(t, c, k);
    forall j | 0 < j <= k + 1 ensures d - Depth(t2[..j]) >= 0 {
      DepthCons(t, c, j - 1);
      if j == 1 {
        assert t[..0] == [];
      }
    }
  }

  /** One more character scanned forwards, at the depth it leads to, still finds no enclosing `}`. */
  lemma NoClosingCons(t: seq<char>, c: char, d: nat, d': nat)
    requires d' == d - Weight(c) && NoClosing(t, d')
    ensures NoClosing([c] + t, d)
  {
    var t2 := [c] + t;
    forall j | 0 < j <= |t2| ensures d - Depth(t2[..j]) >= 0 {
      DepthCons(t, c, j - 1);
      if j == 1 {
        assert t[..0] == [];
      }
    }
  }

  /** What `CloseFrom` from a position means for the text after it. */
  ghost predicate ClosingMeaning(lines: seq<Line>, line: nat, byte: nat, d: nat)
    requires line < |lines| && byte <= |lines[line]|
  {
    var r := CloseFrom(lines, line, byte, d);
    && (r.Some? ==>
          && ValidPosition(lines, r.value) && r.value.byte < |lines[r.value.line]|
          && lines[r.value.line][r.value.byte] == '}'
          && |After(lines, r.value.line, r.value.byte)| <= |After(lines, line, byte)|
          && ClosesAt(After(lines, line, byte), d, |After(lines, line, byte)| - |After(lines, r.value.line, r.value.byte)|))
    && (r.None? ==> NoClosing(After(lines, line, byte), d))
  }

  /** One character of the scan: the meaning after it gives the meaning before it. */
  lemma ClosingCharStep(lines: seq<Line>, line: nat, byte: nat, d: nat)
    requires line < |lines| && byte < |lines[line]|
    requires var c := lines[line][byte];
      !(c == '}' && d == 0) ==>
        ClosingMeaning(lines, line, byte + 1, if c == '{' then d + 1 else if c == '}' then d - 1 else d)
    ensures ClosingMeaning(lines, line, byte, d)
  {
    var t := After(lines, line, byte);
    var c := lines[line][byte];
    var t' := After(lines, line, byte + 1);
    assert lines[line][byte..] == [c] + lines[line][byte + 1..];
    assert t == [c] + t';
    if c == '}' && d == 0 {
      assert CloseFrom(lines, line, byte, d) == Some(Position(line, byte));
      assert t[..0] == [];
      assert ClosesAt(t, d, 0);
    } else {
      var d' := if c == '{' then d + 1 else if c == '}' then d - 1 else d;
      var r := CloseFrom(lines, line, byte + 1, d');
      assert r == CloseFrom(lines, line, byte, d);
      if r.Some? {
        var k' := |t'| - |After(lines, r.value.line, r.value.byte)|;
        ClosesAtCons(t', c, d, d', k');
        assert ClosesAt(t, d, |t| - |After(lines, r.value.line, r.value.byte)|);
      } else {
        NoClosingCons(t', c, d, d');
      }
    }
  }

  /** The text after the end of a line is the text from the start of the next one. */
  lemma AfterLineEnd(lines: seq<Line>, line: nat)
    requires line + 1 < |lines|
    ensures After(lines, line, |lines[line]|) == After(lines, line + 1, 0)
  {
    assert lines[line][|lines[line]|..] == [];
    assert lines[line + 1..] == [lines[line + 1]] + lines[line + 2..];
    ConcatCons(lines[line + 1], lines[line + 2..]);
    assert lines[line + 1][0..] == lines[line + 1];
  }

  /** The end of a line that is not the last: the scan moves on to the next line. */
  lemma ClosingLineStep(lines: seq<Line>, line: nat, d: nat)
    requires line + 1 < |lines|
    requires ClosingMeaning(lines, line + 1, 0, d)
    ensures ClosingMeaning(lines, line, |lines[line]|, d)
  {
    AfterLineEnd(lines, line);
    assert CloseFrom(lines, line + 1, 0, d) == CloseFrom(lines, line, |lines[line]|, d);
  }

  /** The forward scan finds the enclosing `}` of the text from the position on, or reports that there is none. */
  lemma {:induction false} CloseFromMeaning(lines: seq<Line>, line: nat, byte: nat, d: nat)
    requires line < |lines| && byte <= |lines[line]|
    ensures var r := CloseFrom(lines, line, byte, d);
      && (r.Some? ==>
            && ValidPosition(lines, r.value) && r.value.byte < |lines[r.value.line]|
            && lines[r.value.line][r.value.byte] == '}'
            && |After(lines, r.value.line, r.value.byte)| <= |After(lines, line, byte)|
            && ClosesAt(After(lines, line, byte), d, |After(lines, line, byte)| - |After(lines, r.value.line, r.value.byte)|))
      && (r.None? ==> NoClosing(After(lines, line, byte), d))
    decreases |lines| - line, |lines[line]| - byte
  {
    if byte < |lines[line]| {
      var c := lines[line][byte];
      if !(c == '}' && d == 0) {
        CloseFromMeaning(lines, line, byte + 1, if c == '{' then d + 1 else if c == '}' then d - 1 else d);
      }
      ClosingCharStep(lines, line, byte, d);
    } else if line < |lines| - 1 {
      CloseFromMeaning(lines, line + 1, 0, d);
      ClosingLineStep(lines, line, d);
    } else {
      assert lines[line][byte..] == [] && lines[line + 1..] == [];
      assert After(lines, line, byte) == [];
    }
    assert ClosingMeaning(lines, line, byte, d);
  }

  /**
   * `find_enclosing_opening_bracket`: walks backwards from the position, line by
   * line, counting `}` as one level deeper; the first `{` met at depth 0 is the
   * answer, and running off the start of the first line gives `None`. What that
   * answer means for the text before the position is `OpenFromMeaning`.
   */
  method FindEnclosingOpeningBracket(lines: seq<Line>, position: Position) returns (r: Option<Position>)
    requires ValidPosition(lines, position)
    ensures r == OpenFrom(lines, position.line, position.byte, 0)
  {
    var line: nat, byte: nat := position.line, position.byte;
    var depth: nat := 0;
    while true
      invariant line < |lines| && byte <= |lines[line]|
      invariant OpenFrom(lines, line, byte, depth) == OpenFrom(lines, position.line, position.byte, 0)
      decreases line, byte
    {
      while byte > 0
        invariant byte <= |lines[line]|
        invariant OpenFrom(lines, line, byte, depth) == OpenFrom(lines, position.line, position.byte, 0)
      {
        var c := lines[line][byte - 1];
        byte := byte - 1;
        if c == '}' {
          depth := depth + 1;
        }
        if c == '{' {
          if depth == 0 {
            return Some(Position(line, byte));
          }
          depth := depth - 1;
        }
      }
      if line == 0 {
        return None;
      }
      line := line - 1;
      byte := |lines[line]|;
    }
  }

  /**
   * `find_enclosing_closing_bracket`: walks forwards from the position, line by
   * line, counting `{` as one level deeper; the first `}` met at depth 0 is the
   * answer, and running off the end of the last line gives `None`. What that
   * answer means for the text from the position on is `CloseFromMeaning`.
   */
  method FindEnclosingClosingBracket(lines: seq<Line>, position: Position) returns (r: Option<Position>)
    requires ValidPosition(lines, position)
    ensures r == CloseFrom(lines, position.line, position.byte, 0)
  {
    var line: nat, byte: nat := position.line, position.byte;
    var depth: nat := 0;
    while true
      invariant line < |lines| && byte <= |lines[line]|
      invariant CloseFrom(lines, line, byte, depth) == CloseFrom(lines, position.line, position.byte, 0)
      decreases |lines| - line, |lines[line]| - byte
    {
      while byte < |lines[line]|
        invariant byte <= |lines[line]|
        invariant CloseFrom(lines, line, byte, depth) == CloseFrom(lines, position.line, position.byte, 0)
      {
        var c := lines[line][byte];
        if c == '{' {
          depth := depth + 1;
        }
        if c == '}' {
          if depth == 0 {
            return Some(Position(line, byte));
          }
          depth := depth - 1;
        }
        byte := byte + 1;
      }
      if line == |lines| - 1 {
        return None;
      }
      line := line + 1;
      byte := 0;
    }
  }

  // ---------------------------------------------------------------------------
  // Over all selections
  // ---------------------------------------------------------------------------

  /** A selection: the anchor stays put, the cursor moves. */
  datatype Selection = Selection(anchor: Position, cursor: Position)

  predicate IsEmpty(s: Selection)
  {
    s.anchor == s.cursor
  }

  /** Both enclosing brackets of a cursor, when it has both. */
  function BracketPair(lines: seq<Line>, p: Position): Option<(Position, Position)>
    requires ValidPosition(lines, p)
  {
    match (OpenFrom(lines, p.line, p.byte, 0), CloseFrom(lines, p.line, p.byte, 0))
    case (Some(a), Some(b)) => Some((a, b))
    case _ => None
  }

  /** `p` is one of the two enclosing brackets an empty selection shows. */
  ghost predicate Shows(lines: seq<Line>, s: Selection, p: Position)
  {
    && ValidPosition(lines, s.cursor) && IsEmpty(s) && BracketPair(lines, s.cursor).Some?
    && (p == BracketPair(lines, s.cursor).value.0 || p == BracketPair(lines, s.cursor).value.1)
  }

  /** The brackets the first `n` selections show. */
  function Shown(lines: seq<Line>, selections: seq<Selection>, n: nat): set<Position>
    requires n <= |selections|
    requires forall i :: 0 <= i < |selections| ==> ValidPosition(lines, selections[i].cursor)
  {
    if n == 0 then {}
    else
      var s := selections[n - 1];
      Shown(lines, selections, n - 1)
      + (if IsEmpty(s) && BracketPair(lines, s.cursor).Some?
         then {BracketPair(lines, s.cursor).value.0, BracketPair(lines, s.cursor).value.1} else {})
  }

  /**
   * Both brackets of a cursor or neither: every empty selection with both enclosing
   * brackets contributes both, and every position shown belongs to such a pair.
   */
  lemma {:induction false} ShownMeaning(lines: seq<Line>, selections: seq<Selection>, n: nat, p: Position)
    requires n <= |selections|
    requires forall i :: 0 <= i < |selections| ==> ValidPosition(lines, selections[i].cursor)
    ensures p in Shown(lines, selections, n) <==> exists i :: 0 <= i < n && Shows(lines, selections[i], p)
  {
    if n > 0 {
      ShownMeaning(lines, selections, n - 1, p);
      if Shows(lines, selections[n - 1], p) {
        assert p in Shown(lines, selections, n);
      }
    }
  }

  /**
   * `find_enclosing_brackets`: for every empty selection whose cursor has both an
   * enclosing `{` and an enclosing `}`, both positions are collected; a cursor
   * with only one of them, and every non-empty selection, contribute nothing
   * (`ShownMeaning`).
   */
  method FindEnclosingBrackets(lines: seq<Line>, selections: seq<Selection>) returns (r: set<Position>)
    requires forall i :: 0 <= i < |selections| ==> ValidPosition(lines, selections[i].cursor)
    ensures r == Shown(lines, selections, |selections|)
  {
    r := {};
    for i := 0 to |selections|
      invariant r == Shown(lines, selections, i)
    {
      var selection := selections[i];
      if !IsEmpty(selection) {
        continue;
      }
      var before := FindEnclosingOpeningBracket(lines, selection.cursor);
      var after := FindEnclosingClosingBracket(lines, selection.cursor);
      if before.Some? && after.Some? {
        r := r + {before.value, after.value};
      }
    }
  }
}
