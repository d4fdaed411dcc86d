/**
 * Indentation in the code editor: a line's indentation, re-indentation as the
 * smallest edit, and the tab-stop arithmetic of `tab`, `indent` and `outdent`.
 * Every character is one byte and one column.
 */
module Indentation {
  import opened Wrappers

  /** ASCII whitespace: tab, line feed, vertical tab, form feed, carriage return and space. */
  predicate IsWhitespace(c: char)
  {
    '\t' <= c <= '\r' || c == ' '
  }

  /** The index of the first non-whitespace character, if any. */
  function FirstNonWhitespace(s: string): (r: Option<nat>)
    ensures r.Some? ==> (r.value < |s| && !IsWhitespace(s[r.value])
      && forall i :: 0 <= i < r.value ==> IsWhitespace(s[i]))
    ensures r.None? <==> forall i :: 0 <= i < |s| ==> IsWhitespace(s[i])
  {
    if s == [] then None
    else if !IsWhitespace(s[0]) then Some(0)
    else
      match FirstNonWhitespace(s[1..])
      case Some(n) => Some(n + 1)
      case None => None
  }

  /**
   * `indent`: the whitespace a line starts with, when the line holds something
   * else too; a blank line has none.
   */
  function Indent(s: string): Option<string>
  {
    match FirstNonWhitespace(s)
    case Some(n) => Some(s[..n])
    case None => None
  }

  /** `indent().unwrap_or("")`. */
  function IndentOf(s: string): (r: string)
    ensures |r| <= |s| && r == s[..|r|]
    ensures forall i :: 0 <= i < |r| ==> IsWhitespace(s[i])
  {
    match Indent(s)
    case Some(ind) => ind
    case None => ""
  }

  /** A line starting with `n` whitespace characters and then something else has exactly those as its indentation. */
  lemma IndentOfPrefix(s: string, n: nat)
    requires n < |s| && !IsWhitespace(s[n])
    requires forall i :: 0 <= i < n ==> IsWhitespace(s[i])
    ensures IndentOf(s) == s[..n]
  {
    var f := FirstNonWhitespace(s);
    assert !IsWhitespace(s[n]);
    assert f.Some? && f.value <= n;
  }

  /** `new_indentation`: `n` spaces. */
  function NewIndentation(n: nat): (r: string)
    ensures |r| == n && forall i :: 0 <= i < n ==> r[i] == ' '
  {
    seq(n, _ => ' ')
  }

  /** `longest_common_prefix(..).len()`. */
  function CommonPrefixLen(a: string, b: string): (r: nat)
    ensures r <= |a| && r <= |b| && a[..r] == b[..r]
    ensures r < |a| && r < |b| ==> a[r] != b[r]
  {
    if a == [] || b == [] || a[0] != b[0] then 0 else 1 + CommonPrefixLen(a[1..], b[1..])
  }

  /** The edit `reindent` computes: keep `keep` bytes, delete `delete` more, insert `insert`. */
  datatype Reindentation = Reindentation(keep: nat, delete: nat, insert: string)

  /**
   * `reindent`: the smallest edit turning a line's indentation into `f` of its
   * width in spaces. The old indentation's common prefix with the new one is
   * kept, the rest of the old indentation deleted, the rest of the new inserted.
   */
  function Reindent(s: string, f: nat -> nat): (r: Reindentation)
    ensures var ind := IndentOf(s); var target := NewIndentation(f(|ind|));
      && r.keep + r.delete == |ind| && r.keep <= |target|
      && ind[..r.keep] + r.insert == target
      && (r.keep < |ind| && r.keep < |target| ==> ind[r.keep] != ' ')
  {
    var ind := IndentOf(s);
    var target := NewIndentation(f(|ind|));
    var len := CommonPrefixLen(ind, target);
    assert target == target[..len] + target[len..];
    Reindentation(len, |ind| - if len < |ind| then len else |ind|, target[len..])
  }

  /** Applies an edit to the start of a line. */
  function ApplyReindent(s: string, r: Reindentation): string
    requires r.keep + r.delete <= |s|
  {
    s[..r.keep] + r.insert + s[r.keep + r.delete..]
  }

  /** Applying `reindent`'s edit leaves the line with `f(width)` spaces of indentation and its text unchanged. */
  lemma ReindentRoundTrip(s: string, f: nat -> nat)
    ensures var r := Reindent(s, f); var ind := IndentOf(s);
      && r.keep + r.delete <= |s|
      && ApplyReindent(s, r) == NewIndentation(f(|ind|)) + s[|ind|..]
  {
    var r := Reindent(s, f);
    var ind := IndentOf(s);
    assert s[..r.keep] == ind[..r.keep];
  }

  // ---------------------------------------------------------------------------
  // Tab stops
  // ---------------------------------------------------------------------------

  /** A positive multiple of `tab` is at least `tab`. */
  lemma MulAtLeast(d: int, tab: int)
    requires d >= 1 && tab > 0
    ensures d * tab >= tab
  {
    assert d * tab == (d - 1) * tab + tab;
  }

  /** Quotient and remainder are the only pair that rebuilds `x`. */
  lemma DivModUnique(x: int, tab: int, q: int, m: int)
    requires tab > 0 && 0 <= m < tab && x == q * tab + m
    ensures x / tab == q && x % tab == m
  {
    var q0 := x / tab;
    var m0 := x % tab;
    assert x == q0 * tab + m0;
    assert (q - q0) * tab == m0 - m by {
      assert q * tab - q0 * tab == (q - q0) * tab;
    }
    if q > q0 {
      MulAtLeast(q - q0, tab);
    } else if q < q0 {
      assert (q0 - q) * tab == m - m0;
      MulAtLeast(q0 - q, tab);
    }
  }

  /** A multiple of `tab` leaves no remainder. */
  lemma MultipleMod(q: nat, tab: nat)
    requires tab > 0
    ensures (q * tab) % tab == 0
  {
    DivModUnique(q * tab, tab, q, 0);
  }

  /** Two multiples of `tab` less than `tab` apart are equal. */
  lemma StopsApart(a: nat, b: nat, tab: nat)
    requires tab > 0 && a % tab == 0 && b % tab == 0 && a <= b < a + tab
    ensures a == b
  {
    assert a == (a / tab) * tab;
    assert b == (b / tab) * tab;
    assert b - a == (b / tab - a / tab) * tab;
    if b / tab > a / tab {
      MulAtLeast(b / tab - a / tab, tab);
    }
  }

  /** `tab - column % tab` steps from `column` to a multiple of `tab`. */
  lemma NextStop(column: nat, tab: nat)
    requires tab > 0
    ensures (column + (tab - column % tab)) % tab == 0
  {
    var q := column / tab;
    assert column == q * tab + column % tab;
    assert column + (tab - column % tab) == (q + 1) * tab;
    MultipleMod(q + 1, tab);
  }

  /** `tab_column_count - column % tab_column_count`: the spaces `tab` and `indent` insert. */
  function TabColumns(column: nat, tab: nat): (r: nat)
    requires tab > 0
    ensures 1 <= r <= tab
    ensures (column + r) % tab == 0
  {
    NextStop(column, tab);
    tab - column % tab
  }

  /** `column + TabColumns(column, tab)` is the next tab stop: no other step of 1 to `tab` columns reaches one. */
  lemma TabColumnsUnique(column: nat, tab: nat, r: nat)
    requires tab > 0 && 1 <= r <= tab && (column + r) % tab == 0
    ensures r == TabColumns(column, tab)
  {
    var t := TabColumns(column, tab);
    if r <= t {
      StopsApart(column + r, column + t, tab);
    } else {
      StopsApart(column + t, column + r, tab);
    }
  }

  /** `min(indent, (indent + tab - 1) % tab + 1)`: the bytes `outdent` deletes. */
  function OutdentColumns(indent: nat, tab: nat): (r: nat)
    requires tab > 0
    ensures r <= indent
    ensures indent == 0 ==> r == 0
    ensures indent > 0 ==> 1 <= r <= tab && (indent - r) % tab == 0
  {
    var back := (indent + tab - 1) % tab + 1;
    var r := if indent < back then indent else back;
    if indent > 0 then PreviousStop(indent, tab); r else r
  }

  /** Stepping back from `indent` by `(indent + tab - 1) % tab + 1` lands on a tab stop, at most at column 0. */
  lemma PreviousStop(indent: nat, tab: nat)
    requires tab > 0 && indent > 0
    ensures (indent + tab - 1) % tab + 1 <= indent
    ensures (indent - ((indent + tab - 1) % tab + 1)) % tab == 0
  {
    var x := indent - 1;
    var q := x / tab;
    assert x == q * tab + x % tab;
    assert x + tab == (q + 1) * tab + x % tab;
    DivModUnique(x + tab, tab, q + 1, x % tab);
    assert q * tab >= 0;
    MultipleMod(q, tab);
  }

  /** `indent - OutdentColumns(indent, tab)` is the previous tab stop: no other step of 1 to `tab` columns back reaches one. */
  lemma OutdentColumnsUnique(indent: nat, tab: nat, r: nat)
    requires tab > 0 && 1 <= r <= tab && r <= indent && (indent - r) % tab == 0
    ensures r == OutdentColumns(indent, tab)
  {
    var t := OutdentColumns(indent, tab);
    if r <= t {
      StopsApart(indent - t, indent - r, tab);
    } else {
      StopsApart(indent - r, indent - t, tab);
    }
  }

  /** `tab` at a cursor with no selection: spaces up to the next tab stop. */
  function TabAt(line: string, byte: nat, tab: nat): (r: string)
    requires byte <= |line| && tab > 0
    ensures |r| == |line| + TabColumns(byte, tab)
    ensures r[..byte] == line[..byte] && r[byte + TabColumns(byte, tab)..] == line[byte..]
    ensures forall i :: byte <= i < byte + TabColumns(byte, tab) ==> r[i] == ' '
    ensures (byte + TabColumns(byte, tab)) % tab == 0
  {
    line[..byte] + NewIndentation(TabColumns(byte, tab)) + line[byte..]
  }

  /** `indent` on one line: spaces inserted at the end of its indentation, up to the next tab stop. */
  function IndentLine(line: string, tab: nat): string
    requires tab > 0
  {
    var k := |IndentOf(line)|;
    line[..k] + NewIndentation(TabColumns(k, tab)) + line[k..]
  }

  /** `outdent` on one line: bytes deleted at the end of its indentation, back to the previous tab stop. */
  function OutdentLine(line: string, tab: nat): string
    requires tab > 0
  {
    var k := |IndentOf(line)|;
    line[..k - OutdentColumns(k, tab)] + line[k..]
  }

  /** Whitespace followed by text that starts with something else is that text's indentation. */
  lemma IndentOfJoin(pre: string, rest: string)
    requires forall i :: 0 <= i < |pre| ==> IsWhitespace(pre[i])
    requires rest != [] && !IsWhitespace(rest[0])
    ensures IndentOf(pre + rest) == pre
  {
    var r := pre + rest;
    assert r[|pre|] == rest[0];
    assert r[..|pre|] == pre;
    IndentOfPrefix(r, |pre|);
  }

  /** Indenting a non-blank line moves its text to the next tab stop. */
  lemma IndentLineMeaning(line: string, tab: nat)
    requires tab > 0 && Indent(line).Some?
    ensures var k := |IndentOf(line)|; var w := |IndentOf(IndentLine(line, tab))|;
      && k < w <= k + tab && w % tab == 0
      && IndentLine(line, tab)[w..] == line[k..]
  {
    var k := |IndentOf(line)|;
    var c := TabColumns(k, tab);
    var r := IndentLine(line, tab);
    IndentLineShape(line, tab, k, c);
    assert |IndentOf(r)| == k + c && r[k + c..] == line[k..];
  }

  lemma IndentLineShape(line: string, tab: nat, k: nat, c: nat)
    requires tab > 0 && Indent(line).Some? && k == |IndentOf(line)| && c == TabColumns(k, tab)
    ensures |IndentOf(IndentLine(line, tab))| == k + c
    ensures IndentLine(line, tab)[k + c..] == line[k..]
  {
    assert FirstNonWhitespace(line) == Some(k);
    var pre := line[..k] + NewIndentation(c);
    assert forall i :: 0 <= i < |pre| ==> IsWhitespace(pre[i]);
    IndentOfJoin(pre, line[k..]);
    assert IndentLine(line, tab) == pre + line[k..];
  }

  /** Outdenting a line moves its text back to the previous tab stop, and leaves an unindented line alone. */
  lemma OutdentLineMeaning(line: string, tab: nat)
    requires tab > 0 && Indent(line).Some?
    ensures var k := |IndentOf(line)|; var w := |IndentOf(OutdentLine(line, tab))|;
      && (k == 0 ==> OutdentLine(line, tab) == line)
      && (k > 0 ==> k - tab <= w < k && w % tab == 0)
      && OutdentLine(line, tab)[w..] == line[k..]
  {
    var k := |IndentOf(line)|;
    assert FirstNonWhitespace(line) == Some(k);
    var pre := line[..k - OutdentColumns(k, tab)];
    IndentOfJoin(pre, line[k..]);
    assert OutdentLine(line, tab) == pre + line[k..];
  }

  /**
   * A blank line has no indentation of its own: indenting it puts a full tab of
   * spaces in front of it, and outdenting leaves it as it is.
   */
  lemma BlankLineMeaning(line: string, tab: nat)
    requires tab > 0 && Indent(line).None?
    ensures IndentLine(line, tab) == NewIndentation(tab) + line
    ensures OutdentLine(line, tab) == line
  {
    assert IndentOf(line) == "";
    assert line[..0] == "" && line[0..] == line;
  }
}
