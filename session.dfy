/**
 * The code editor's session state: the fold sets that `fold` and `unfold`
 * move lines between, the wrap column, and the per-line layout vectors that
 * `apply_edits` splices and drains as lines appear and disappear.
 */
module EditorSession {
  import opened Wrappers
  import opened Indentation

  /**
   * Wrap data of one line. `Computed(line, column)` stands for what the wrap
   * computation produces for that line at that wrap column; without a wrap
   * column a line gets the default.
   */
  datatype WrapData = DefaultWrap | Computed(line: nat, column: nat)

  /** What `update_wrap_data` stores for `line`. */
  function WrapFor(line: nat, wrapColumn: Option<nat>): WrapData
  {
    match wrapColumn
    case None => DefaultWrap
    case Some(c) => Computed(line, c)
  }

  /**
   * The column count of one line: `Measured(line, column)` stands for the width
   * `update_column_count` measures on that line laid out at that wrap column
   * (the widest wrapped row); the laid-out line itself is not modelled.
   */
  datatype ColumnCount = Measured(line: nat, wrapColumn: Option<nat>)

  /**
   * A change to the document, as far as the layout cares: the line it starts
   * on and how many line breaks it inserts or deletes.
   */
  datatype Edit = Insert(line: nat, lineCount: nat) | Delete(line: nat, lineCount: nat)

  /** The per-line layout vectors, one entry per document line. */
  datatype Layout = Layout(
    columnCount: seq<Option<ColumnCount>>,
    foldColumn: seq<nat>,
    scale: seq<real>,
    wrapData: seq<Option<WrapData>>)

  /** The four vectors have the same length. */
  predicate Aligned(l: Layout)
  {
    |l.columnCount| == |l.foldColumn| == |l.scale| == |l.wrapData|
  }

  /**
   * `r` is `s` with `k` copies of `d` inserted at `at`: entries before `at`
   * kept, the new ones equal to `d`, the rest moved down by `k`.
   */
  ghost predicate Inserted<T>(s: seq<T>, r: seq<T>, at: nat, k: nat, d: T)
  {
    && at <= |s| && |r| == |s| + k
    && (forall i :: 0 <= i < at ==> r[i] == s[i])
    && (forall i :: at <= i < at + k ==> r[i] == d)
    && (forall i :: at <= i < |s| ==> r[i + k] == s[i])
  }

  /** `r` is `s` without the entries `[from, to)`: entries before kept, the rest moved up. */
  ghost predicate Drained<T>(s: seq<T>, r: seq<T>, from: nat, to: nat)
  {
    && from <= to <= |s| && |r| == |s| - (to - from)
    && (forall i :: 0 <= i < from ==> r[i] == s[i])
    && (forall i :: to <= i < |s| ==> r[i - (to - from)] == s[i])
  }

  /** `Vec::splice(at..at, k copies of d)`; `None` where the range is out of bounds and the call panics. */
  function SpliceIn<T>(s: seq<T>, at: nat, k: nat, d: T): (r: Option<seq<T>>)
    ensures r.Some? <==> at <= |s|
    ensures r.Some? ==> Inserted(s, r.value, at, k, d)
  {
    if at <= |s| then Some(s[..at] + seq(k, _ => d) + s[at..]) else None
  }

  /** `Vec::drain(from..to)`; `None` where the range is out of bounds and the call panics. */
  function DrainOut<T>(s: seq<T>, from: nat, to: nat): (r: Option<seq<T>>)
    ensures r.Some? <==> from <= to <= |s|
    ensures r.Some? ==> Drained(s, r.value, from, to)
  {
    if from <= to <= |s| then Some(s[..from] + s[to..]) else None
  }

  /**
   * One step of `apply_edits`: the edited line's column count and wrap data
   * are reset; an insert of `k > 0` line breaks adds `k` default entries after
   * it, a delete of `k > 0` line breaks drains the `k` entries after it.
   * `None` where the source panics on an index or range out of bounds.
   */
  function Edited(l: Layout, e: Edit): Option<Layout>
  {
    if e.line >= |l.columnCount| || e.line >= |l.wrapData| then None
    else
      var cc := l.columnCount[e.line := None];
      var wd := l.wrapData[e.line := None];
      var k := e.lineCount;
      var at := e.line + 1;
      if k == 0 then Some(Layout(cc, l.foldColumn, l.scale, wd))
      else if e.Insert? then
        var cc', fc', sc', wd' := SpliceIn(cc, at, k, None), SpliceIn(l.foldColumn, at, k, 0),
          SpliceIn(l.scale, at, k, 1.0), SpliceIn(wd, at, k, None);
        if cc'.Some? && fc'.Some? && sc'.Some? && wd'.Some? then
          Some(Layout(cc'.value, fc'.value, sc'.value, wd'.value))
        else None
      else
        var cc', fc', sc', wd' := DrainOut(cc, at, at + k), DrainOut(l.foldColumn, at, at + k),
          DrainOut(l.scale, at, at + k), DrainOut(wd, at, at + k);
        if cc'.Some? && fc'.Some? && sc'.Some? && wd'.Some? then
          Some(Layout(cc'.value, fc'.value, sc'.value, wd'.value))
        else None
  }

  /** The edits applied in order; `None` as soon as one panics. */
  function EditedAll(l: Layout, edits: seq<Edit>): Option<Layout>
    decreases |edits|
  {
    if edits == [] then Some(l)
    else match Edited(l, edits[0])
      case None => None
      case Some(l') => EditedAll(l', edits[1..])
  }

  /** The line-count change an edit makes. */
  function Delta(e: Edit): int
  {
    if e.Insert? then e.lineCount else -(e.lineCount as int)
  }

  /** On aligned vectors an edit succeeds exactly when its line exists and, for a delete, the drained lines exist. */
  lemma EditedDefined(l: Layout, e: Edit)
    requires Aligned(l)
    ensures Edited(l, e).Some? <==>
      e.line < |l.columnCount| && (e.Delete? && e.lineCount > 0 ==> e.line + 1 + e.lineCount <= |l.columnCount|)
  {
  }

  /** An edit keeps the four vectors aligned and changes their length by the number of line breaks inserted or deleted. */
  lemma EditedAligned(l: Layout, e: Edit)
    requires Aligned(l) && Edited(l, e).Some?
    ensures Aligned(Edited(l, e).value)
    ensures |Edited(l, e).value.columnCount| == |l.columnCount| + Delta(e)
  {
  }

  /** The edits applied in order keep the vectors aligned. */
  lemma {:induction false} EditedAllAligned(l: Layout, edits: seq<Edit>)
    requires Aligned(l) && EditedAll(l, edits).Some?
    ensures Aligned(EditedAll(l, edits).value)
    decreases |edits|
  {
    if edits != [] {
      EditedAligned(l, edits[0]);
      EditedAllAligned(Edited(l, edits[0]).value, edits[1..]);
    }
  }

  /**
   * After an insert of `k` line breaks at `line`: the line's column count and
   * wrap data are reset, and every vector gets `k` default entries after the
   * line, the later lines moving down by `k`.
   */
  lemma InsertedEntries(l: Layout, line: nat, k: nat)
    requires Aligned(l) && line < |l.columnCount|
    ensures var r := Edited(l, Insert(line, k));
      && r.Some?
      && Inserted(l.columnCount[line := None], r.value.columnCount, line + 1, k, None)
      && Inserted(l.foldColumn, r.value.foldColumn, line + 1, k, 0)
      && Inserted(l.scale, r.value.scale, line + 1, k, 1.0)
      && Inserted(l.wrapData[line := None], r.value.wrapData, line + 1, k, None)
  {
  }

  /**
   * After a delete of `k` line breaks at `line`: the line's column count and
   * wrap data are reset, and the `k` entries after the line are drained from
   * every vector, the later lines moving up by `k`.
   */
  lemma DeletedEntries(l: Layout, line: nat, k: nat)
    requires Aligned(l) && line + 1 + k <= |l.columnCount|
    ensures var r := Edited(l, Delete(line, k));
      && r.Some?
      && Drained(l.columnCount[line := None], r.value.columnCount, line + 1, line + 1 + k)
      && Drained(l.foldColumn, r.value.foldColumn, line + 1, line + 1 + k)
      && Drained(l.scale, r.value.scale, line + 1, line + 1 + k)
      && Drained(l.wrapData[line := None], r.value.wrapData, line + 1, line + 1 + k)
  {
  }

  /** Every line that has wrap data also has a column count: the two are computed together and reset together. */
  ghost predicate CountsKnown(l: Layout)
  {
    Aligned(l) && forall i :: 0 <= i < |l.wrapData| && l.wrapData[i].Some? ==> l.columnCount[i].Some?
  }

  /** Inserting `None` into both vectors at the same place keeps every line with wrap data counted. */
  lemma InsertKeepsCounts(cc: seq<Option<ColumnCount>>, wd: seq<Option<WrapData>>,
                          cc': seq<Option<ColumnCount>>, wd': seq<Option<WrapData>>, at: nat, k: nat)
    requires |cc| == |wd| && forall i :: 0 <= i < |wd| && wd[i].Some? ==> cc[i].Some?
    requires Inserted(cc, cc', at, k, None) && Inserted(wd, wd', at, k, None)
    ensures |cc'| == |wd'| && forall i :: 0 <= i < |wd'| && wd'[i].Some? ==> cc'[i].Some?
  {
    forall i | 0 <= i < |wd'| && wd'[i].Some? ensures cc'[i].Some? {
      if at + k <= i {
        assert wd'[i] == wd[i - k] && cc'[i] == cc[i - k];
      }
    }
  }

  /** Draining the same range from both vectors keeps every line with wrap data counted. */
  lemma DrainKeepsCounts(cc: seq<Option<ColumnCount>>, wd: seq<Option<WrapData>>,
                         cc': seq<Option<ColumnCount>>, wd': seq<Option<WrapData>>, from: nat, to: nat)
    requires |cc| == |wd| && forall i :: 0 <= i < |wd| && wd[i].Some? ==> cc[i].Some?
    requires Drained(cc, cc', from, to) && Drained(wd, wd', from, to)
    ensures |cc'| == |wd'| && forall i :: 0 <= i < |wd'| && wd'[i].Some? ==> cc'[i].Some?
  {
    forall i | 0 <= i < |wd'| && wd'[i].Some? ensures cc'[i].Some? {
      if from <= i {
        var j := i + (to - from);
        assert wd'[j - (to - from)] == wd[j] && cc'[j - (to - from)] == cc[j];
      }
    }
  }

  /** An edit resets both entries of the edited line and inserts or drains both vectors alike. */
  lemma EditedKeepsCounts(l: Layout, e: Edit)
    requires CountsKnown(l) && Edited(l, e).Some?
    ensures CountsKnown(Edited(l, e).value)
  {
    if e.lineCount == 0 {
      ResetEditKeepsCounts(l, e);
    } else if e.Insert? {
      InsertEditKeepsCounts(l, e);
    } else {
      DeleteEditKeepsCounts(l, e);
    }
  }

  /** An edit without line breaks only resets the edited line. */
  lemma ResetEditKeepsCounts(l: Layout, e: Edit)
    requires CountsKnown(l) && Edited(l, e).Some? && e.lineCount == 0
    ensures CountsKnown(Edited(l, e).value)
  {
    EditedAligned(l, e);
    ResetKeepsCounts(l.columnCount, l.wrapData, e.line);
    var r := Edited(l, e).value;
    assert r.columnCount == l.columnCount[e.line := None] && r.wrapData == l.wrapData[e.line := None];
  }

  /** An insert of line breaks resets the edited line and inserts empty entries after it in both vectors. */
  lemma InsertEditKeepsCounts(l: Layout, e: Edit)
    requires CountsKnown(l) && Edited(l, e).Some? && e.lineCount > 0 && e.Insert?
    ensures CountsKnown(Edited(l, e).value)
  {
    EditedAligned(l, e);
    var cc, wd := l.columnCount[e.line := None], l.wrapData[e.line := None];
    ResetKeepsCounts(l.columnCount, l.wrapData, e.line);
    var r := Edited(l, e).value;
    InsertedEntries(l, e.line, e.lineCount);
    InsertKeepsCounts(cc, wd, r.columnCount, r.wrapData, e.line + 1, e.lineCount);
  }

  /** A delete of line breaks resets the edited line and drains the same entries after it from both vectors. */
  lemma DeleteEditKeepsCounts(l: Layout, e: Edit)
    requires CountsKnown(l) && Edited(l, e).Some? && e.lineCount > 0 && e.Delete?
    ensures CountsKnown(Edited(l, e).value)
  {
    EditedAligned(l, e);
    var cc, wd := l.columnCount[e.line := None], l.wrapData[e.line := None];
    ResetKeepsCounts(l.columnCount, l.wrapData, e.line);
    var r := Edited(l, e).value;
    DeletedEntries(l, e.line, e.lineCount);
    DrainKeepsCounts(cc, wd, r.columnCount, r.wrapData, e.line + 1, e.line + 1 + e.lineCount);
  }

  /** Resetting both entries of one line keeps every line with wrap data counted. */
  lemma ResetKeepsCounts(cc: seq<Option<ColumnCount>>, wd: seq<Option<WrapData>>, line: nat)
    requires |cc| == |wd| && line < |cc| && forall i :: 0 <= i < |wd| && wd[i].Some? ==> cc[i].Some?
    ensures var cc', wd' := cc[line := None], wd[line := None];
      |cc'| == |wd'| && forall i :: 0 <= i < |wd'| && wd'[i].Some? ==> cc'[i].Some?
  {
  }

  lemma {:induction false} EditedAllKeepsCounts(l: Layout, edits: seq<Edit>)
    requires CountsKnown(l) && EditedAll(l, edits).Some?
    ensures CountsKnown(EditedAll(l, edits).value)
    decreases |edits|
  {
    if edits != [] {
      EditedKeepsCounts(l, edits[0]);
      EditedAllKeepsCounts(Edited(l, edits[0]).value, edits[1..]);
    }
  }

  /** The edited line with its column count and wrap data reset. */
  function Reset(l: Layout, line: nat): Layout
    requires line < |l.columnCount| && line < |l.wrapData|
  {
    l.(columnCount := l.columnCount[line := None], wrapData := l.wrapData[line := None])
  }

  /** Draining the entries a splice inserted gives back the original vector. */
  lemma SpliceThenDrain<T>(s: seq<T>, at: nat, k: nat, d: T)
    requires at <= |s|
    ensures DrainOut(SpliceIn(s, at, k, d).value, at, at + k) == Some(s)
  {
    var m := SpliceIn(s, at, k, d).value;
    assert m[..at] + m[at + k..] == s by {
      assert m[..at] == s[..at];
      assert m[at + k..] == s[at..];
    }
  }

  /** Deleting the line breaks an insert added undoes it, up to the reset of the edited line. */
  lemma InsertThenDelete(l: Layout, line: nat, k: nat)
    requires Aligned(l) && line < |l.columnCount|
    ensures Edited(l, Insert(line, k)).Some?
    ensures Edited(Edited(l, Insert(line, k)).value, Delete(line, k)) == Some(Reset(l, line))
  {
    var m := Edited(l, Insert(line, k)).value;
    var cc := l.columnCount[line := None];
    var wd := l.wrapData[line := None];
    assert m.columnCount[line := None] == m.columnCount;
    assert m.wrapData[line := None] == m.wrapData;
    if k > 0 {
      SpliceThenDrain(cc, line + 1, k, None);
      SpliceThenDrain(l.foldColumn, line + 1, k, 0);
      SpliceThenDrain(l.scale, line + 1, k, 1.0);
      SpliceThenDrain(wd, line + 1, k, None);
    }
  }

  /**
   * The layout after the wrap loop of `apply_edits` over the first `n` lines:
   * a line left without wrap data gets it (`update_wrap_data`) and has its
   * column count measured anew; no other entry changes.
   */
  function Refreshed(l: Layout, wrapColumn: Option<nat>, n: nat): (r: Layout)
    requires Aligned(l) && n <= |l.wrapData|
    ensures Aligned(r) && |r.wrapData| == |l.wrapData|
    ensures r.foldColumn == l.foldColumn && r.scale == l.scale
    ensures forall i :: 0 <= i < n ==> r.wrapData[i].Some?
    ensures CountsKnown(l) ==> CountsKnown(r) && forall i :: 0 <= i < n ==> r.columnCount[i].Some?
    ensures forall i :: 0 <= i < |l.wrapData| && (n <= i || l.wrapData[i].Some?) ==>
      r.wrapData[i] == l.wrapData[i] && r.columnCount[i] == l.columnCount[i]
    ensures forall i :: 0 <= i < n && l.wrapData[i].None? ==>
      r.wrapData[i] == Some(WrapFor(i, wrapColumn)) && r.columnCount[i] == Some(Measured(i, wrapColumn))
  {
    var stale := (i: nat) => i < n && i < |l.wrapData| && l.wrapData[i].None?;
    l.(wrapData := seq(|l.wrapData|, i requires 0 <= i < |l.wrapData| =>
                       if stale(i) then Some(WrapFor(i, wrapColumn)) else l.wrapData[i]),
       columnCount := seq(|l.columnCount|, i requires 0 <= i < |l.columnCount| =>
                          if stale(i) then Some(Measured(i, wrapColumn)) else l.columnCount[i]))
  }

  /** The lines `fold` starts folding: indented at least `foldLevel` tab stops and not folded yet. */
  function FoldTargets(lines: seq<string>, folded: set<nat>, tab: nat, foldLevel: nat, n: nat): (r: set<nat>)
    requires tab > 0 && n <= |lines|
    ensures forall i :: i in r <==> 0 <= i < n && |IndentOf(lines[i])| / tab >= foldLevel && i !in folded
  {
    set i: nat | i < n && |IndentOf(lines[i])| / tab >= foldLevel && i !in folded
  }

  /** The targets among the first `n + 1` lines are those among the first `n`, plus line `n` if it qualifies. */
  lemma FoldTargetsStep(lines: seq<string>, folded: set<nat>, tab: nat, foldLevel: nat, n: nat)
    requires tab > 0 && n < |lines|
    ensures FoldTargets(lines, folded, tab, foldLevel, n + 1) ==
      FoldTargets(lines, folded, tab, foldLevel, n)
      + if |IndentOf(lines[n])| / tab >= foldLevel && n !in folded then {n} else {}
  {
  }

  /** `fc` is `before` with the entries of `targets` set to `column`. */
  ghost predicate ColumnsSet(before: seq<nat>, fc: seq<nat>, targets: set<nat>, column: nat)
  {
    |fc| == |before| && forall i :: 0 <= i < |fc| ==> fc[i] == if i in targets then column else before[i]
  }

  lemma ColumnsSetStep(before: seq<nat>, fc: seq<nat>, targets: set<nat>, column: nat, line: nat)
    requires ColumnsSet(before, fc, targets, column) && line < |fc|
    ensures ColumnsSet(before, fc[line := column], targets + {line}, column)
  {
  }

  /** No element is in two of the sets at once. */
  ghost predicate Disjoint3(a: set<nat>, b: set<nat>, c: set<nat>)
  {
    a * b == {} && a * c == {} && b * c == {}
  }

  /** Moving lines that are not folded from unfolding to folding keeps the fold sets disjoint. */
  lemma FoldKeepsDisjoint(folding: set<nat>, folded: set<nat>, unfolding: set<nat>, targets: set<nat>)
    requires targets * folded == {} && Disjoint3(folding, folded, unfolding)
    ensures Disjoint3(folding + targets, folded, unfolding - targets)
  {
  }

  /**
   * The loop of `fold`, over the fold state as values: every line indented at least
   * `foldLevel` tab stops and not folded yet moves from unfolding to folding, with
   * its fold column set to `foldLevel` tab stops.
   */
  method FoldScan(lines: seq<string>, folded: set<nat>, tab: nat, foldLevel: nat,
                  folding: set<nat>, unfolding: set<nat>, foldColumn: seq<nat>)
    returns (folding': set<nat>, unfolding': set<nat>, foldColumn': seq<nat>)
    requires tab > 0 && |lines| <= |foldColumn|
    ensures var targets := FoldTargets(lines, folded, tab, foldLevel, |lines|);
      && folding' == folding + targets
      && unfolding' == unfolding - targets
      && ColumnsSet(foldColumn, foldColumn', targets, foldLevel * tab)
  {
    folding', unfolding', foldColumn' := folding, unfolding, foldColumn;
    var line := 0;
    while line < |lines|
      invariant line <= |lines|
      invariant folding' == folding + FoldTargets(lines, folded, tab, foldLevel, line)
      invariant unfolding' == unfolding - FoldTargets(lines, folded, tab, foldLevel, line)
      invariant ColumnsSet(foldColumn, foldColumn', FoldTargets(lines, folded, tab, foldLevel, line), foldLevel * tab)
    {
      FoldTargetsStep(lines, folded, tab, foldLevel, line);
      if |IndentOf(lines[line])| / tab >= foldLevel && line !in folded {
        ColumnsSetStep(foldColumn, foldColumn', FoldTargets(lines, folded, tab, foldLevel, line), foldLevel * tab, line);
        foldColumn' := foldColumn'[line := foldLevel * tab];
        unfolding' := unfolding' - {line};
        folding' := folding' + {line};
      }
      line := line + 1;
    }
  }

  /** The wrap loop of `apply_edits` over the layout vectors as values. */
  method RefreshLines(l: Layout, wrapColumn: Option<nat>, n: nat) returns (r: Layout)
    requires Aligned(l) && n <= |l.wrapData|
    ensures r == Refreshed(l, wrapColumn, n)
  {
    ghost var goal := Refreshed(l, wrapColumn, n);
    r := l;
    for line := 0 to n
      invariant Aligned(r) && |r.wrapData| == |l.wrapData|
      invariant r.foldColumn == l.foldColumn && r.scale == l.scale
      invariant forall i :: 0 <= i < line ==> r.wrapData[i] == goal.wrapData[i] && r.columnCount[i] == goal.columnCount[i]
      invariant forall i :: line <= i < |l.wrapData| ==> r.wrapData[i] == l.wrapData[i] && r.columnCount[i] == l.columnCount[i]
    {
      if r.wrapData[line].None? {
        r := r.(wrapData := r.wrapData[line := Some(WrapFor(line, wrapColumn))],
                columnCount := r.columnCount[line := Some(Measured(line, wrapColumn))]);
      }
    }
    assert r.wrapData == goal.wrapData;
    assert r.columnCount == goal.columnCount;
  }

  class Session {
    var wrapColumn: Option<nat>
    var foldingLines: set<nat>
    var foldedLines: set<nat>
    var unfoldingLines: set<nat>
    var columnCount: seq<Option<ColumnCount>>
    var foldColumn: seq<nat>
    var scale: seq<real>
    var wrapData: seq<Option<WrapData>>
    const tabColumnCount: nat
    const foldLevel: nat

    /** The layout vectors as one value. */
    function CurrentLayout(): Layout
      reads this
    {
      Layout(columnCount, foldColumn, scale, wrapData)
    }

    /** No line is in two of the fold sets at once. */
    ghost predicate FoldsDisjoint()
      reads this
    {
      Disjoint3(foldingLines, foldedLines, unfoldingLines)
    }

    /**
     * A session for a document of `lineCount` lines: nothing folded, no wrap
     * column, default layout entries, then every line's wrap data and column
     * count computed once.
     */
    constructor (lineCount: nat, tab: nat, level: nat)
      requires tab > 0
      ensures tabColumnCount == tab && foldLevel == level && wrapColumn == None
      ensures foldingLines == {} && foldedLines == {} && unfoldingLines == {}
      ensures columnCount == seq(lineCount, i requires 0 <= i => Some(Measured(i, None)))
      ensures foldColumn == seq(lineCount, _ => 0)
      ensures scale == seq(lineCount, _ => 1.0)
      ensures wrapData == seq(lineCount, _ => Some(DefaultWrap))
      ensures CountsKnown(CurrentLayout()) && FoldsDisjoint()
    {
      tabColumnCount := tab;
      foldLevel := level;
      wrapColumn := None;
      foldingLines, foldedLines, unfoldingLines := {}, {}, {};
      columnCount := seq(lineCount, i requires 0 <= i => Some(Measured(i, None)));
      foldColumn := seq(lineCount, _ => 0);
      scale := seq(lineCount, _ => 1.0);
      wrapData := seq(lineCount, _ => Some(DefaultWrap));
    }

    /**
     * `fold`: every line of `lines` indented at least `foldLevel` tab stops
     * and not folded yet starts folding at column `foldLevel * tab`, and stops
     * unfolding.
     */
    method Fold(lines: seq<string>)
      requires tabColumnCount > 0 && |lines| <= |foldColumn|
      modifies this
      ensures old(Aligned(CurrentLayout())) ==> Aligned(CurrentLayout())
      ensures var targets := FoldTargets(lines, old(foldedLines), tabColumnCount, foldLevel, |lines|);
        && foldingLines == old(foldingLines) + targets
        && unfoldingLines == old(unfoldingLines) - targets
        && ColumnsSet(old(foldColumn), foldColumn, targets, foldLevel * tabColumnCount)
      ensures foldedLines == old(foldedLines) && wrapColumn == old(wrapColumn)
      ensures columnCount == old(columnCount) && scale == old(scale) && wrapData == old(wrapData)
      ensures old(FoldsDisjoint()) ==> FoldsDisjoint()
    {
      foldingLines, unfoldingLines, foldColumn :=
        FoldScan(lines, foldedLines, tabColumnCount, foldLevel, foldingLines, unfoldingLines, foldColumn);
      var targets := FoldTargets(lines, old(foldedLines), tabColumnCount, foldLevel, |lines|);
      if Disjoint3(old(foldingLines), old(foldedLines), old(unfoldingLines)) {
        FoldKeepsDisjoint(old(foldingLines), old(foldedLines), old(unfoldingLines), targets);
      }
    }

    /** `unfold`: every folding or folded line starts unfolding. */
    method Unfold()
      modifies this
      ensures unfoldingLines == old(unfoldingLines + foldingLines + foldedLines)
      ensures foldingLines == {} && foldedLines == {}
      ensures FoldsDisjoint()
      ensures wrapColumn == old(wrapColumn) && CurrentLayout() == old(CurrentLayout())
    {
      unfoldingLines := unfoldingLines + foldingLines;
      foldingLines := {};
      unfoldingLines := unfoldingLines + foldedLines;
      foldedLines := {};
    }

    /**
     * `set_wrap_column`: nothing happens when the column is unchanged;
     * otherwise the column is stored and every line's wrap data recomputed.
     */
    method SetWrapColumn(column: Option<nat>, lineCount: nat) returns (ok: bool)
      requires Aligned(CurrentLayout())
      modifies this
      ensures Aligned(CurrentLayout()) && wrapColumn == column
      ensures ok && old(CountsKnown(CurrentLayout())) ==> CountsKnown(CurrentLayout())
      ensures old(wrapColumn) == column ==> ok && CurrentLayout() == old(CurrentLayout())
      ensures old(wrapColumn) != column ==> (ok <==> lineCount <= old(|wrapData|))
      ensures ok && old(wrapColumn) != column ==> (|wrapData| == old(|wrapData|)
        && (forall i :: 0 <= i < lineCount ==>
              wrapData[i] == Some(WrapFor(i, column)) && columnCount[i] == Some(Measured(i, column)))
        && (forall i :: lineCount <= i < |wrapData| ==>
              wrapData[i] == old(wrapData[i]) && columnCount[i] == old(columnCount[i])))
      ensures foldColumn == old(foldColumn) && scale == old(scale)
      ensures foldingLines == old(foldingLines) && foldedLines == old(foldedLines) && unfoldingLines == old(unfoldingLines)
    {
      if wrapColumn == column {
        return true;
      }
      wrapColumn := column;
      if lineCount > |wrapData| {
        return false;
      }
      for line := 0 to lineCount
        invariant wrapColumn == column && Aligned(CurrentLayout()) && |wrapData| == old(|wrapData|)
        invariant forall i :: 0 <= i < line ==>
          wrapData[i] == Some(WrapFor(i, column)) && columnCount[i] == Some(Measured(i, column))
        invariant forall i :: line <= i < |wrapData| ==>
          wrapData[i] == old(wrapData[i]) && columnCount[i] == old(columnCount[i])
        invariant foldColumn == old(foldColumn) && scale == old(scale)
        invariant foldingLines == old(foldingLines) && foldedLines == old(foldedLines) && unfoldingLines == old(unfoldingLines)
      {
        wrapData := wrapData[line := Some(WrapFor(line, column))];
        columnCount := columnCount[line := Some(Measured(line, column))];
      }
      ok := true;
    }

    /** The `splice` calls of an insert: `k` default entries at `at` in each vector. */
    method InsertLines(at: nat, k: nat)
      requires at <= |columnCount| && at <= |foldColumn| && at <= |scale| && at <= |wrapData|
      modifies this
      ensures columnCount == SpliceIn(old(columnCount), at, k, None).value
      ensures foldColumn == SpliceIn(old(foldColumn), at, k, 0).value
      ensures scale == SpliceIn(old(scale), at, k, 1.0).value
      ensures wrapData == SpliceIn(old(wrapData), at, k, None).value
      ensures wrapColumn == old(wrapColumn)
      ensures foldingLines == old(foldingLines) && foldedLines == old(foldedLines) && unfoldingLines == old(unfoldingLines)
    {
      columnCount := columnCount[..at] + seq(k, _ => None) + columnCount[at..];
      foldColumn := foldColumn[..at] + seq(k, _ => 0) + foldColumn[at..];
      scale := scale[..at] + seq(k, _ => 1.0) + scale[at..];
      wrapData := wrapData[..at] + seq(k, _ => None) + wrapData[at..];
    }

    /** The `drain` calls of a delete: the entries `[from, to)` removed from each vector. */
    method DrainLines(from: nat, to: nat)
      requires from <= to && to <= |columnCount| && to <= |foldColumn| && to <= |scale| && to <= |wrapData|
      modifies this
      ensures columnCount == DrainOut(old(columnCount), from, to).value
      ensures foldColumn == DrainOut(old(foldColumn), from, to).value
      ensures scale == DrainOut(old(scale), from, to).value
      ensures wrapData == DrainOut(old(wrapData), from, to).value
      ensures wrapColumn == old(wrapColumn)
      ensures foldingLines == old(foldingLines) && foldedLines == old(foldedLines) && unfoldingLines == old(unfoldingLines)
    {
      columnCount := columnCount[..from] + columnCount[to..];
      foldColumn := foldColumn[..from] + foldColumn[to..];
      scale := scale[..from] + scale[to..];
      wrapData := wrapData[..from] + wrapData[to..];
    }

    /** One edit of `apply_edits`; `ok` is false where the source panics. */
    method ApplyEdit(e: Edit) returns (ok: bool)
      modifies this
      ensures ok <==> Edited(old(CurrentLayout()), e).Some?
      ensures ok ==> CurrentLayout() == Edited(old(CurrentLayout()), e).value
      ensures wrapColumn == old(wrapColumn)
      ensures foldingLines == old(foldingLines) && foldedLines == old(foldedLines) && unfoldingLines == old(unfoldingLines)
    {
      if e.line >= |columnCount| || e.line >= |wrapData| {
        return false;
      }
      columnCount := columnCount[e.line := None];
      wrapData := wrapData[e.line := None];
      var k := e.lineCount;
      var at := e.line + 1;
      if k == 0 {
        return true;
      }
      if e.Insert? {
        if at > |foldColumn| || at > |scale| {
          return false;
        }
        InsertLines(at, k);
      } else {
        if at + k > |columnCount| || at + k > |foldColumn| || at + k > |scale| || at + k > |wrapData| {
          return false;
        }
        DrainLines(at, at + k);
      }
      ok := true;
    }

    /**
     * `apply_edits`: the edits in order, then wrap data and a new column count
     * for every one of the document's `lineCount` lines left without wrap data.
     */
    method ApplyEdits(edits: seq<Edit>, lineCount: nat) returns (ok: bool)
      requires Aligned(CurrentLayout())
      modifies this
      ensures var r := EditedAll(old(CurrentLayout()), edits);
        ok <==> r.Some? && lineCount <= |r.value.wrapData|
      ensures ok ==> Aligned(EditedAll(old(CurrentLayout()), edits).value)
      ensures ok ==> CurrentLayout() == Refreshed(EditedAll(old(CurrentLayout()), edits).value, wrapColumn, lineCount)
      ensures ok && old(CountsKnown(CurrentLayout())) ==>
        && CountsKnown(CurrentLayout())
        && forall i :: 0 <= i < lineCount ==> wrapData[i].Some? && columnCount[i].Some?
      ensures wrapColumn == old(wrapColumn)
      ensures foldingLines == old(foldingLines) && foldedLines == old(foldedLines) && unfoldingLines == old(unfoldingLines)
    {
      var j := 0;
      while j < |edits|
        invariant j <= |edits|
        invariant EditedAll(old(CurrentLayout()), edits) == EditedAll(CurrentLayout(), edits[j..])
        invariant wrapColumn == old(wrapColumn)
        invariant foldingLines == old(foldingLines) && foldedLines == old(foldedLines) && unfoldingLines == old(unfoldingLines)
      {
        assert edits[j..][0] == edits[j] && edits[j..][1..] == edits[j + 1..];
        var stepped := ApplyEdit(edits[j]);
        if !stepped {
          return false;
        }
        j := j + 1;
      }
      assert edits[j..] == [];
      EditedAllAligned(old(CurrentLayout()), edits);
      if old(CountsKnown(CurrentLayout())) {
        EditedAllKeepsCounts(old(CurrentLayout()), edits);
      }
      if lineCount > |wrapData| {
        return false;
      }
      var l := RefreshLines(CurrentLayout(), wrapColumn, lineCount);
      columnCount, wrapData := l.columnCount, l.wrapData;
      ok := true;
    }
  }
}
