/**
 * The registry's module bookkeeping as values: the dependency order (a list of
 * crate-modules; each `use` moves the imported module in front of the module
 * that imports it, which keeps that one pair in order but not every other
 * import already recorded) and
 * the set of modules a re-parse makes dirty (the module and everything that
 * depends on it, directly or not).
 */
module DepOrder {
  import opened Wrappers
  import opened LiveIds

  /** A module in the dependency order, with the token of the import that placed it there. */
  type Entry = (CrateModule, TokenId)

  /** `iter().position(|v| v.0 == cm)`: the first entry for `cm`. */
  function Position(order: seq<Entry>, cm: CrateModule): (r: Option<nat>)
    ensures r.Some? ==> r.value < |order| && order[r.value].0 == cm
    ensures r.Some? ==> forall j :: 0 <= j < r.value ==> order[j].0 != cm
    ensures r.None? ==> forall j :: 0 <= j < |order| ==> order[j].0 != cm
  {
    if order == [] then None
    else if order[0].0 == cm then Some(0)
    else
      match Position(order[1..], cm)
      case Some(i) => Some(i + 1)
      case None => None
  }

  /** No module appears twice. */
  predicate NoDup(order: seq<Entry>)
  {
    forall i, j :: 0 <= i < j < |order| ==> order[i].0 != order[j].0
  }

  function Keys(order: seq<Entry>): set<CrateModule>
  {
    set i | 0 <= i < |order| :: order[i].0
  }

  /** `Vec::remove`. */
  function Remove(order: seq<Entry>, i: nat): seq<Entry>
    requires i < |order|
  {
    order[..i] + order[i + 1..]
  }

  /** `Vec::insert`. */
  function Insert(order: seq<Entry>, i: nat, e: Entry): seq<Entry>
    requires i <= |order|
  {
    order[..i] + [e] + order[i..]
  }

  /** Without duplicates, an entry's position is its index. */
  lemma PositionIsIndex(order: seq<Entry>, i: nat)
    requires NoDup(order) && i < |order|
    ensures Position(order, order[i].0) == Some(i)
  {
  }

  lemma NoDupInsert(order: seq<Entry>, i: nat, e: Entry)
    requires NoDup(order) && i <= |order| && e.0 !in Keys(order)
    ensures NoDup(Insert(order, i, e))
    ensures Keys(Insert(order, i, e)) == Keys(order) + {e.0}
  {
    var r := Insert(order, i, e);
    assert forall j :: 0 <= j < |r| ==> r[j] == if j < i then order[j] else if j == i then e else order[j - 1];
    forall j, k | 0 <= j < k < |r| ensures r[j].0 != r[k].0 {
      if j != i && k != i {
        assert r[j].0 == order[if j < i then j else j - 1].0;
      } else if j == i {
        assert r[k] == order[k - 1];
      } else {
        assert r[j] == order[j];
      }
    }
    forall x | x in Keys(order) + {e.0} ensures x in Keys(r) {
      if x != e.0 {
        var j :| 0 <= j < |order| && order[j].0 == x;
        assert r[if j < i then j else j + 1].0 == x;
      } else {
        assert r[i].0 == x;
      }
    }
  }

  lemma NoDupRemove(order: seq<Entry>, i: nat)
    requires NoDup(order) && i < |order|
    ensures NoDup(Remove(order, i))
    ensures Keys(Remove(order, i)) == Keys(order) - {order[i].0}
  {
    var r := Remove(order, i);
    assert forall j :: 0 <= j < |r| ==> r[j] == if j < i then order[j] else order[j + 1];
    forall x | x in Keys(order) - {order[i].0} ensures x in Keys(r) {
      var j :| 0 <= j < |order| && order[j].0 == x;
      assert j != i;
      assert r[if j < i then j else j - 1].0 == x;
    }
  }

  /**
   * The bookkeeping for one `use` of module `cm` inside module `own`: when `cm`
   * is missing it is inserted at `own`'s position; when it sits after `own` it is
   * moved there; otherwise the order is left alone.
   */
  function Reorder(order: seq<Entry>, own: CrateModule, cm: CrateModule, tok: TokenId): (r: seq<Entry>)
    requires Position(order, own).Some?
    ensures Position(order, cm).Some? && Position(order, cm).value <= Position(order, own).value ==> r == order
  {
    var s := Position(order, own).value;
    match Position(order, cm)
    case Some(o) => if o > s then Insert(Remove(order, o), s, (cm, tok)) else order
    case None => Insert(order, s, (cm, tok))
  }

  /** Inserting a new module at `own`'s index puts it right before `own`, and moves nothing before. */
  lemma InsertBefore(order: seq<Entry>, s: nat, e: Entry)
    requires NoDup(order) && s < |order| && e.0 !in Keys(order)
    ensures var r := Insert(order, s, e);
      && NoDup(r) && Keys(r) == Keys(order) + {e.0}
      && Position(r, e.0) == Some(s) && Position(r, order[s].0) == Some(s + 1)
      && forall ix :: 0 <= ix < s ==> Position(r, order[ix].0) == Some(ix)
  {
    var r := Insert(order, s, e);
    NoDupInsert(order, s, e);
    assert r[s] == e && r[s + 1] == order[s];
    PositionIsIndex(r, s);
    PositionIsIndex(r, s + 1);
    forall ix | 0 <= ix < s ensures Position(r, order[ix].0) == Some(ix) {
      assert r[ix] == order[ix];
      PositionIsIndex(r, ix);
    }
  }

  /** Removing an entry after index `s` leaves the first `s + 1` entries in place. */
  lemma RemoveAfter(order: seq<Entry>, s: nat, o: nat)
    requires NoDup(order) && s < o < |order|
    ensures var mid := Remove(order, o);
      && NoDup(mid) && Keys(mid) == Keys(order) - {order[o].0}
      && s < |mid| && forall ix :: 0 <= ix <= s ==> mid[ix] == order[ix]
  {
    NoDupRemove(order, o);
  }

  /**
   * Inserting `cm` at `own`'s index `s` into `src`, which agrees with `order`
   * up to and including `s` and lacks `cm`, puts `cm` right before `own` and
   * keeps every module that was before `own` before it.
   */
  lemma InsertKeepsOrder(order: seq<Entry>, src: seq<Entry>, own: CrateModule, cm: CrateModule, tok: TokenId)
    requires NoDup(order) && NoDup(src) && Position(order, own).Some?
    requires Position(order, own).value < |src|
    requires forall ix :: 0 <= ix <= Position(order, own).value ==> src[ix] == order[ix]
    requires cm !in Keys(src) && Keys(src) + {cm} == Keys(order) + {cm}
    ensures var r := Insert(src, Position(order, own).value, (cm, tok));
      && NoDup(r)
      && Keys(r) == Keys(order) + {cm}
      && Position(r, own).Some? && Position(r, cm).Some?
      && (cm != own ==> Position(r, cm).value < Position(r, own).value)
      && (forall x :: x in Keys(order) && Position(order, x).value < Position(order, own).value ==>
            Position(r, x).Some? && Position(r, x).value < Position(r, own).value)
  {
    var s := Position(order, own).value;
    InsertBefore(src, s, (cm, tok));
    assert src[s] == order[s];
    forall x | x in Keys(order) && Position(order, x).value < s
      ensures Position(Insert(src, s, (cm, tok)), x) == Some(Position(order, x).value)
    {
      var ix := Position(order, x).value;
      assert src[ix] == order[ix];
    }
  }

  /**
   * The repair only looks at the importing module: with `c` importing `e` and the
   * order `[b, e, c]`, re-parsing `b` with `use c` moves `c` in front of `b` and so
   * in front of `e`, the module `c` imports.
   */
  lemma ReorderIsLocal(b: CrateModule, e: CrateModule, c: CrateModule, t: TokenId)
    requires b != e && e != c && b != c
    ensures Position([(b, t), (e, t), (c, t)], e) == Some(1) && Position([(b, t), (e, t), (c, t)], c) == Some(2)
    ensures var r := Reorder([(b, t), (e, t), (c, t)], b, c, t);
      && r == [(c, t), (b, t), (e, t)]
      && Position(r, c) == Some(0) && Position(r, e) == Some(2)
  {
    var order := [(b, t), (e, t), (c, t)];
    assert Position(order, b) == Some(0);
    assert Position(order[1..], e) == Some(0);
    assert Position(order, e) == Some(1);
    assert Position(order[1..][1..], c) == Some(0);
    assert Position(order, c) == Some(2);
    var r := Reorder(order, b, c, t);
    assert Remove(order, 2) == [(b, t), (e, t)];
    assert r == [(c, t), (b, t), (e, t)];
    assert Position(r, c) == Some(0);
    assert Position(r[1..][1..], e) == Some(0);
    assert Position(r[1..], e) == Some(1);
  }

  /**
   * What one step keeps and establishes: still no duplicates, the imported module
   * is added to the modules in the order, it ends strictly before the importing
   * module (unless it is that module), and every module that was before the
   * importing module stays before it.
   */
  lemma ReorderKeepsOrder(order: seq<Entry>, own: CrateModule, cm: CrateModule, tok: TokenId)
    requires NoDup(order) && own in Keys(order)
    ensures Position(order, own).Some?
    ensures var r := Reorder(order, own, cm, tok);
      && NoDup(r)
      && Keys(r) == Keys(order) + {cm}
      && Position(r, own).Some? && Position(r, cm).Some?
      && (cm != own ==> Position(r, cm).value < Position(r, own).value)
      && (forall x :: x in Keys(order) && Position(order, x).value < Position(order, own).value ==>
            Position(r, x).Some? && Position(r, x).value < Position(r, own).value)
  {
    var s := Position(order, own).value;
    match Position(order, cm) {
      case Some(o) =>
        if o > s {
          RemoveAfter(order, s, o);
          assert cm in Keys(order);
          InsertKeepsOrder(order, Remove(order, o), own, cm, tok);
        } else {
          PositionIsIndex(order, o);
          PositionIsIndex(order, s);
        }
      case None =>
        InsertKeepsOrder(order, order, own, cm, tok);
    }
  }

  // ---------------------------------------------------------------------------
  // Dirty propagation
  // ---------------------------------------------------------------------------

  /** The dependency graph: for each module, the modules it imports. */
  type DepGraph = map<CrateModule, set<CrateModule>>

  /**
   * `rank` orders the graph: every module ranks strictly below each module it
   * imports. Such a ranking exists exactly when the graph has no cycle.
   */
  ghost predicate Ranked(g: DepGraph, rank: map<CrateModule, nat>)
  {
    forall d, c :: d in g && c in g[d] ==> d in rank && c in rank && rank[d] < rank[c]
  }

  ghost function RankOf(rank: map<CrateModule, nat>, cm: CrateModule): nat
  {
    if cm in rank then rank[cm] else 0
  }

  /** The modules that import `cm`. */
  ghost function Importers(g: DepGraph, cm: CrateModule): set<CrateModule>
  {
    set d | d in g && cm in g[d]
  }

  /** `cm` and every module whose imports lead to it, directly or through other modules. */
  ghost function Dependents(g: DepGraph, rank: map<CrateModule, nat>, cm: CrateModule): set<CrateModule>
    requires Ranked(g, rank)
    decreases RankOf(rank, cm)
  {
    {cm} + (set d, x | d in Importers(g, cm) && x in Dependents(g, rank, d) :: x)
  }

  /**
   * The dirty set is closed under importing: whoever imports a dirty module is
   * dirty too. And it holds nothing else: every member reaches `cm` by a chain
   * of imports.
   */
  lemma {:induction false} DependentsClosed(g: DepGraph, rank: map<CrateModule, nat>, cm: CrateModule)
    requires Ranked(g, rank)
    ensures cm in Dependents(g, rank, cm)
    ensures forall x, d :: x in Dependents(g, rank, cm) && d in g && x in g[d] ==> d in Dependents(g, rank, cm)
    decreases RankOf(rank, cm)
  {
    forall x, d | x in Dependents(g, rank, cm) && d in g && x in g[d]
      ensures d in Dependents(g, rank, cm)
    {
      if x == cm {
        DependentsClosed(g, rank, d);
        assert d in Importers(g, cm);
      } else {
        var d' :| d' in Importers(g, cm) && x in Dependents(g, rank, d');
        DependentsClosed(g, rank, d');
        assert d in Dependents(g, rank, d');
      }
    }
  }

  /** There is a chain of imports `path[0] -> ... -> cm`, each importing the next. */
  ghost predicate ImportChain(g: DepGraph, path: seq<CrateModule>, cm: CrateModule)
  {
    && |path| > 0 && path[|path| - 1] == cm
    && forall i :: 0 <= i < |path| - 1 ==> path[i] in g && path[i + 1] in g[path[i]]
  }

  /** Every dirty module reaches `cm` by a chain of imports. */
  lemma {:induction false} DependentsReach(g: DepGraph, rank: map<CrateModule, nat>, cm: CrateModule, x: CrateModule)
    requires Ranked(g, rank)
    requires x in Dependents(g, rank, cm)
    ensures exists path :: ImportChain(g, path, cm) && path[0] == x
    decreases RankOf(rank, cm)
  {
    if x == cm {
      assert ImportChain(g, [cm], cm);
    } else {
      var d :| d in Importers(g, cm) && x in Dependents(g, rank, d);
      DependentsReach(g, rank, d, x);
      var path :| ImportChain(g, path, d) && path[0] == x;
      var path' := path + [cm];
      assert path'[|path| - 1] == d;
      assert ImportChain(g, path', cm);
    }
  }
}
