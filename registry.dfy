/**
 * `LiveRegistry`: the files registered so far, their raw and expanded
 * documents (parallel vectors indexed by file id), the module-to-file table,
 * the dependency order and the dependency graph; registration of a parsed file,
 * the expansion pass over all dirty documents, and the read-only lookups.
 */
module Registry {
  import opened Wrappers
  import opened LiveIds
  import opened LiveDocs
  import opened DepOrder
  import opened Walk
  import opened Copy

  /** A registered file: its module, its name and its parsed document. */
  datatype LiveFile = LiveFile(crateModule: CrateModule, file: string, document: LiveDocument)

  /** Sets `recompile` on the documents whose index is in `ids`. */
  function SetRecompile(docs: seq<LiveDocument>, ids: set<nat>): (r: seq<LiveDocument>)
    ensures |r| == |docs|
    ensures forall i :: 0 <= i < |docs| ==> r[i] == if i in ids then docs[i].(recompile := true) else docs[i]
  {
    seq(|docs|, i requires 0 <= i < |docs| => if i in ids then docs[i].(recompile := true) else docs[i])
  }

  /** The files of the registered modules among `cms`. */
  function FilesOf(m: map<CrateModule, FileId>, cms: set<CrateModule>): set<nat>
  {
    set c | c in cms && c in m :: m[c]
  }

  lemma SetRecompileTwice(docs: seq<LiveDocument>, a: set<nat>, b: set<nat>)
    ensures SetRecompile(SetRecompile(docs, a), b) == SetRecompile(docs, a + b)
  {
  }

  lemma FilesOfUnion(m: map<CrateModule, FileId>, a: set<CrateModule>, b: set<CrateModule>)
    ensures FilesOf(m, a + b) == FilesOf(m, a) + FilesOf(m, b)
  {
  }

  /** The dependents of every module of `ds`. */
  ghost function DependentsOfAll(g: DepGraph, rank: map<CrateModule, nat>, ds: set<CrateModule>): set<CrateModule>
    requires Ranked(g, rank)
  {
    set d, x | d in ds && x in Dependents(g, rank, d) :: x
  }

  /** The expanded documents after a re-parse of `own` (if `own` was already in the order) marked its dependents dirty. */
  ghost function Marked(docs: seq<LiveDocument>, m: map<CrateModule, FileId>, g: DepGraph, rank: map<CrateModule, nat>,
                        order: seq<Entry>, own: CrateModule): seq<LiveDocument>
    requires own in Keys(order) ==> Ranked(g, rank)
  {
    if own in Keys(order) then SetRecompile(docs, FilesOf(m, Dependents(g, rank, own))) else docs
  }

  // ---------------------------------------------------------------------------
  // The modules a document imports
  // ---------------------------------------------------------------------------

  /** The modules imported by the `use` nodes among the first `n` nodes of a level. */
  function LevelUses(nodes: seq<LiveNode>, crateId: Id, n: nat): set<CrateModule>
    requires n <= |nodes|
  {
    if n == 0 then {}
    else
      LevelUses(nodes, crateId, n - 1)
      + (if nodes[n - 1].value.Use? then {FetchCrateModule(nodes[n - 1].value.crateModule, crateId)} else {})
  }

  /** The modules imported on the first `l` levels of a document. */
  function DocUses(doc: LiveDocument, crateId: Id, l: nat): set<CrateModule>
    requires l <= |doc.nodes|
  {
    if l == 0 then {} else DocUses(doc, crateId, l - 1) + LevelUses(doc.nodes[l - 1], crateId, |doc.nodes[l - 1]|)
  }

  /** The modules a document imports: one for each `use` node on any level. */
  function UseTargets(doc: LiveDocument, crateId: Id): set<CrateModule>
  {
    DocUses(doc, crateId, |doc.nodes|)
  }

  ghost predicate ImportsAt(doc: LiveDocument, crateId: Id, l: nat, i: nat, cm: CrateModule)
  {
    l < |doc.nodes| && i < |doc.nodes[l]| && doc.nodes[l][i].value.Use?
    && FetchCrateModule(doc.nodes[l][i].value.crateModule, crateId) == cm
  }

  lemma {:induction false} LevelUsesMeaning(doc: LiveDocument, crateId: Id, l: nat, n: nat, cm: CrateModule)
    requires l < |doc.nodes| && n <= |doc.nodes[l]|
    ensures cm in LevelUses(doc.nodes[l], crateId, n) <==> exists i: nat :: i < n && ImportsAt(doc, crateId, l, i, cm)
  {
    if n > 0 {
      LevelUsesMeaning(doc, crateId, l, n - 1, cm);
      if ImportsAt(doc, crateId, l, n - 1, cm) {
        assert cm in LevelUses(doc.nodes[l], crateId, n);
      }
    }
  }

  lemma {:induction false} DocUsesMeaning(doc: LiveDocument, crateId: Id, l: nat, cm: CrateModule)
    requires l <= |doc.nodes|
    ensures cm in DocUses(doc, crateId, l) <==> exists k: nat, i: nat :: k < l && ImportsAt(doc, crateId, k, i, cm)
  {
    if l > 0 {
      DocUsesMeaning(doc, crateId, l - 1, cm);
      LevelUsesMeaning(doc, crateId, l - 1, |doc.nodes[l - 1]|, cm);
      if exists k: nat, i: nat :: k < l && ImportsAt(doc, crateId, k, i, cm) {
        var k: nat, i: nat :| k < l && ImportsAt(doc, crateId, k, i, cm);
        if k == l - 1 {
          assert ImportsAt(doc, crateId, l - 1, i, cm);
        }
      }
    }
  }

  /** A module is a target exactly when some `use` node, on any level, imports it. */
  lemma UseTargetsMeaning(doc: LiveDocument, crateId: Id, cm: CrateModule)
    ensures cm in UseTargets(doc, crateId) <==> exists l: nat, i: nat :: ImportsAt(doc, crateId, l, i, cm)
  {
    DocUsesMeaning(doc, crateId, |doc.nodes|, cm);
  }

  /** The order has no duplicates, holds `own`, and every module of `deps` other than `own` sits before it. */
  predicate ImportsBefore(order: seq<Entry>, own: CrateModule, deps: set<CrateModule>)
  {
    && NoDup(order) && Position(order, own).Some?
    && forall c :: c in deps && c != own ==>
         Position(order, c).Some? && Position(order, c).value < Position(order, own).value
  }

  /** One `use` keeps every earlier import before `own` and adds its own module before it. */
  lemma ImportStep(order: seq<Entry>, own: CrateModule, deps: set<CrateModule>, cm: CrateModule, tok: TokenId)
    requires ImportsBefore(order, own, deps) && deps <= Keys(order)
    ensures Position(order, own).Some?
    ensures var r := Reorder(order, own, cm, tok);
      ImportsBefore(r, own, deps + {cm}) && Keys(r) == Keys(order) + {cm}
  {
    assert own in Keys(order);
    ReorderKeepsOrder(order, own, cm, tok);
  }

  /** The state of the import loop after the first `i` nodes of a level, started from `order0` and `deps0`. */
  ghost predicate LevelDone(order0: seq<Entry>, deps0: set<CrateModule>, order: seq<Entry>, deps: set<CrateModule>,
                            own: CrateModule, nodes: seq<LiveNode>, crateId: Id, i: nat)
  {
    && i <= |nodes|
    && deps == deps0 + LevelUses(nodes, crateId, i)
    && ImportsBefore(order, own, deps) && Keys(order) == Keys(order0) + LevelUses(nodes, crateId, i)
    && deps <= Keys(order)
  }

  /** Before the first node, the loop's state is its start. */
  lemma LevelStart(order: seq<Entry>, deps: set<CrateModule>, own: CrateModule, nodes: seq<LiveNode>, crateId: Id)
    requires ImportsBefore(order, own, deps) && deps <= Keys(order)
    ensures LevelDone(order, deps, order, deps, own, nodes, crateId, 0)
  {
  }

  /** One more node of the level keeps the loop's state. */
  lemma LevelStep(order0: seq<Entry>, deps0: set<CrateModule>, order: seq<Entry>, deps: set<CrateModule>,
                  own: CrateModule, nodes: seq<LiveNode>, crateId: Id, i: nat)
    requires i < |nodes| && LevelDone(order0, deps0, order, deps, own, nodes, crateId, i)
    requires deps0 <= Keys(order0)
    ensures nodes[i].value.Use? ==>
      var cm := FetchCrateModule(nodes[i].value.crateModule, crateId);
      LevelDone(order0, deps0, Reorder(order, own, cm, nodes[i].token), deps + {cm}, own, nodes, crateId, i + 1)
    ensures !nodes[i].value.Use? ==> LevelDone(order0, deps0, order, deps, own, nodes, crateId, i + 1)
  {
    if nodes[i].value.Use? {
      var cm := FetchCrateModule(nodes[i].value.crateModule, crateId);
      assert LevelUses(nodes, crateId, i + 1) == LevelUses(nodes, crateId, i) + {cm};
      ImportStep(order, own, deps, cm, nodes[i].token);
    } else {
      assert LevelUses(nodes, crateId, i + 1) == LevelUses(nodes, crateId, i);
    }
  }

  /** The import loop over one level of the document. */
  method RecordLevel(order: seq<Entry>, nodes: seq<LiveNode>, crateId: Id, own: CrateModule, deps: set<CrateModule>)
    returns (order': seq<Entry>, deps': set<CrateModule>)
    requires ImportsBefore(order, own, deps) && deps <= Keys(order)
    ensures deps' == deps + LevelUses(nodes, crateId, |nodes|)
    ensures ImportsBefore(order', own, deps') && Keys(order') == Keys(order) + LevelUses(nodes, crateId, |nodes|)
  {
    order', deps' := order, deps;
    var i := 0;
    LevelStart(order, deps, own, nodes, crateId);
    while i < |nodes|
      invariant LevelDone(order, deps, order', deps', own, nodes, crateId, i)
    {
      order', deps' := RecordNode(order, deps, order', deps', own, nodes, crateId, i);
      i := i + 1;
    }
  }

  /** One node of the level: a `use` records its module and moves it before `own`. */
  method RecordNode(ghost order0: seq<Entry>, ghost deps0: set<CrateModule>, order: seq<Entry>, deps: set<CrateModule>,
                    own: CrateModule, nodes: seq<LiveNode>, crateId: Id, i: nat)
    returns (order': seq<Entry>, deps': set<CrateModule>)
    requires i < |nodes| && LevelDone(order0, deps0, order, deps, own, nodes, crateId, i)
    requires deps0 <= Keys(order0)
    ensures LevelDone(order0, deps0, order', deps', own, nodes, crateId, i + 1)
  {
    LevelStep(order0, deps0, order, deps, own, nodes, crateId, i);
    order', deps' := order, deps;
    if nodes[i].value.Use? {
      var cm := FetchCrateModule(nodes[i].value.crateModule, crateId);
      order' := Reorder(order, own, cm, nodes[i].token);
      deps' := deps + {cm};
    }
  }

  /**
   * The import loop of `parse_live_file`: every `use` node of the document, level
   * by level, records its module as a dependency and moves it in front of the
   * importing module `own` in the order.
   */
  method RecordImports(order: seq<Entry>, doc: LiveDocument, crateId: Id, own: CrateModule)
    returns (order': seq<Entry>, deps: set<CrateModule>)
    requires NoDup(order) && own in Keys(order)
    ensures deps == UseTargets(doc, crateId)
    ensures ImportsBefore(order', own, deps)
    ensures Keys(order') == Keys(order) + deps
  {
    order', deps := order, {};
    assert Position(order, own).Some?;
    var l := 0;
    while l < |doc.nodes|
      invariant 0 <= l <= |doc.nodes|
      invariant deps == DocUses(doc, crateId, l)
      invariant ImportsBefore(order', own, deps) && Keys(order') == Keys(order) + deps
    {
      order', deps := RecordLevel(order', doc.nodes[l], crateId, own, deps);
      l := l + 1;
    }
  }

  /** The errors of the order's entries whose module has no registered file, in order. */
  function MissingDeps(order: seq<Entry>, m: map<CrateModule, FileId>): (r: seq<LiveError>)
    ensures forall e :: e in r ==> e.kind == CannotFindDependency
  {
    if order == [] then []
    else
      var last := order[|order| - 1];
      MissingDeps(order[..|order| - 1], m) + (if last.0 !in m then [LiveError(CannotFindDependency, last.1)] else [])
  }

  /** The "cannot find dependency" errors of a list, in order. */
  function DepErrors(errs: seq<LiveError>): (r: seq<LiveError>)
    ensures forall e :: e in r ==> e in errs && e.kind == CannotFindDependency
  {
    if errs == [] then []
    else
      var last := errs[|errs| - 1];
      DepErrors(errs[..|errs| - 1]) + (if last.kind == CannotFindDependency then [last] else [])
  }

  /** One more error: it is kept exactly when it is a "cannot find dependency" error. */
  lemma DepErrorsPush(errs: seq<LiveError>, e: LiveError)
    ensures DepErrors(errs + [e]) == DepErrors(errs) + (if e.kind == CannotFindDependency then [e] else [])
  {
    assert (errs + [e])[..|errs|] == errs;
  }

  /** One more entry of the order: its error is recorded exactly when it has no file. */
  lemma MissingDepsStep(order: seq<Entry>, m: map<CrateModule, FileId>, k: nat)
    requires k < |order|
    ensures MissingDeps(order[..k + 1], m)
            == MissingDeps(order[..k], m) + (if order[k].0 !in m then [LiveError(CannotFindDependency, order[k].1)] else [])
  {
    assert order[..k + 1][..k] == order[..k];
  }

  /** Errors the walk appends add no "cannot find dependency" error. */
  lemma {:induction false} DepErrorsWalk(a: seq<LiveError>, b: seq<LiveError>)
    requires WalkErrors(a, b)
    ensures DepErrors(b) == DepErrors(a)
    decreases |b|
  {
    if |b| > |a| {
      var b' := b[..|b| - 1];
      assert a <= b';
      DepErrorsWalk(a, b');
    } else {
      assert a == b;
    }
  }

  /** Marking the module itself. */
  lemma MarkOne(docs: seq<LiveDocument>, m: map<CrateModule, FileId>, cm: CrateModule)
    requires cm in m ==> m[cm] < |docs|
    ensures SetRecompile(docs, FilesOf(m, {cm}))
      == if cm in m then docs[m[cm] := docs[m[cm]].(recompile := true)] else docs
  {
    if cm in m {
      assert FilesOf(m, {cm}) == {m[cm]};
    } else {
      assert FilesOf(m, {cm}) == {};
    }
  }

  /** Before any importer is visited, nothing is marked. */
  lemma MarkNone(docs: seq<LiveDocument>, m: map<CrateModule, FileId>, g: DepGraph, rank: map<CrateModule, nat>)
    requires Ranked(g, rank)
    ensures SetRecompile(docs, FilesOf(m, DependentsOfAll(g, rank, {}))) == docs
  {
    assert DependentsOfAll(g, rank, {}) == {};
    assert FilesOf(m, {}) == {};
  }

  /** Marking the dependents of one more importer `d` after those of `done`. */
  lemma MarkMore(docs: seq<LiveDocument>, m: map<CrateModule, FileId>, g: DepGraph, rank: map<CrateModule, nat>,
                 done: set<CrateModule>, d: CrateModule)
    requires Ranked(g, rank)
    ensures SetRecompile(SetRecompile(docs, FilesOf(m, DependentsOfAll(g, rank, done))), FilesOf(m, Dependents(g, rank, d)))
      == SetRecompile(docs, FilesOf(m, DependentsOfAll(g, rank, done + {d})))
  {
    var a := DependentsOfAll(g, rank, done);
    SetRecompileTwice(docs, FilesOf(m, a), FilesOf(m, Dependents(g, rank, d)));
    FilesOfUnion(m, a, Dependents(g, rank, d));
    assert DependentsOfAll(g, rank, done + {d}) == a + Dependents(g, rank, d);
  }

  /** The module itself, then the dependents of all its importers: exactly its dependents. */
  lemma MarkEnd(docs: seq<LiveDocument>, m: map<CrateModule, FileId>, g: DepGraph, rank: map<CrateModule, nat>,
                cm: CrateModule, ds: set<CrateModule>)
    requires Ranked(g, rank) && ds == Importers(g, cm)
    ensures SetRecompile(SetRecompile(docs, FilesOf(m, {cm})), FilesOf(m, DependentsOfAll(g, rank, ds)))
      == SetRecompile(docs, FilesOf(m, Dependents(g, rank, cm)))
  {
    SetRecompileTwice(docs, FilesOf(m, {cm}), FilesOf(m, DependentsOfAll(g, rank, ds)));
    FilesOfUnion(m, {cm}, DependentsOfAll(g, rank, ds));
    assert Dependents(g, rank, cm) == {cm} + DependentsOfAll(g, rank, ds);
  }

  /** The outcome of following a chain of class bases. */
  datatype ChainEnd = Reached(id: IdPack) | NotAClass | Dangling | OutOfFuel

  /** What `find_component_origin` reports: the module of the file defining the component, the token of its root class and the node found. */
  datatype Origin = Origin(crateModule: CrateModule, token: TokenId, ptr: FullPtr)

  class LiveRegistry {
    var fileIds: map<string, FileId>
    var crateModuleToFileId: map<CrateModule, FileId>
    var liveFiles: seq<LiveFile>
    var depOrder: seq<Entry>
    var depGraph: DepGraph
    var expanded: seq<LiveDocument>

    /**
     * The registry's invariant: the file vectors run in parallel, every file id
     * in a table addresses them, and no module appears twice in the order.
     */
    ghost predicate Valid()
      reads this
    {
      && |liveFiles| == |expanded|
      && (forall f :: f in fileIds ==> fileIds[f] < |liveFiles|)
      && (forall c :: c in crateModuleToFileId ==> crateModuleToFileId[c] < |expanded|)
      && NoDup(depOrder)
    }

    constructor()
      ensures Valid()
      ensures fileIds == map[] && crateModuleToFileId == map[] && liveFiles == []
      ensures depOrder == [] && depGraph == map[] && expanded == []
    {
      fileIds, crateModuleToFileId, liveFiles := map[], map[], [];
      depOrder, depGraph, expanded := [], map[], [];
    }

    /**
     * The inner `mark_dirty`: sets `recompile` on the expanded document of `cm` and,
     * recursively, of every module importing it. It has no visited set and ends
     * only because the graph has no cycle, which `rank` witnesses.
     */
    method MarkDirty(cm: CrateModule, ghost rank: map<CrateModule, nat>)
      requires Valid() && Ranked(depGraph, rank)
      modifies this
      decreases RankOf(rank, cm), 1
      ensures fileIds == old(fileIds) && crateModuleToFileId == old(crateModuleToFileId)
      ensures liveFiles == old(liveFiles) && depOrder == old(depOrder) && depGraph == old(depGraph)
      ensures Valid()
      ensures expanded == SetRecompile(old(expanded), FilesOf(crateModuleToFileId, Dependents(depGraph, rank, cm)))
    {
      ghost var start := expanded;
      if cm in crateModuleToFileId {
        var id := crateModuleToFileId[cm];
        expanded := expanded[id := expanded[id].(recompile := true)];
      }
      MarkOne(start, crateModuleToFileId, cm);
      var dirty := set d | d in depGraph && cm in depGraph[d];
      MarkImporters(cm, dirty, rank);
      MarkEnd(start, crateModuleToFileId, depGraph, rank, cm, dirty);
    }

    /** The loop of `mark_dirty` over the modules `ds` importing `cm`, each marked in turn. */
    method MarkImporters(cm: CrateModule, ds: set<CrateModule>, ghost rank: map<CrateModule, nat>)
      requires Valid() && Ranked(depGraph, rank)
      requires ds <= Importers(depGraph, cm)
      modifies this
      decreases RankOf(rank, cm), 0
      ensures fileIds == old(fileIds) && crateModuleToFileId == old(crateModuleToFileId)
      ensures liveFiles == old(liveFiles) && depOrder == old(depOrder) && depGraph == old(depGraph)
      ensures Valid()
      ensures expanded == SetRecompile(old(expanded), FilesOf(crateModuleToFileId, DependentsOfAll(depGraph, rank, ds)))
    {
      ghost var m := crateModuleToFileId;
      ghost var start := expanded;
      var todo := ds;
      ghost var done: set<CrateModule> := {};
      MarkNone(start, m, depGraph, rank);
      while todo != {}
        invariant Valid()
        invariant fileIds == old(fileIds) && crateModuleToFileId == m
        invariant liveFiles == old(liveFiles) && depOrder == old(depOrder) && depGraph == old(depGraph)
        invariant todo + done == ds && todo !! done
        invariant expanded == SetRecompile(start, FilesOf(m, DependentsOfAll(depGraph, rank, done)))
        decreases |todo|
      {
        var d :| d in todo;
        assert d in Importers(depGraph, cm);
        MarkDirty(d, rank);
        MarkMore(start, m, depGraph, rank, done, d);
        todo := todo - {d};
        done := done + {d};
      }
    }

    /**
     * `parse_live_file` past lexing and parsing (the parsed document is given):
     * an unseen file name gets the next file id and one new entry in each file
     * vector; a known one has its file replaced and its expanded document marked
     * for recompilation. A module already in the order marks itself and its
     * dependents dirty first, a new one is appended to the order. Then the module's
     * imports are recorded and moved in front of it.
     */
    method ParseLiveFile(file: string, crateId: Id, moduleId: Id, document: LiveDocument, ghost rank: map<CrateModule, nat>)
      returns (fileId: FileId)
      requires Valid()
      requires CrateModule(crateId, moduleId) in Keys(depOrder) ==> Ranked(depGraph, rank)
      modifies this
      ensures Valid()
      ensures var own := CrateModule(crateId, moduleId);
        && crateModuleToFileId == old(crateModuleToFileId)[own := fileId]
        && depGraph == old(depGraph)[own := UseTargets(document, crateId)]
        && Keys(depOrder) == Keys(old(depOrder)) + {own} + UseTargets(document, crateId)
        && ImportsBefore(depOrder, own, UseTargets(document, crateId))
      ensures var own := CrateModule(crateId, moduleId);
        var marked := Marked(old(expanded), old(crateModuleToFileId), old(depGraph), rank, old(depOrder), own);
        if file !in old(fileIds) then
          && fileId == old(|liveFiles|)
          && fileIds == old(fileIds)[file := fileId]
          && liveFiles == old(liveFiles) + [LiveFile(own, file, document)]
          && expanded == marked + [NewDocument()]
        else
          && fileId == old(fileIds)[file]
          && fileIds == old(fileIds)
          && liveFiles == old(liveFiles)[fileId := LiveFile(own, file, document)]
          && expanded == marked[fileId := marked[fileId].(recompile := true)]
    {
      var own := CrateModule(crateId, moduleId);
      EnterModule(own, rank);
      var order, deps := RecordImports(depOrder, document, crateId, own);
      depOrder, depGraph := order, depGraph[own := deps];
      fileId := StoreFile(file, own, document);
    }

    /**
     * The last step of `parse_live_file`: the module is mapped to the file, and the
     * file gets the next id and new entries in the file vectors, or, when the name
     * is known, its entry is replaced and its expanded document marked dirty.
     */
    method StoreFile(file: string, own: CrateModule, document: LiveDocument) returns (fileId: FileId)
      requires |liveFiles| == |expanded|
      requires forall f :: f in fileIds ==> fileIds[f] < |liveFiles|
      requires forall c :: c in crateModuleToFileId ==> crateModuleToFileId[c] < |expanded|
      modifies this
      ensures depOrder == old(depOrder) && depGraph == old(depGraph)
      ensures |liveFiles| == |expanded|
      ensures forall f :: f in fileIds ==> fileIds[f] < |liveFiles|
      ensures forall c :: c in crateModuleToFileId ==> crateModuleToFileId[c] < |expanded|
      ensures crateModuleToFileId == old(crateModuleToFileId)[own := fileId]
      ensures file !in old(fileIds) ==>
        && fileId == old(|liveFiles|)
        && fileIds == old(fileIds)[file := fileId]
        && liveFiles == old(liveFiles) + [LiveFile(own, file, document)]
        && expanded == old(expanded) + [NewDocument()]
      ensures file in old(fileIds) ==>
        && fileId == old(fileIds)[file]
        && fileIds == old(fileIds)
        && liveFiles == old(liveFiles)[fileId := LiveFile(own, file, document)]
        && expanded == old(expanded)[fileId := old(expanded)[fileId].(recompile := true)]
    {
      if file !in fileIds {
        fileId := |liveFiles|;
        fileIds := fileIds[file := fileId];
        liveFiles := liveFiles + [LiveFile(own, file, document)];
        expanded := expanded + [NewDocument()];
      } else {
        fileId := fileIds[file];
        liveFiles := liveFiles[fileId := LiveFile(own, file, document)];
        expanded := expanded[fileId := expanded[fileId].(recompile := true)];
      }
      crateModuleToFileId := crateModuleToFileId[own := fileId];
    }

    /**
     * The first step of `parse_live_file`: a module not yet in the order is
     * appended to it; one already there marks itself and its dependents dirty.
     */
    method EnterModule(own: CrateModule, ghost rank: map<CrateModule, nat>)
      requires Valid()
      requires own in Keys(depOrder) ==> Ranked(depGraph, rank)
      modifies this
      ensures fileIds == old(fileIds) && crateModuleToFileId == old(crateModuleToFileId)
      ensures liveFiles == old(liveFiles) && depGraph == old(depGraph)
      ensures Valid()
      ensures Keys(depOrder) == Keys(old(depOrder)) + {own}
      ensures own in Keys(old(depOrder)) ==> depOrder == old(depOrder)
      ensures own !in Keys(old(depOrder)) ==> depOrder == old(depOrder) + [(own, TokenId(0, 0))]
      ensures expanded == Marked(old(expanded), crateModuleToFileId, depGraph, rank, old(depOrder), own)
    {
      if Position(depOrder, own).None? {
        assert own !in Keys(depOrder);
        NoDupInsert(depOrder, |depOrder|, (own, TokenId(0, 0)));
        assert Insert(depOrder, |depOrder|, (own, TokenId(0, 0))) == depOrder + [(own, TokenId(0, 0))];
        depOrder := depOrder + [(own, TokenId(0, 0))];
      } else {
        MarkDirty(own, rank);
      }
    }

    /** Every module of the order that has a file has an up-to-date expanded document. */
    ghost predicate AllExpanded()
      reads this
      requires Valid()
    {
      UpToDate(depOrder, crateModuleToFileId, expanded)
    }

    /**
     * `expand_all_documents`: visits the order front to back. A module without a
     * file records "Cannot find dependency"; a document not marked for
     * recompilation is skipped; any other is expanded afresh from its raw document
     * (the other expanded documents as they are now serve imports and bases) and
     * ends with `recompile` cleared. `ok` is false when the walk panics.
     */
    method ExpandAllDocuments(errors: seq<LiveError>) returns (errors': seq<LiveError>, ok: bool)
      requires Valid()
      modifies this
      ensures Valid()
      ensures fileIds == old(fileIds) && crateModuleToFileId == old(crateModuleToFileId)
      ensures liveFiles == old(liveFiles) && depOrder == old(depOrder) && depGraph == old(depGraph)
      ensures |expanded| == old(|expanded|)
      ensures ok ==> errors <= errors'
      ensures ok ==> AllExpanded()
      ensures ok ==> forall i :: 0 <= i < |expanded| && (!old(expanded)[i].recompile || expanded[i].recompile) ==>
        expanded[i] == old(expanded)[i]
      ensures ok ==> forall i :: 0 <= i < |expanded| && old(expanded)[i].recompile && !expanded[i].recompile ==>
        Rebuilt(liveFiles[i].document, expanded[i])
      ensures ok ==> DepErrors(errors') == DepErrors(errors) + MissingDeps(depOrder, crateModuleToFileId)
      ensures old(AllExpanded()) ==>
        ok && expanded == old(expanded) && errors' == errors + MissingDeps(depOrder, crateModuleToFileId)
    {
      var exp;
      exp, errors', ok := ExpandInOrder(depOrder, crateModuleToFileId, liveFiles, expanded, errors);
      expanded := exp;
    }

    /**
     * `resolve_ptr`: the node a full pointer addresses in the expanded documents,
     * `None` where the source's indexing would panic.
     */
    function ResolvePtr(fp: FullPtr): (r: Option<LiveNode>)
      reads this
      ensures r.Some? <==> fp.file < |expanded| && fp.local.index < GetLevelLen(expanded[fp.file], fp.local.level)
      ensures r.Some? ==> r.value == Level(expanded[fp.file], fp.local.level)[fp.local.index]
    {
      if fp.file < |expanded| then NodeAt(expanded[fp.file], fp.local) else None
    }

    /**
     * The reference chain walk behind `find_base_class_id` and
     * `find_component_origin`: while the id is a pointer, step to the pointed-at
     * class's base (remembering its token); a pointer to anything but a class ends
     * the chain. At most `fuel` steps are taken.
     */
    function ClassChain(start: IdPack, tok: TokenId, fuel: nat): (r: (ChainEnd, TokenId))
      reads this
      ensures r.0.Reached? ==> !r.0.id.Ptr?
      ensures !start.Ptr? ==> r == (Reached(start), tok)
      decreases fuel
    {
      if !start.Ptr? then (Reached(start), tok)
      else if fuel == 0 then (OutOfFuel, tok)
      else
        match ResolvePtr(FullPtr(start.file, LocalPtr(start.level, start.index)))
        case None => (Dangling, tok)
        case Some(n) => if n.value.Class? then ClassChain(n.value.base, n.token, fuel - 1) else (NotAClass, tok)
    }

    /** More fuel changes nothing once the chain has ended. */
    lemma {:induction false} ClassChainFuel(start: IdPack, tok: TokenId, fuel: nat, more: nat)
      requires ClassChain(start, tok, fuel).0 != OutOfFuel
      ensures ClassChain(start, tok, fuel + more) == ClassChain(start, tok, fuel)
      decreases fuel
    {
      if start.Ptr? {
        match ResolvePtr(FullPtr(start.file, LocalPtr(start.level, start.index))) {
          case None =>
          case Some(n) =>
            if n.value.Class? {
              ClassChainFuel(n.value.base, n.token, fuel - 1, more);
            }
        }
      }
    }

    /**
     * `find_base_class_id`: follows class bases through pointers to the first id
     * that is not a pointer (`Reached`); a pointer to a non-class gives
     * `NotAClass`, the source's `None`.
     */
    method FindBaseClassId(start: IdPack, fuel: nat) returns (r: ChainEnd)
      ensures r == ClassChain(start, TokenId(0, 0), fuel).0
    {
      var iter := start;
      var tok := TokenId(0, 0);
      var left := fuel;
      while iter.Ptr?
        invariant ClassChain(iter, tok, left).0 == ClassChain(start, TokenId(0, 0), fuel).0
        decreases left
      {
        if left == 0 {
          return OutOfFuel;
        }
        var n := ResolvePtr(FullPtr(iter.file, LocalPtr(iter.level, iter.index)));
        if n.None? {
          return Dangling;
        }
        if !n.value.value.Class? {
          return NotAClass;
        }
        iter, tok, left := n.value.value.base, n.value.token, left - 1;
      }
      return Reached(iter);
    }

    /** `scan_for_multi`: a whole path followed from the top level of a document. */
    function ScanMulti(doc: LiveDocument, ids: seq<Id>): Result<LocalPtr, ScanError>
    {
      ScanPath(doc, 0, 0, GetLevelLen(doc, 0), ids)
    }

    /**
     * `find_full_node_ptr_from_ids`: the class a path names in a module's expanded
     * document; `None` when the module has no file, the path is not found or it
     * ends at something other than a class.
     */
    function FindFullNodePtrFromIds(crateId: Id, moduleId: Id, ids: seq<Id>): (r: Option<FullPtr>)
      reads this
      requires Valid()
      ensures r.Some? ==>
        var cm := CrateModule(crateId, moduleId);
        && cm in crateModuleToFileId && r.value.file == crateModuleToFileId[cm]
        && |ids| > 0 && r.value.local.level == |ids| - 1
        && ResolvePtr(r.value).Some?
        && ResolvePtr(r.value).value.value.Class?
        && ResolvePtr(r.value).value.id == Single(ids[|ids| - 1])
      ensures CrateModule(crateId, moduleId) !in crateModuleToFileId || ids == [] ==> r.None?
      ensures var cm := CrateModule(crateId, moduleId);
        cm in crateModuleToFileId && ScanMulti(expanded[crateModuleToFileId[cm]], ids).Ok? ==>
          var f := crateModuleToFileId[cm];
          var p := ScanMulti(expanded[f], ids).value;
          (r.Some? <==> NodeAt(expanded[f], p).value.value.Class?)
          && (r.Some? ==> r.value == FullPtr(f, p))
    {
      var cm := CrateModule(crateId, moduleId);
      if cm !in crateModuleToFileId then None
      else
        var f := crateModuleToFileId[cm];
        match ScanMulti(expanded[f], ids)
        case Err(_) => None
        case Ok(p) =>
          if Level(expanded[f], p.level)[p.index].value.Class? then Some(FullPtr(f, p)) else None
    }

    /**
     * `find_component_origin`: the class a path names, provided its chain of bases
     * ends at the built-in `Component` root; reports the module of the file whose
     * class holds that root and the token of that class. `ok` is false on a panic
     * of the source or when the fuel runs out.
     */
    method FindComponentOrigin(crateId: Id, moduleId: Id, ids: seq<Id>, fuel: nat) returns (r: Option<Origin>, ok: bool)
      requires Valid()
      ensures ok && r.Some? ==>
        && FindFullNodePtrFromIds(crateId, moduleId, ids) == Some(r.value.ptr)
        && (var n := ResolvePtr(r.value.ptr).value;
            ClassChain(n.value.base, n.token, fuel) == (Reached(Single(COMPONENT)), r.value.token))
        && r.value.token.file < |liveFiles|
        && r.value.crateModule == liveFiles[r.value.token.file].crateModule
      ensures ok && FindFullNodePtrFromIds(crateId, moduleId, ids).None? ==> r.None?
      ensures FindFullNodePtrFromIds(crateId, moduleId, ids).None? ==> ok
      ensures var fp := FindFullNodePtrFromIds(crateId, moduleId, ids);
        fp.Some? ==>
          var n := ResolvePtr(fp.value).value;
          var chain := ClassChain(n.value.base, n.token, fuel);
          && (!ok <==> chain.0 == OutOfFuel || chain.0 == Dangling || (chain.0.Reached? && chain.1.file >= |expanded|))
          && (chain.0 == Reached(Single(COMPONENT)) && chain.1.file < |expanded| ==>
                ok && r == Some(Origin(liveFiles[chain.1.file].crateModule, chain.1, fp.value)))
    {
      var cm := CrateModule(crateId, moduleId);
      if cm !in crateModuleToFileId {
        return None, true;
      }
      var f := crateModuleToFileId[cm];
      var scan := ScanMulti(expanded[f], ids);
      if scan.Err? {
        return None, true;
      }
      var p := scan.value;
      var node := Level(expanded[f], p.level)[p.index];
      if !node.value.Class? {
        return None, true;
      }
      var iter := node.value.base;
      var tok := node.token;
      var left := fuel;
      while iter.Ptr?
        invariant ClassChain(iter, tok, left) == ClassChain(node.value.base, node.token, fuel)
        decreases left
      {
        if left == 0 {
          return None, false;
        }
        var n := ResolvePtr(FullPtr(iter.file, LocalPtr(iter.level, iter.index)));
        if n.None? {
          return None, false;
        }
        if !n.value.value.Class? {
          return None, true;
        }
        iter, tok, left := n.value.value.base, n.value.token, left - 1;
      }
      if tok.file >= |expanded| {
        return None, false;
      }
      if iter != Single(COMPONENT) {
        return None, true;
      }
      return Some(Origin(liveFiles[tok.file].crateModule, tok, FullPtr(f, p))), true;
    }

    /**
     * `find_crate_module_by_file_id`: some module registered to the file, or `None`
     * when there is none. The table is unordered, so which module is returned when
     * several share the file is not fixed.
     */
    method FindCrateModuleByFileId(fileId: FileId) returns (r: Option<CrateModule>)
      ensures r.Some? ==> r.value in crateModuleToFileId && crateModuleToFileId[r.value] == fileId
      ensures r.None? <==> forall c :: c in crateModuleToFileId ==> crateModuleToFileId[c] != fileId
    {
      var todo := crateModuleToFileId.Keys;
      while todo != {}
        invariant todo <= crateModuleToFileId.Keys
        invariant forall c :: c in crateModuleToFileId && c !in todo ==> crateModuleToFileId[c] != fileId
        decreases |todo|
      {
        var c :| c in todo;
        if crateModuleToFileId[c] == fileId {
          return Some(c);
        }
        todo := todo - {c};
      }
      return None;
    }
  }

  /**
   * Every top-level node of the raw document that the walk writes as a node of
   * its own (anything but an import or a class) left an entry with its token and
   * id on the top level of the expanded document.
   */
  ghost predicate TopWritten(raw: LiveDocument, doc: LiveDocument)
  {
    |raw.nodes| > 0
    && forall i :: 0 <= i < |raw.nodes[0]| && !raw.nodes[0][i].value.Use? && !raw.nodes[0][i].value.Class? ==>
         (raw.nodes[0][i].token, raw.nodes[0][i].id) in Heads(Level(doc, 0))
  }

  /**
   * An expanded document rebuilt from its raw document: it starts with the raw
   * document's strings, tokens and path ids, holds its top-level nodes, and is no
   * longer marked for recompilation.
   */
  ghost predicate Rebuilt(raw: LiveDocument, doc: LiveDocument)
  {
    && raw.strings <= doc.strings && raw.tokens <= doc.tokens && raw.multiIds <= doc.multiIds
    && TopWritten(raw, doc) && !doc.recompile
  }

  /** Every module of `order` that has a file has an expanded document not marked for recompilation. */
  ghost predicate UpToDate(order: seq<Entry>, m: map<CrateModule, FileId>, exp: seq<LiveDocument>)
  {
    forall k :: 0 <= k < |order| && order[k].0 in m ==> m[order[k].0] < |exp| && !exp[m[order[k].0]].recompile
  }

  /** The entry at `k` is brought up to date, and the one document it may touch keeps the earlier ones so. */
  lemma UpToDateStep(order: seq<Entry>, m: map<CrateModule, FileId>, exp: seq<LiveDocument>, next: seq<LiveDocument>, k: nat)
    requires k < |order| && |next| == |exp| && forall c :: c in m ==> m[c] < |exp|
    requires UpToDate(order[..k], m, exp)
    requires order[k].0 !in m ==> next == exp
    requires order[k].0 in m ==> next == exp[m[order[k].0] := next[m[order[k].0]]] && !next[m[order[k].0]].recompile
    ensures UpToDate(order[..k + 1], m, next)
  {
    forall j | 0 <= j < k + 1 && order[j].0 in m
      ensures m[order[j].0] < |next| && !next[m[order[j].0]].recompile
    {
      if j < k {
        assert order[..k][j] == order[j];
      }
    }
    assert forall j :: 0 <= j < k + 1 ==> order[..k + 1][j] == order[j];
  }

  /**
   * What the loop of `expand_all_documents` keeps after the first `k` entries of
   * the order, from `exp` and `errors` to `cur` and `curErrors`.
   */
  ghost predicate ExpandedUpTo(order: seq<Entry>, m: map<CrateModule, FileId>, files: seq<LiveFile>,
                               exp: seq<LiveDocument>, errors: seq<LiveError>, k: nat,
                               cur: seq<LiveDocument>, curErrors: seq<LiveError>)
  {
    && k <= |order| && |cur| == |exp| && |files| == |exp|
    && errors <= curErrors
    && (forall i :: 0 <= i < |exp| && (!exp[i].recompile || cur[i].recompile) ==> cur[i] == exp[i])
    && (forall i :: 0 <= i < |exp| && exp[i].recompile && !cur[i].recompile ==> Rebuilt(files[i].document, cur[i]))
    && UpToDate(order[..k], m, cur)
    && (UpToDate(order, m, exp) ==> cur == exp && curErrors == errors + MissingDeps(order[..k], m))
    && DepErrors(curErrors) == DepErrors(errors) + MissingDeps(order[..k], m)
  }

  /** One turn of the loop of `expand_all_documents`: entry `k` of the order. */
  method ExpandStep(order: seq<Entry>, m: map<CrateModule, FileId>, files: seq<LiveFile>,
                    exp: seq<LiveDocument>, errors: seq<LiveError>, k: nat,
                    cur: seq<LiveDocument>, curErrors: seq<LiveError>)
    returns (next: seq<LiveDocument>, nextErrors: seq<LiveError>, ok: bool)
    requires k < |order| && forall c :: c in m ==> m[c] < |exp|
    requires ExpandedUpTo(order, m, files, exp, errors, k, cur, curErrors)
    ensures |next| == |exp|
    ensures UpToDate(order, m, exp) ==> ok
    ensures ok ==> ExpandedUpTo(order, m, files, exp, errors, k + 1, next, nextErrors)
  {
    next, nextErrors, ok := ExpandEntry(m, files, cur, curErrors, order[k].0, order[k].1);
    if ok {
      UpToDateStep(order, m, cur, next, k);
      StepDocs(m, files, exp, cur, next, order[k].0);
      StepErrors(order, m, exp, errors, k, cur, curErrors, next, nextErrors);
    }
  }

  /** The documents after one entry: only a dirty one is replaced, by a rebuilt and unmarked one. */
  lemma StepDocs(m: map<CrateModule, FileId>, files: seq<LiveFile>, exp: seq<LiveDocument>,
                 cur: seq<LiveDocument>, next: seq<LiveDocument>, cm: CrateModule)
    requires |cur| == |exp| && |next| == |exp| && |files| == |exp| && forall c :: c in m ==> m[c] < |exp|
    requires forall i :: 0 <= i < |exp| && (!exp[i].recompile || cur[i].recompile) ==> cur[i] == exp[i]
    requires forall i :: 0 <= i < |exp| && exp[i].recompile && !cur[i].recompile ==> Rebuilt(files[i].document, cur[i])
    requires cm !in m ==> next == cur
    requires cm in m && !cur[m[cm]].recompile ==> next == cur
    requires cm in m ==>
      && next == cur[m[cm] := next[m[cm]]] && !next[m[cm]].recompile
      && (cur[m[cm]].recompile ==> Rebuilt(files[m[cm]].document, next[m[cm]]))
    ensures forall i :: 0 <= i < |exp| && (!exp[i].recompile || next[i].recompile) ==> next[i] == exp[i]
    ensures forall i :: 0 <= i < |exp| && exp[i].recompile && !next[i].recompile ==> Rebuilt(files[i].document, next[i])
  {
  }

  /** The errors after one entry: a module without a file adds its "cannot find dependency" error, and nothing else does. */
  lemma StepErrors(order: seq<Entry>, m: map<CrateModule, FileId>, exp: seq<LiveDocument>, errors: seq<LiveError>, k: nat,
                   cur: seq<LiveDocument>, curErrors: seq<LiveError>, next: seq<LiveDocument>, nextErrors: seq<LiveError>)
    requires k < |order| && |cur| == |exp| && forall c :: c in m ==> m[c] < |exp|
    requires errors <= curErrors
    requires UpToDate(order, m, exp) ==> cur == exp && curErrors == errors + MissingDeps(order[..k], m)
    requires DepErrors(curErrors) == DepErrors(errors) + MissingDeps(order[..k], m)
    requires order[k].0 !in m ==> next == cur && nextErrors == curErrors + [LiveError(CannotFindDependency, order[k].1)]
    requires order[k].0 in m && !cur[m[order[k].0]].recompile ==> next == cur && nextErrors == curErrors
    requires order[k].0 in m ==> curErrors <= nextErrors && DepErrors(nextErrors) == DepErrors(curErrors)
    ensures errors <= nextErrors
    ensures UpToDate(order, m, exp) ==> next == exp && nextErrors == errors + MissingDeps(order[..k + 1], m)
    ensures DepErrors(nextErrors) == DepErrors(errors) + MissingDeps(order[..k + 1], m)
  {
    var e := LiveError(CannotFindDependency, order[k].1);
    var added := if order[k].0 !in m then [e] else [];
    MissingDepsStep(order, m, k);
    assert MissingDeps(order[..k + 1], m) == MissingDeps(order[..k], m) + added;
    if order[k].0 !in m {
      DepErrorsPush(curErrors, e);
      AppendAssoc(DepErrors(errors), MissingDeps(order[..k], m), added);
      if UpToDate(order, m, exp) {
        AppendAssoc(errors, MissingDeps(order[..k], m), added);
      }
    } else {
      assert added == [];
      assert MissingDeps(order[..k + 1], m) == MissingDeps(order[..k], m);
      if UpToDate(order, m, exp) {
        assert !cur[m[order[k].0]].recompile;
      }
    }
  }


  lemma AppendAssoc<T>(a: seq<T>, b: seq<T>, c: seq<T>)
    ensures a + b + c == a + (b + c)
  {
  }

  /** The loop of `expand_all_documents` over the expanded documents `exp`. */
  method ExpandInOrder(order: seq<Entry>, m: map<CrateModule, FileId>, files: seq<LiveFile>,
                       exp: seq<LiveDocument>, errors: seq<LiveError>)
    returns (exp': seq<LiveDocument>, errors': seq<LiveError>, ok: bool)
    requires |files| == |exp| && forall c :: c in m ==> m[c] < |exp|
    ensures |exp'| == |exp|
    ensures ok ==> errors <= errors'
    ensures ok ==> UpToDate(order, m, exp')
    ensures ok ==> forall i :: 0 <= i < |exp| && (!exp[i].recompile || exp'[i].recompile) ==> exp'[i] == exp[i]
    ensures ok ==> forall i :: 0 <= i < |exp| && exp[i].recompile && !exp'[i].recompile ==> Rebuilt(files[i].document, exp'[i])
    ensures ok ==> DepErrors(errors') == DepErrors(errors) + MissingDeps(order, m)
    ensures UpToDate(order, m, exp) ==> ok && exp' == exp && errors' == errors + MissingDeps(order, m)
  {
    exp', errors', ok := exp, errors, true;
    var k := 0;
    assert MissingDeps(order[..0], m) == [] by { assert order[..0] == []; }
    assert errors == errors + MissingDeps(order[..0], m);
    while k < |order|
      invariant ExpandedUpTo(order, m, files, exp, errors, k, exp', errors')
    {
      var next, errs;
      next, errs, ok := ExpandStep(order, m, files, exp, errors, k, exp', errors');
      if !ok {
        return;
      }
      exp', errors' := next, errs;
      k := k + 1;
    }
    assert order[..k] == order;
  }

  /**
   * One entry of the order in `expand_all_documents`: a module without a file
   * records "Cannot find dependency"; a document not marked for recompilation is
   * skipped; any other is rebuilt from its raw document and unmarked.
   */
  method ExpandEntry(m: map<CrateModule, FileId>, files: seq<LiveFile>, exp: seq<LiveDocument>,
                     errors: seq<LiveError>, cm: CrateModule, tok: TokenId)
    returns (exp': seq<LiveDocument>, errors': seq<LiveError>, ok: bool)
    requires |files| == |exp| && forall c :: c in m ==> m[c] < |exp|
    ensures |exp'| == |exp|
    ensures cm !in m ==> ok && exp' == exp && errors' == errors + [LiveError(CannotFindDependency, tok)]
    ensures cm in m && !exp[m[cm]].recompile ==> ok && exp' == exp && errors' == errors
    ensures ok && cm in m ==>
      && errors <= errors' && DepErrors(errors') == DepErrors(errors)
      && exp' == exp[m[cm] := exp'[m[cm]]] && !exp'[m[cm]].recompile
      && (exp[m[cm]].recompile ==> Rebuilt(files[m[cm]].document, exp'[m[cm]]))
  {
    exp', errors', ok := exp, errors, true;
    if cm !in m {
      errors' := errors + [LiveError(CannotFindDependency, tok)];
      return;
    }
    var f := m[cm];
    if exp[f].recompile {
      var inDoc := files[f].document;
      var out := RestartFrom(exp[f], inDoc);
      var env := Env(exp[f := NewDocument()], m, cm.crateId, f, inDoc);
      var errs;
      out, errs, ok := ExpandFile(env, out, errors);
      if !ok {
        return;
      }
      DepErrorsWalk(errors, errs);
      errors' := errs;
      exp' := exp[f := out.(recompile := false)];
    }
  }

  /**
   * The walk over one document's top level, starting from a fresh scope stack
   * with one frame. `ok` is false when the walk panics.
   */
  method ExpandFile(env: Env, out: LiveDocument, errors: seq<LiveError>)
    returns (out': LiveDocument, errors': seq<LiveError>, ok: bool)
    ensures ok ==> WalkErrors(errors, errors') && Grows(out, out')
    ensures ok ==> TopWritten(env.inDoc, out')
  {
    if |env.inDoc.nodes| == 0 {
      return out, errors, false;
    }
    var top := env.inDoc.nodes[0];
    var ctx := Expansion(out, [[]], errors);
    var i := 0;
    while i < |top|
      invariant i <= |top|
      invariant WalkErrors(errors, ctx.errors) && Grows(out, ctx.out)
      invariant forall j :: 0 <= j < i && !top[j].value.Use? && !top[j].value.Class? ==>
        (top[j].token, top[j].id) in Heads(Level(ctx.out, 0))
    {
      var next;
      next, ok := WalkNode(env, ctx, 0, 0, i, 0, 0);
      if !ok {
        return out, errors, false;
      }
      TopStep(env, ctx, next, i);
      ProgressTrans(Expansion(out, [], errors), ctx, next);
      ctx := next;
      i := i + 1;
    }
    return ctx.out, ctx.errors, true;
  }

  /** One more top-level node walked: the entries already there keep their heads, and a written node adds its own. */
  lemma TopStep(env: Env, ctx: Expansion, next: Expansion, i: nat)
    requires |env.inDoc.nodes| > 0 && i < |env.inDoc.nodes[0]|
    requires Grows(ctx.out, next.out)
    requires var node := env.inDoc.nodes[0][i];
      !node.value.Use? && !node.value.Class? ==>
        var w := WrittenIndex(ctx.out, 0, 0, 0, node);
        && w < GetLevelLen(next.out, 0)
        && WrittenWith(ctx.out, next.out, 0, 0, 0, node, Level(next.out, 0)[w].value)
    ensures forall x :: x in Heads(Level(ctx.out, 0)) ==> x in Heads(Level(next.out, 0))
    ensures var node := env.inDoc.nodes[0][i];
      !node.value.Use? && !node.value.Class? ==> (node.token, node.id) in Heads(Level(next.out, 0))
  {
    var a, b := Heads(Level(ctx.out, 0)), Heads(Level(next.out, 0));
    assert a <= b;
    var node := env.inDoc.nodes[0][i];
    if !node.value.Use? && !node.value.Class? {
      var w := WrittenIndex(ctx.out, 0, 0, 0, node);
      var v := Level(next.out, 0)[w].value;
      assert Level(next.out, 0) == Level(ctx.out, 0) + [node.(value := v)];
      assert b[|Level(ctx.out, 0)|] == (node.token, node.id);
    }
  }
}
