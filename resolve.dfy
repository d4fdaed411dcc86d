/**
 * Identifier resolution during expansion (`resolve_id`): a single id is looked up
 * on the scope stack; a path id is resolved from its head (`Self`, or a class
 * found on the scope stack) one nested-class segment at a time.
 */
module Resolve {
  import opened Wrappers
  import opened LiveIds
  import opened LiveDocs
  import opened Scopes

  /**
   * The outcome of a resolution: a pointer (`file` is `None` for a node of the
   * output document itself), an error to record, or a panic of the source (an
   * index out of range).
   */
  datatype Resolution = Found(file: Option<FileId>, ptr: LocalPtr) | Failed(kind: ErrorKind) | Panic

  function FromScan(r: Result<LocalPtr, ScanError>, file: Option<FileId>): Resolution
  {
    match r
    case Ok(p) => Found(file, p)
    case Err(e) => Failed(ScanFailed(e))
  }

  /** The document a resolution points into: the output, or an expanded sibling. */
  function TargetDoc(file: Option<FileId>, expanded: seq<LiveDocument>, out: LiveDocument): Option<LiveDocument>
  {
    match file
    case None => Some(out)
    case Some(f) => if f < |expanded| then Some(expanded[f]) else None
  }

  /** Resolves the rest of a path inside the children of the class `n`, which the head named. */
  function ResolveInClass(n: LiveNode, p: LocalPtr, file: Option<FileId>, doc: LiveDocument,
                          idStart: nat, idCount: nat, multiIds: seq<Id>): Resolution
  {
    if n.value.Class? then
      FromScan(ScanForMultiForExpand(doc, p.level + 1, n.value.nodeStart, n.value.nodeCount, idStart, idCount, multiIds), file)
    else Failed(PropertyNotAClass)
  }

  /**
   * What the head of a path found on the scope stack leads to: no binding is
   * "Cannot find item on scope"; a binding to a node that is not a class is
   * "Property is not a class"; a binding out of range is a panic; a pointer comes
   * only from a class bound there, lies in the same document as that class, one
   * level below it per further segment, and for a two-segment path among the
   * class's own children.
   */
  ghost predicate HeadOutcome(base: Id, idCount: nat, expanded: seq<LiveDocument>, stack: ScopeStack,
                              out: LiveDocument, r: Resolution)
  {
    match FindItemSpec(stack, base)
    case None => r == Failed(CannotFindItemOnScope)
    case Some(Local(p)) => InClassOutcome(NodeAt(out, p), p, None, idCount, r)
    case Some(Full(fp)) =>
      if fp.file < |expanded| then InClassOutcome(NodeAt(expanded[fp.file], fp.local), fp.local, Some(fp.file), idCount, r)
      else r == Panic
  }

  ghost predicate InClassOutcome(head: Option<LiveNode>, p: LocalPtr, file: Option<FileId>, idCount: nat, r: Resolution)
  {
    && (head.None? ==> r == Panic)
    && (head.Some? && !head.value.value.Class? ==> r == Failed(PropertyNotAClass))
    && (r.Found? ==>
          && head.Some? && head.value.value.Class?
          && r.file == file && r.ptr.level == p.level + idCount - 1
          && (idCount == 2 ==> head.value.value.nodeStart <= r.ptr.index < head.value.value.nodeStart + head.value.value.nodeCount))
  }

  /**
   * What a `Self::a::b` path leads to: a panic when the open class's start lies
   * past the end of the output level (the source's unsigned subtraction
   * underflows); otherwise a pointer into the output document, at the level the
   * path's length gives, and for a two-segment path among the nodes written from
   * `outStart` on.
   */
  ghost predicate SelfOutcome(idCount: nat, out: LiveDocument, outLevel: nat, outStart: nat, r: Resolution)
  {
    && (outStart > GetLevelLen(out, outLevel) ==> r == Panic)
    && (r.Found? ==>
          && r.file.None? && r.ptr.level == outLevel + idCount - 2
          && (idCount == 2 ==> outStart <= r.ptr.index < GetLevelLen(out, outLevel)))
  }

  /**
   * The path case of `resolve_id`: `Self::a::b` is looked up among what the
   * open class has written so far; `x::a::b` looks `x` up on the scope stack and
   * the rest inside the class it names.
   */
  function ResolvePath(idStart: nat, idCount: nat, expanded: seq<LiveDocument>, stack: ScopeStack,
                       inDoc: LiveDocument, out: LiveDocument, outLevel: nat, outStart: nat): (r: Resolution)
    ensures (idStart < |inDoc.multiIds| && inDoc.multiIds[idStart] != SELF
             && IsBaseclass(Single(inDoc.multiIds[idStart]))) ==> r == Failed(CannotUseBaseclass)
    ensures idStart < |inDoc.multiIds| && inDoc.multiIds[idStart] == SELF ==>
      SelfOutcome(idCount, out, outLevel, outStart, r)
    ensures idStart < |inDoc.multiIds| && inDoc.multiIds[idStart] != SELF
            && !IsBaseclass(Single(inDoc.multiIds[idStart])) ==>
      HeadOutcome(inDoc.multiIds[idStart], idCount, expanded, stack, out, r)
    ensures idStart >= |inDoc.multiIds| ==> r == Panic
    ensures r.Failed? ==> r.kind != CannotFindDependency
    ensures r.Found? ==>
      && idStart + idCount <= |inDoc.multiIds| && idCount >= 2
      && TargetDoc(r.file, expanded, out).Some?
      && var doc := TargetDoc(r.file, expanded, out).value;
         r.ptr.index < GetLevelLen(doc, r.ptr.level)
         && Level(doc, r.ptr.level)[r.ptr.index].id == Single(inDoc.multiIds[idStart + idCount - 1])
  {
    if idStart >= |inDoc.multiIds| then Panic
    else
      var base := inDoc.multiIds[idStart];
      if base == SELF then
        var len := GetLevelLen(out, outLevel);
        if outStart > len then Panic
        else FromScan(ScanForMultiForExpand(out, outLevel, outStart, len - outStart, idStart, idCount, inDoc.multiIds), None)
      else if IsBaseclass(Single(base)) then Failed(CannotUseBaseclass)
      else ResolveOnStack(base, idStart, idCount, expanded, stack, inDoc, out)
  }

  /** `x::a::b` with `x` looked up on the scope stack and the rest inside the class it names. */
  function ResolveOnStack(base: Id, idStart: nat, idCount: nat, expanded: seq<LiveDocument>, stack: ScopeStack,
                          inDoc: LiveDocument, out: LiveDocument): (r: Resolution)
    ensures HeadOutcome(base, idCount, expanded, stack, out, r)
    ensures r.Failed? ==> r.kind != CannotFindDependency
    ensures r.Found? ==>
      && idStart + idCount <= |inDoc.multiIds| && idCount >= 2
      && TargetDoc(r.file, expanded, out).Some?
      && var doc := TargetDoc(r.file, expanded, out).value;
         r.ptr.index < GetLevelLen(doc, r.ptr.level)
         && Level(doc, r.ptr.level)[r.ptr.index].id == Single(inDoc.multiIds[idStart + idCount - 1])
  {
    match FindItemSpec(stack, base)
    case Some(Local(p)) =>
      (match NodeAt(out, p)
       case None => Panic
       case Some(n) => ResolveInClass(n, p, None, out, idStart, idCount, inDoc.multiIds))
    case Some(Full(fp)) =>
      if fp.file >= |expanded| then Panic
      else
        (match NodeAt(expanded[fp.file], fp.local)
         case None => Panic
         case Some(n) => ResolveInClass(n, fp.local, Some(fp.file), expanded[fp.file], idStart, idCount, inDoc.multiIds))
    case None => Failed(CannotFindItemOnScope)
  }

  /**
   * `resolve_id`. A pointer is returned only for a single id bound on the scope
   * stack, or for a path whose every segment after the head is found.
   */
  function ResolveId(rid: IdPack, expanded: seq<LiveDocument>, stack: ScopeStack,
                     inDoc: LiveDocument, out: LiveDocument, outLevel: nat, outStart: nat): (r: Resolution)
    ensures rid.Single? && !IsBaseclass(rid) ==>
      (r.Failed? <==> FindItemSpec(stack, rid.id).None?)
    ensures (rid.Single? && IsBaseclass(rid)) || rid.Empty? || rid.Ptr? ==> r == Failed(CannotFindItemOnScope)
    ensures r.Failed? ==> r.kind != CannotFindDependency
    ensures (rid.Multi? && rid.start < |inDoc.multiIds| && inDoc.multiIds[rid.start] != SELF
             && IsBaseclass(Single(inDoc.multiIds[rid.start]))) ==> r == Failed(CannotUseBaseclass)
    ensures r.Found? && rid.Multi? ==>
      && rid.start + rid.count <= |inDoc.multiIds| && rid.count >= 2
      && TargetDoc(r.file, expanded, out).Some?
      && var doc := TargetDoc(r.file, expanded, out).value;
         r.ptr.index < GetLevelLen(doc, r.ptr.level)
         && Level(doc, r.ptr.level)[r.ptr.index].id == Single(inDoc.multiIds[rid.start + rid.count - 1])
    ensures rid.Multi? && rid.start < |inDoc.multiIds| && inDoc.multiIds[rid.start] == SELF ==>
      SelfOutcome(rid.count, out, outLevel, outStart, r)
    ensures rid.Multi? && rid.start < |inDoc.multiIds| && inDoc.multiIds[rid.start] != SELF
            && !IsBaseclass(Single(inDoc.multiIds[rid.start])) ==>
      HeadOutcome(inDoc.multiIds[rid.start], rid.count, expanded, stack, out, r)
  {
    if rid.Multi? then ResolvePath(rid.start, rid.count, expanded, stack, inDoc, out, outLevel, outStart)
    else if rid.Single? && !IsBaseclass(rid) then ResolveSingle(rid.id, stack)
    else Failed(CannotFindItemOnScope)
  }

  /** The single-id case of `resolve_id`: the binding `find_item` finds, or an error. */
  function ResolveSingle(id: Id, stack: ScopeStack): (r: Resolution)
    ensures r.Failed? <==> FindItemSpec(stack, id).None?
    ensures !r.Panic?
  {
    match FindItemSpec(stack, id)
    case Some(Local(p)) => Found(None, p)
    case Some(Full(fp)) => Found(Some(fp.file), fp.local)
    case None => Failed(CannotFindItemOnScope)
  }

  /**
   * A single id resolves exactly when some frame binds it, and then to the binding
   * that shadows all others: a local binding gives a pointer into the output
   * document, a full binding one into the file it names.
   */
  lemma ResolveSingleMeaning(id: Id, expanded: seq<LiveDocument>, stack: ScopeStack,
                             inDoc: LiveDocument, out: LiveDocument, outLevel: nat, outStart: nat)
    requires !IsBaseclass(Single(id))
    ensures var r := ResolveId(Single(id), expanded, stack, inDoc, out, outLevel, outStart);
      && (r.Found? <==> Binds(stack, id))
      && (r.Found? ==> exists f: nat, j: nat ::
            && IsVisibleBinding(stack, id, f, j)
            && (if r.file.None? then stack[f][j].target == Local(r.ptr)
                else stack[f][j].target == Full(FullPtr(r.file.value, r.ptr))))
  {
    FindItemNoneIff(stack, id);
    if Binds(stack, id) {
      FindItemFindsVisible(stack, id);
    }
  }
}
