/**
 * The live document: a tree of nodes stored level by level, with its interned
 * tables, and the small document operations the registry relies on.
 */
module LiveDocs {
  import opened Wrappers
  import opened LiveIds

  /** Where a scope binding points: into the same document or into another file. */
  datatype ScopeTarget = Local(ptr: LocalPtr) | Full(fptr: FullPtr)

  datatype ScopeItem = ScopeItem(id: Id, target: ScopeTarget)

  /** A lexed token; its contents play no part in the model. */
  datatype Token = Token(kind: nat)

  /**
   * The value of a node. Every span (`nodeStart`, `nodeCount`) addresses a run of
   * nodes on the next level; string, token and scope spans address the tables.
   */
  datatype LiveValue =
    | Bool(b: bool)
    | Int(i: int)
    | Float(f: real)
    | Color(c: nat)
    | Vec2(x: real, y: real)
    | Vec3(x: real, y: real, z: real)
    | IdRef(ref: IdPack)
    | Class(base: IdPack, nodeStart: nat, nodeCount: nat)
    | Object(nodeStart: nat, nodeCount: nat)
    | Array(nodeStart: nat, nodeCount: nat)
    | Call(target: IdPack, nodeStart: nat, nodeCount: nat)
    | Str(stringStart: nat, stringCount: nat)
    | Fn(tokenStart: nat, tokenCount: nat, scopeStart: nat, scopeCount: nat)
    | VarDef(tokenStart: nat, tokenCount: nat, scopeStart: nat, scopeCount: nat)
    | ResourceRef(target: IdPack)
    | Use(crateModule: CrateModule)

  datatype LiveNode = LiveNode(token: TokenId, id: IdPack, value: LiveValue)

  datatype LiveDocument = LiveDocument(
    recompile: bool,
    nodes: seq<seq<LiveNode>>,
    strings: seq<char>,
    tokens: seq<Token>,
    scopes: seq<ScopeItem>,
    multiIds: seq<Id>)

  /** What `scan_for_multi_for_expand` reports when a path cannot be followed. */
  datatype ScanError = EmptyPath | SegmentNotFound | SegmentNotAClass | PathOutOfRange

  datatype ErrorKind =
    | ScanFailed(reason: ScanError)
    | CannotUseBaseclass
    | PropertyNotAClass
    | CannotFindItemOnScope
    | TargetNotACall
    | CannotFindImport
    | UsePathNotFound
    | NodeTypeInvalid
    | CannotOverrideNonClass
    | CannotFindDependency

  /** A recorded error: its kind and the token it points at. */
  datatype LiveError = LiveError(kind: ErrorKind, token: TokenId)

  /** `LiveDocument::new`: an empty document that still has to be expanded. */
  function NewDocument(): LiveDocument
  {
    LiveDocument(true, [], [], [], [], [])
  }

  /** The nodes of one level; a level that was never written is empty. */
  function Level(doc: LiveDocument, level: nat): seq<LiveNode>
  {
    if level < |doc.nodes| then doc.nodes[level] else []
  }

  /** `get_level_len`. */
  function GetLevelLen(doc: LiveDocument, level: nat): nat
  {
    |Level(doc, level)|
  }

  /** The node a local pointer addresses, if it is in range. */
  function NodeAt(doc: LiveDocument, p: LocalPtr): Option<LiveNode>
  {
    if p.index < GetLevelLen(doc, p.level) then Some(Level(doc, p.level)[p.index]) else None
  }

  /** A run of `count` table entries from `start` is readable: an empty run always is. */
  predicate RunFits(len: nat, start: nat, count: nat)
  {
    count == 0 || start + count <= len
  }

  /** The run of `count` entries from `start`. */
  function Run<T>(s: seq<T>, start: nat, count: nat): seq<T>
    requires RunFits(|s|, start, count)
  {
    if count == 0 then [] else s[start..start + count]
  }

  /**
   * `b` was obtained from `a` by appending only: every level and every table of `a`
   * is a prefix of the same level or table of `b`.
   */
  ghost predicate Extends(a: LiveDocument, b: LiveDocument)
  {
    && |a.nodes| <= |b.nodes|
    && (forall l: nat :: Level(a, l) <= Level(b, l))
    && a.strings <= b.strings && a.tokens <= b.tokens
    && a.scopes <= b.scopes && a.multiIds <= b.multiIds
    && a.recompile == b.recompile
  }

  lemma ExtendsTrans(a: LiveDocument, b: LiveDocument, c: LiveDocument)
    requires Extends(a, b) && Extends(b, c)
    ensures Extends(a, c)
  {
    forall l: nat ensures Level(a, l) <= Level(c, l) {
      assert Level(a, l) <= Level(b, l) && Level(b, l) <= Level(c, l);
    }
  }

  /**
   * `push_node`: appends a node to a level, creating the missing levels first.
   * No other level and no table changes.
   */
  function PushNode(doc: LiveDocument, level: nat, node: LiveNode): (r: LiveDocument)
    ensures Level(r, level) == Level(doc, level) + [node]
    ensures forall l :: l != level ==> Level(r, l) == Level(doc, l)
    ensures |r.nodes| == if level < |doc.nodes| then |doc.nodes| else level + 1
    ensures r.strings == doc.strings && r.tokens == doc.tokens && r.scopes == doc.scopes
    ensures r.multiIds == doc.multiIds && r.recompile == doc.recompile
    ensures Extends(doc, r)
  {
    var padded := if level < |doc.nodes| then doc.nodes
                  else doc.nodes + seq(level + 1 - |doc.nodes|, _ => []);
    doc.(nodes := padded[level := padded[level] + [node]])
  }

  /**
   * `restart_from`: the previous expanded document emptied and re-seeded with the
   * raw document's interned strings, tokens and multi-segment ids.
   */
  function RestartFrom(out: LiveDocument, raw: LiveDocument): (r: LiveDocument)
    ensures r.nodes == [] && r.scopes == []
    ensures r.strings == raw.strings && r.tokens == raw.tokens && r.multiIds == raw.multiIds
    ensures r.recompile == out.recompile
  {
    LiveDocument(out.recompile, [], raw.strings, raw.tokens, [], raw.multiIds)
  }

  /** `fetch_crate_module`: a `use crate::m` import names the importing crate. */
  function FetchCrateModule(cm: CrateModule, inCrate: Id): (r: CrateModule)
    ensures r.moduleId == cm.moduleId
    ensures r.crateId == if cm.crateId == CRATE_KW then inCrate else cm.crateId
  {
    if cm.crateId == CRATE_KW then CrateModule(inCrate, cm.moduleId) else cm
  }

  /**
   * `clone_multi_id`: a path id copied from another document gets its segments
   * appended to this document's multi-id table; every other id is kept.
   */
  function CloneMultiId(out: LiveDocument, target: IdPack, inMulti: seq<Id>): (r: (LiveDocument, IdPack))
    ensures target.Multi? && target.start + target.count <= |inMulti| ==>
      && r.0.multiIds == out.multiIds + inMulti[target.start..target.start + target.count]
      && r.1 == Multi(|out.multiIds|, target.count)
    ensures !(target.Multi? && target.start + target.count <= |inMulti|) ==> r == (out, target)
    ensures r.0.nodes == out.nodes && r.0.strings == out.strings && r.0.tokens == out.tokens
    ensures r.0.scopes == out.scopes && r.0.recompile == out.recompile
  {
    if target.Multi? && target.start + target.count <= |inMulti| then
      (out.(multiIds := out.multiIds + inMulti[target.start..target.start + target.count]),
       Multi(|out.multiIds|, target.count))
    else
      (out, target)
  }

  /** Does an entry match the id being looked for? The empty id never matches. */
  predicate IdMatches(have: IdPack, want: IdPack)
  {
    want != Empty && have == want
  }

  /**
   * The first index in `[start, start + count)` (clipped to the level) whose node
   * carries `want`.
   */
  function FindInSpan(lvl: seq<LiveNode>, start: nat, count: nat, want: IdPack): (r: Option<nat>)
    decreases count
    ensures r.Some? ==> start <= r.value < start + count && r.value < |lvl|
                        && IdMatches(lvl[r.value].id, want)
    ensures r.Some? ==> forall j :: start <= j < r.value ==> !IdMatches(lvl[j].id, want)
    ensures r.None? ==> forall j :: start <= j < start + count && j < |lvl| ==> !IdMatches(lvl[j].id, want)
  {
    if count == 0 || start >= |lvl| then None
    else if IdMatches(lvl[start].id, want) then Some(start)
    else FindInSpan(lvl, start + 1, count - 1, want)
  }

  /**
   * Follows a path of ids through nested classes: the first segment is looked up in
   * `[start, start + count)` on `level`, each later one among the children of the
   * class the previous one found.
   */
  function ScanPath(doc: LiveDocument, level: nat, start: nat, count: nat, path: seq<Id>): (r: Result<LocalPtr, ScanError>)
    decreases |path|
    ensures r.Ok? ==> |path| > 0 && r.value.level == level + |path| - 1
    ensures r.Ok? ==> r.value.index < GetLevelLen(doc, r.value.level)
                      && Level(doc, r.value.level)[r.value.index].id == Single(path[|path| - 1])
    ensures r.Ok? && |path| == 1 ==> start <= r.value.index < start + count
    ensures path == [] ==> r == Err(EmptyPath)
  {
    if path == [] then Err(EmptyPath)
    else
      match FindInSpan(Level(doc, level), start, count, Single(path[0]))
      case None => Err(SegmentNotFound)
      case Some(i) =>
        if |path| == 1 then Ok(LocalPtr(level, i))
        else
          match Level(doc, level)[i].value
          case Class(_, s, c) => ScanPath(doc, level + 1, s, c, path[1..])
          case _ => Err(SegmentNotAClass)
  }

  /**
   * `scan_for_multi_for_expand`: the segments of the path id after its head (the
   * head is `Self` or the class the scope lookup found), followed from the span.
   */
  function ScanForMultiForExpand(doc: LiveDocument, level: nat, start: nat, count: nat,
                                 idStart: nat, idCount: nat, multiIds: seq<Id>): (r: Result<LocalPtr, ScanError>)
    ensures idStart + idCount > |multiIds| ==> r == Err(PathOutOfRange)
    ensures idStart + idCount <= |multiIds| && idCount <= 1 ==> r == Err(EmptyPath)
    ensures r.Ok? ==> r.value.level == level + idCount - 2
                      && r.value.index < GetLevelLen(doc, r.value.level)
                      && Level(doc, r.value.level)[r.value.index].id == Single(multiIds[idStart + idCount - 1])
    ensures r.Ok? && idCount == 2 ==> start <= r.value.index < start + count
  {
    if idStart + idCount > |multiIds| then Err(PathOutOfRange)
    else if idCount == 0 then Err(EmptyPath)
    else ScanPath(doc, level, start, count, multiIds[idStart + 1..idStart + idCount])
  }

  /**
   * `LiveDocument::write_or_add_node`: the node whose id matches in
   * `[start, start + count)` on `level` gets the incoming value in place;
   * otherwise the node is appended and its new index returned.
   */
  function WriteOrAddNode(doc: LiveDocument, level: nat, start: nat, count: nat, node: LiveNode): (r: (LiveDocument, Option<nat>))
    ensures var i := FindInSpan(Level(doc, level), start, count, node.id);
      if i.Some? then
        && r.1 == None
        && Level(r.0, level) == Level(doc, level)[i.value := Level(doc, level)[i.value].(value := node.value)]
        && |r.0.nodes| == |doc.nodes|
      else
        && r.1 == Some(GetLevelLen(doc, level))
        && Level(r.0, level) == Level(doc, level) + [node]
    ensures forall l :: l != level ==> Level(r.0, l) == Level(doc, l)
    ensures r.0.strings == doc.strings && r.0.tokens == doc.tokens && r.0.scopes == doc.scopes
    ensures r.0.multiIds == doc.multiIds && r.0.recompile == doc.recompile
  {
    var lvl := Level(doc, level);
    match FindInSpan(lvl, start, count, node.id)
    case Some(i) =>
      (doc.(nodes := doc.nodes[level := lvl[i := lvl[i].(value := node.value)]]), None)
    case None =>
      (PushNode(doc, level, node), Some(|lvl|))
  }
}
