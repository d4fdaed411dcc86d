/**
 * The structural copy engine of the expansion pass (`copy_recur` and
 * `clone_scope`): deep-copies a subtree into the output document, relocating the
 * interned tables when the subtree comes from another document.
 */
module Copy {
  import opened Wrappers
  import opened LiveIds
  import opened LiveDocs

  /** What `copy_recur` reports about the copied root. */
  datatype CopyResult = IsClass(base: IdPack) | Noop | Error

  /** A captured scope entry as seen from another document: local captures become full ones. */
  function Relocate(item: ScopeItem, file: FileId): ScopeItem
  {
    match item.target
    case Local(p) => ScopeItem(item.id, Full(FullPtr(file, p)))
    case Full(_) => item
  }

  function RelocateAll(items: seq<ScopeItem>, file: FileId): seq<ScopeItem>
  {
    seq(|items|, i requires 0 <= i < |items| => Relocate(items[i], file))
  }

  /**
   * Relocated captures keep their ids and point at the same node: a local capture
   * becomes a full pointer into `file`, a full one is unchanged.
   */
  lemma RelocateAllMeaning(items: seq<ScopeItem>, file: FileId)
    ensures |RelocateAll(items, file)| == |items|
    ensures forall i :: 0 <= i < |items| ==>
      var r := RelocateAll(items, file)[i];
      && r.id == items[i].id
      && r.target.Full?
      && (items[i].target.Local? ==> r.target.fptr == FullPtr(file, items[i].target.ptr))
      && (items[i].target.Full? ==> r.target == items[i].target)
  {
  }

  /**
   * Appends `src[start..start + count]` to `dst` one entry at a time, as the copy
   * loops over strings and tokens do; fails (a panic in the source) when the run
   * leaves `src`.
   */
  method AppendRange<T>(dst: seq<T>, src: seq<T>, start: nat, count: nat) returns (r: seq<T>, ok: bool)
    ensures ok <==> RunFits(|src|, start, count)
    ensures ok ==> r == dst + Run(src, start, count)
  {
    r := dst;
    var i := 0;
    while i < count
      invariant 0 <= i <= count
      invariant i > 0 ==> start + i <= |src|
      invariant r == dst + Run(src, start, i)
    {
      if start + i >= |src| {
        return r, false;
      }
      r := r + [src[start + i]];
      i := i + 1;
    }
    return r, true;
  }

  /**
   * `clone_scope`: appends the captured scope run `[start, start + count)` of `src`
   * to the output's scope table, turning local captures into full pointers into
   * `file`.
   */
  method CloneScope(src: LiveDocument, out: LiveDocument, start: nat, count: nat, file: FileId)
    returns (out': LiveDocument, ok: bool)
    ensures ok <==> RunFits(|src.scopes|, start, count)
    ensures ok ==> out'.scopes == out.scopes + RelocateAll(Run(src.scopes, start, count), file)
    ensures out' == out.(scopes := out'.scopes)
  {
    out' := out;
    var i := 0;
    while i < count
      invariant 0 <= i <= count
      invariant i > 0 ==> start + i <= |src.scopes|
      invariant out' == out.(scopes := out'.scopes)
      invariant out'.scopes == out.scopes + RelocateAll(Run(src.scopes, start, i), file)
    {
      if start + i >= |src.scopes| {
        return out', false;
      }
      out' := out'.(scopes := out'.scopes + [Relocate(src.scopes[start + i], file)]);
      i := i + 1;
    }
    return out', true;
  }

  /** The id the copy of a node carries: the replacement id on the skip level. */
  function CopyId(node: LiveNode, skipId: IdPack, skipLevel: nat, inLevel: nat): IdPack
  {
    if skipLevel == inLevel then skipId else node.id
  }

  /** What `copy_recur` reports for a copied root. */
  function CopyOutcome(node: LiveNode): CopyResult
  {
    if node.value.Class? && node.value.base != SELF_PACK then IsClass(node.value.base) else Noop
  }

  /**
   * The node `copy_recur` emits on the output level for a root `node`, given the
   * output document as it was when the copy of that root began (`srcFile` is `None`
   * for a copy within the output document).
   */
  function EmittedRoot(node: LiveNode, srcFile: Option<FileId>, srcMulti: seq<Id>, out: LiveDocument,
                       skipId: IdPack, skipLevel: nat, inLevel: nat, outLevel: nat): seq<LiveNode>
  {
    var nid := CopyId(node, skipId, skipLevel, inLevel);
    var childStart := GetLevelLen(out, outLevel + 1);
    match node.value
    case Call(t, _, c) => [LiveNode(node.token, nid, Call(t, childStart, c))]
    case Array(_, c) => [LiveNode(node.token, nid, Array(childStart, c))]
    case Object(_, c) => [LiveNode(node.token, nid, Object(childStart, c))]
    case Use(_) => []
    case Class(b, _, c) =>
      if b == SELF_PACK || skipLevel == inLevel then []
      else [LiveNode(node.token, node.id, Class(b, childStart, c))]
    case Str(s, c) =>
      [LiveNode(node.token, nid, Str(if srcFile.Some? then |out.strings| else s, c))]
    case Fn(ts, tc, ss, sc) =>
      [LiveNode(node.token, nid, if srcFile.Some? then Fn(|out.tokens|, tc, |out.scopes|, sc) else Fn(ts, tc, ss, sc))]
    case VarDef(ts, tc, ss, sc) =>
      [LiveNode(node.token, nid, if srcFile.Some? then VarDef(|out.tokens|, tc, |out.scopes|, sc) else VarDef(ts, tc, ss, sc))]
    case ResourceRef(t) =>
      [LiveNode(node.token, nid, ResourceRef(if srcFile.Some? then CloneMultiId(out, t, srcMulti).1 else t))]
    case _ => [LiveNode(node.token, nid, node.value)]
  }

  /** Does the value own children on the next level? */
  predicate HasChildren(v: LiveValue)
  {
    v.Call? || v.Array? || v.Object? || (v.Class? && v.base != SELF_PACK)
  }

  /** The token and id of each node: what a copy keeps of its source whatever spans it rewrites. */
  function Heads(s: seq<LiveNode>): seq<(TokenId, IdPack)>
  {
    seq(|s|, i requires 0 <= i < |s| => (s[i].token, s[i].id))
  }

  lemma HeadsAppend(a: seq<LiveNode>, b: seq<LiveNode>, n: nat)
    requires n <= |a|
    ensures Heads((a + b)[n..]) == Heads(a[n..]) + Heads(b)
  {
    assert (a + b)[n..] == a[n..] + b;
  }

  /** A level that only grew keeps the token and id of every node it had. */
  lemma HeadsPrefix(a: seq<LiveNode>, b: seq<LiveNode>)
    requires a <= b
    ensures Heads(a) <= Heads(b)
  {
  }

  /** Overwriting a node's value keeps every token and id of the level. */
  lemma HeadsSetValue(lvl: seq<LiveNode>, i: nat, v: LiveValue)
    requires i < |lvl|
    ensures Heads(lvl[i := lvl[i].(value := v)]) == Heads(lvl)
  {
    assert forall k :: 0 <= k < |lvl| ==> lvl[i := lvl[i].(value := v)][k].id == lvl[k].id;
  }

  /** Does `copy_recur` emit a node on the output level for this root? */
  predicate Emits(node: LiveNode, skipLevel: nat, inLevel: nat)
  {
    !node.value.Use? && !(node.value.Class? && (node.value.base == SELF_PACK || skipLevel == inLevel))
  }

  /** The token and id of what `copy_recur` emits for a root: one entry, or none. */
  function RootHead(node: LiveNode, skipId: IdPack, skipLevel: nat, inLevel: nat): seq<(TokenId, IdPack)>
  {
    if Emits(node, skipLevel, inLevel) then [(node.token, CopyId(node, skipId, skipLevel, inLevel))] else []
  }

  /**
   * The emitted root keeps the source node's token and carries its copy id,
   * whatever its spans are rewritten to.
   */
  lemma EmittedRootHead(node: LiveNode, srcFile: Option<FileId>, srcMulti: seq<Id>, out: LiveDocument,
                        skipId: IdPack, skipLevel: nat, inLevel: nat, outLevel: nat)
    ensures Heads(EmittedRoot(node, srcFile, srcMulti, out, skipId, skipLevel, inLevel, outLevel))
            == RootHead(node, skipId, skipLevel, inLevel)
  {
  }

  /**
   * The tokens and ids that copying the run `[start, start + count)` of level
   * `inLevel` of `src` emits on the output level, in order: one entry per node
   * that is neither an import, nor a `Self` class, nor a class on the skip level.
   */
  function ChildHeads(src: LiveDocument, skipId: IdPack, skipLevel: nat, inLevel: nat, start: nat, count: nat): seq<(TokenId, IdPack)>
    decreases count
  {
    if count == 0 then []
    else
      ChildHeads(src, skipId, skipLevel, inLevel, start, count - 1)
      + (if start + count - 1 < GetLevelLen(src, inLevel)
         then RootHead(Level(src, inLevel)[start + count - 1], skipId, skipLevel, inLevel) else [])
  }

  /**
   * Copies the nodes `[start, start + count)` of level `inLevel` of `src`, in order,
   * onto level `outLevel` of the output. Only appends; levels above `outLevel` stay.
   * Fails when the run leaves the level; otherwise the level gains, in order, the
   * copy of each node of the run that emits one.
   */
  method CopyChildren(src: LiveDocument, srcFile: Option<FileId>, out: LiveDocument,
                      skipId: IdPack, skipLevel: nat, inLevel: nat, outLevel: nat, start: nat, count: nat)
    returns (out': LiveDocument, ok: bool)
    decreases |src.nodes| - inLevel, 4
    ensures ok ==> Extends(out, out')
    ensures ok ==> forall l: nat :: l < outLevel ==> Level(out', l) == Level(out, l)
    ensures ok ==> RunFits(GetLevelLen(src, inLevel), start, count)
    ensures ok ==> GetLevelLen(out, outLevel) <= GetLevelLen(out', outLevel)
                   && Heads(Level(out', outLevel)[GetLevelLen(out, outLevel)..])
                      == ChildHeads(src, skipId, skipLevel, inLevel, start, count)
  {
    out' := out;
    var n := GetLevelLen(out, outLevel);
    var i := 0;
    while i < count
      invariant i <= count
      invariant Extends(out, out')
      invariant forall l: nat :: l < outLevel ==> Level(out', l) == Level(out, l)
      invariant i > 0 ==> start + i <= GetLevelLen(src, inLevel)
      invariant n <= GetLevelLen(out', outLevel)
      invariant Heads(Level(out', outLevel)[n..]) == ChildHeads(src, skipId, skipLevel, inLevel, start, i)
    {
      var next;
      next, ok := CopyChild(src, srcFile, out, out', skipId, skipLevel, inLevel, outLevel, start, i, n);
      if !ok {
        return;
      }
      out' := next;
      i := i + 1;
    }
    ok := true;
  }

  /** Copies child `i` of the run: what the children before it emitted stays, and its own emission follows. */
  method CopyChild(src: LiveDocument, srcFile: Option<FileId>, ghost out: LiveDocument, cur: LiveDocument,
                   skipId: IdPack, skipLevel: nat, inLevel: nat, outLevel: nat, start: nat, i: nat, n: nat)
    returns (next: LiveDocument, ok: bool)
    requires Extends(out, cur) && forall l: nat :: l < outLevel ==> Level(cur, l) == Level(out, l)
    requires n <= GetLevelLen(cur, outLevel)
    requires Heads(Level(cur, outLevel)[n..]) == ChildHeads(src, skipId, skipLevel, inLevel, start, i)
    decreases |src.nodes| - inLevel, 3
    ensures ok ==> start + i < GetLevelLen(src, inLevel)
    ensures ok ==> Extends(out, next) && forall l: nat :: l < outLevel ==> Level(next, l) == Level(out, l)
    ensures ok ==> n <= GetLevelLen(next, outLevel)
    ensures ok ==> Heads(Level(next, outLevel)[n..]) == ChildHeads(src, skipId, skipLevel, inLevel, start, i + 1)
  {
    var res;
    next, res, ok := CopyRecur(src, srcFile, cur, skipId, skipLevel, inLevel, outLevel, start + i);
    if !ok {
      return;
    }
    ChildStep(src, srcFile, cur, next, skipId, skipLevel, inLevel, outLevel, start, i, n);
    ExtendsTrans(out, cur, next);
  }

  /** One child of the run: its emitted token and id follow those of the children before it. */
  lemma ChildStep(src: LiveDocument, srcFile: Option<FileId>, cur: LiveDocument, next: LiveDocument, skipId: IdPack,
                  skipLevel: nat, inLevel: nat, outLevel: nat, start: nat, i: nat, n: nat)
    requires start + i < GetLevelLen(src, inLevel) && n <= GetLevelLen(cur, outLevel)
    requires Heads(Level(cur, outLevel)[n..]) == ChildHeads(src, skipId, skipLevel, inLevel, start, i)
    requires Level(next, outLevel) == Level(cur, outLevel)
               + EmittedRoot(Level(src, inLevel)[start + i], srcFile, src.multiIds, cur, skipId, skipLevel, inLevel, outLevel)
    ensures Heads(Level(next, outLevel)[n..]) == ChildHeads(src, skipId, skipLevel, inLevel, start, i + 1)
  {
    var node := Level(src, inLevel)[start + i];
    var e := EmittedRoot(node, srcFile, src.multiIds, cur, skipId, skipLevel, inLevel, outLevel);
    HeadsAppend(Level(cur, outLevel), e, n);
    EmittedRootHead(node, srcFile, src.multiIds, cur, skipId, skipLevel, inLevel, outLevel);
  }

  /**
   * `copy_recur`: copies node `inIndex` of level `inLevel` of `src` onto level
   * `outLevel` of the output, its children first. When the copy comes from another
   * file (`srcFile` is `Some`), strings, tokens, captured scopes and path ids are
   * appended to the output's tables and the copy points at the new runs; a copy
   * within the output document keeps the original runs. A `Use` emits nothing, a
   * class whose base is `Self` emits nothing and a class on the skip level emits
   * only its children.
   */
  method CopyRecur(src: LiveDocument, srcFile: Option<FileId>, out: LiveDocument,
                   skipId: IdPack, skipLevel: nat, inLevel: nat, outLevel: nat, inIndex: nat)
    returns (out': LiveDocument, res: CopyResult, ok: bool)
    decreases |src.nodes| - inLevel, 2
    ensures ok ==> inIndex < GetLevelLen(src, inLevel)
    ensures ok ==> Extends(out, out')
    ensures ok ==> forall l: nat :: l < outLevel ==> Level(out', l) == Level(out, l)
    ensures ok ==>
      var node := Level(src, inLevel)[inIndex];
      && res == CopyOutcome(node)
      && Level(out', outLevel) == Level(out, outLevel) + EmittedRoot(node, srcFile, src.multiIds, out, skipId, skipLevel, inLevel, outLevel)
    ensures ok && !HasChildren(Level(src, inLevel)[inIndex].value) ==>
      LeafTables(Level(src, inLevel)[inIndex].value, src, srcFile, out, out')
    ensures ok && HasChildren(Level(src, inLevel)[inIndex].value) ==>
      var node := Level(src, inLevel)[inIndex];
      && GetLevelLen(out, outLevel + 1) <= GetLevelLen(out', outLevel + 1)
      && Heads(Level(out', outLevel + 1)[GetLevelLen(out, outLevel + 1)..])
         == ChildHeads(src, skipId, skipLevel, inLevel + 1, node.value.nodeStart, node.value.nodeCount)
  {
    if inIndex >= GetLevelLen(src, inLevel) {
      return out, Noop, false;
    }
    var node := Level(src, inLevel)[inIndex];
    var nid := CopyId(node, skipId, skipLevel, inLevel);
    res := CopyOutcome(node);
    if HasChildren(node.value) {
      out', ok := CopyContainer(src, srcFile, out, skipId, skipLevel, inLevel, outLevel, node);
    } else if node.value.Class? {
      out', ok := out, true;
    } else {
      out', ok := CopyLeaf(src, srcFile, out, outLevel, node, nid);
    }
  }

  /**
   * The effect on the tables of copying a node without children: from another file
   * a string run, or a body's token and scope runs, are appended (scopes relocated);
   * otherwise no table changes.
   */
  ghost predicate LeafTables(v: LiveValue, src: LiveDocument, srcFile: Option<FileId>, out: LiveDocument, out': LiveDocument)
  {
    if srcFile.None? then
      out'.strings == out.strings && out'.tokens == out.tokens
      && out'.scopes == out.scopes && out'.multiIds == out.multiIds
    else
      match v
      case Str(s, c) =>
        && RunFits(|src.strings|, s, c) && out'.strings == out.strings + Run(src.strings, s, c)
        && out'.tokens == out.tokens && out'.scopes == out.scopes && out'.multiIds == out.multiIds
      case Fn(ts, tc, ss, sc) => BodyTables(ts, tc, ss, sc, src, srcFile.value, out, out')
      case VarDef(ts, tc, ss, sc) => BodyTables(ts, tc, ss, sc, src, srcFile.value, out, out')
      case ResourceRef(t) =>
        && out'.multiIds == CloneMultiId(out, t, src.multiIds).0.multiIds
        && out'.strings == out.strings && out'.tokens == out.tokens && out'.scopes == out.scopes
      case _ =>
        out'.strings == out.strings && out'.tokens == out.tokens
        && out'.scopes == out.scopes && out'.multiIds == out.multiIds
  }

  ghost predicate BodyTables(ts: nat, tc: nat, ss: nat, sc: nat, src: LiveDocument, file: FileId,
                             out: LiveDocument, out': LiveDocument)
  {
    && out'.strings == out.strings && out'.multiIds == out.multiIds
    && RunFits(|src.tokens|, ts, tc) && out'.tokens == out.tokens + Run(src.tokens, ts, tc)
    && RunFits(|src.scopes|, ss, sc)
    && out'.scopes == out.scopes + RelocateAll(Run(src.scopes, ss, sc), file)
  }

  /** The copy of a call, array, object or class: the children, then the node itself. */
  method CopyContainer(src: LiveDocument, srcFile: Option<FileId>, out: LiveDocument,
                       skipId: IdPack, skipLevel: nat, inLevel: nat, outLevel: nat, node: LiveNode)
    returns (out': LiveDocument, ok: bool)
    requires inLevel < |src.nodes|
    requires HasChildren(node.value)
    decreases |src.nodes| - inLevel, 1
    ensures ok ==> Extends(out, out')
    ensures ok ==> forall l: nat :: l < outLevel ==> Level(out', l) == Level(out, l)
    ensures ok ==> Level(out', outLevel) == Level(out, outLevel) + EmittedRoot(node, srcFile, src.multiIds, out, skipId, skipLevel, inLevel, outLevel)
    ensures ok ==> GetLevelLen(out, outLevel + 1) <= GetLevelLen(out', outLevel + 1)
                   && Heads(Level(out', outLevel + 1)[GetLevelLen(out, outLevel + 1)..])
                      == ChildHeads(src, skipId, skipLevel, inLevel + 1, node.value.nodeStart, node.value.nodeCount)
  {
    var nid := CopyId(node, skipId, skipLevel, inLevel);
    var childStart := GetLevelLen(out, outLevel + 1);
    out', ok := CopyChildren(src, srcFile, out, skipId, skipLevel, inLevel + 1, outLevel + 1,
                             node.value.nodeStart, node.value.nodeCount);
    if !ok { return; }
    var before := out';
    match node.value {
      case Call(t, _, c) =>
        out' := PushNode(out', outLevel, LiveNode(node.token, nid, Call(t, childStart, c)));
      case Array(_, c) =>
        out' := PushNode(out', outLevel, LiveNode(node.token, nid, Array(childStart, c)));
      case Object(_, c) =>
        out' := PushNode(out', outLevel, LiveNode(node.token, nid, Object(childStart, c)));
      case Class(b, _, c) =>
        if skipLevel != inLevel {
          out' := PushNode(out', outLevel, LiveNode(node.token, node.id, Class(b, childStart, c)));
        }
    }
    ExtendsTrans(out, before, out');
  }

  /** The copy of a node without children. */
  method CopyLeaf(src: LiveDocument, srcFile: Option<FileId>, out: LiveDocument, outLevel: nat,
                  node: LiveNode, nid: IdPack)
    returns (out': LiveDocument, ok: bool)
    requires !HasChildren(node.value) && !node.value.Class?
    ensures ok ==> Extends(out, out')
    ensures ok ==> forall l: nat :: l != outLevel ==> Level(out', l) == Level(out, l)
    ensures ok ==> Level(out', outLevel) == Level(out, outLevel) + EmittedRoot(node, srcFile, src.multiIds, out, nid, 0, 0, outLevel)
    ensures ok ==> LeafTables(node.value, src, srcFile, out, out')
  {
    match node.value {
      case Use(_) =>
        out', ok := out, true;
      case Str(s, c) =>
        out', ok := CopyStr(src, srcFile, out, outLevel, node, nid);
      case Fn(_, _, _, _) =>
        out', ok := CopyFnOrVar(src, srcFile, out, outLevel, node, nid);
      case VarDef(_, _, _, _) =>
        out', ok := CopyFnOrVar(src, srcFile, out, outLevel, node, nid);
      case ResourceRef(_) =>
        out' := CopyResourceRef(src, srcFile, out, outLevel, node, nid);
        ok := true;
      case _ =>
        out', ok := PushNode(out, outLevel, LiveNode(node.token, nid, node.value)), true;
    }
  }

  /** The copy of a function or variable: its body's runs first, then the node with their new starts. */
  method CopyFnOrVar(src: LiveDocument, srcFile: Option<FileId>, out: LiveDocument, outLevel: nat,
                     node: LiveNode, nid: IdPack)
    returns (out': LiveDocument, ok: bool)
    requires node.value.Fn? || node.value.VarDef?
    ensures ok ==> Extends(out, out')
    ensures ok ==> forall l: nat :: l != outLevel ==> Level(out', l) == Level(out, l)
    ensures ok ==> Level(out', outLevel) == Level(out, outLevel) + EmittedRoot(node, srcFile, src.multiIds, out, nid, 0, 0, outLevel)
    ensures ok ==> LeafTables(node.value, src, srcFile, out, out')
  {
    var ts, tc, ss, sc := node.value.tokenStart, node.value.tokenCount, node.value.scopeStart, node.value.scopeCount;
    var mid, starts;
    mid, starts, ok := CopyBody(src, srcFile, out, ts, tc, ss, sc);
    if !ok { return out, false; }
    var v := if node.value.Fn? then Fn(starts.0, tc, starts.1, sc) else VarDef(starts.0, tc, starts.1, sc);
    out' := PushNode(mid, outLevel, LiveNode(node.token, nid, v));
    ExtendsTrans(out, mid, out');
  }

  /** The copy of a resource reference: from another file its path is cloned into the output's path table. */
  method CopyResourceRef(src: LiveDocument, srcFile: Option<FileId>, out: LiveDocument, outLevel: nat,
                         node: LiveNode, nid: IdPack)
    returns (out': LiveDocument)
    requires node.value.ResourceRef?
    ensures Extends(out, out')
    ensures forall l: nat :: l != outLevel ==> Level(out', l) == Level(out, l)
    ensures Level(out', outLevel) == Level(out, outLevel) + EmittedRoot(node, srcFile, src.multiIds, out, nid, 0, 0, outLevel)
    ensures LeafTables(node.value, src, srcFile, out, out')
  {
    var t := node.value.target;
    var target := if srcFile.Some? then CloneMultiId(out, t, src.multiIds).1 else t;
    var mid := if srcFile.Some? then CloneMultiId(out, t, src.multiIds).0 else out;
    out' := PushNode(mid, outLevel, LiveNode(node.token, nid, ResourceRef(target)));
    ExtendsTrans(out, mid, out');
  }

  /** The copy of a string node: from another file its characters are appended first. */
  method CopyStr(src: LiveDocument, srcFile: Option<FileId>, out: LiveDocument, outLevel: nat,
                 node: LiveNode, nid: IdPack)
    returns (out': LiveDocument, ok: bool)
    requires node.value.Str?
    ensures ok ==> Extends(out, out')
    ensures ok ==> forall l: nat :: l != outLevel ==> Level(out', l) == Level(out, l)
    ensures ok ==> Level(out', outLevel) == Level(out, outLevel) + EmittedRoot(node, srcFile, src.multiIds, out, nid, 0, 0, outLevel)
    ensures ok ==> LeafTables(node.value, src, srcFile, out, out')
  {
    var s, c := node.value.stringStart, node.value.stringCount;
    var newStart := s;
    var mid := out;
    if srcFile.Some? {
      newStart := |out.strings|;
      var strings;
      strings, ok := AppendRange(out.strings, src.strings, s, c);
      if !ok { return out, false; }
      mid := out.(strings := strings);
    }
    out', ok := PushNode(mid, outLevel, LiveNode(node.token, nid, Str(newStart, c))), true;
    ExtendsTrans(out, mid, out');
  }

  /**
   * The token and captured-scope part of copying a function or variable body: from
   * another file both runs are appended and their new starts returned; within the
   * output document the old starts are kept.
   */
  method CopyBody(src: LiveDocument, srcFile: Option<FileId>, out: LiveDocument,
                  ts: nat, tc: nat, ss: nat, sc: nat)
    returns (out': LiveDocument, starts: (nat, nat), ok: bool)
    ensures ok ==> Extends(out, out') && out'.nodes == out.nodes
    ensures ok && srcFile.None? ==> out' == out && starts == (ts, ss)
    ensures ok && srcFile.Some? ==>
      starts == (|out.tokens|, |out.scopes|) && BodyTables(ts, tc, ss, sc, src, srcFile.value, out, out')
  {
    if srcFile.None? {
      return out, (ts, ss), true;
    }
    starts := (|out.tokens|, |out.scopes|);
    var tokens;
    tokens, ok := AppendRange(out.tokens, src.tokens, ts, tc);
    if !ok { return out, starts, false; }
    out', ok := CloneScope(src, out.(tokens := tokens), ss, sc, srcFile.value);
  }
}
