/**
 * The expansion walker (`walk_node` and its arms): writes each node of a raw
 * document into the expanded output, resolving identifiers against the scope
 * stack, expanding classes by copying their base first and merging the
 * overrides on top, and importing names for `use` declarations. Errors are
 * appended and the walk goes on; a panic of the source ends the walk (`ok` is
 * false, or a function returns `None`).
 */
module Walk {
  import opened Wrappers
  import opened LiveIds
  import opened LiveDocs
  import opened Scopes
  import opened Copy
  import opened Resolve

  /** What the walk reads and never changes: the other expanded documents and the document being expanded. */
  datatype Env = Env(
    expanded: seq<LiveDocument>,
    cmToFile: map<CrateModule, FileId>,
    inCrate: Id,
    inFile: FileId,
    inDoc: LiveDocument)

  /** What the walk changes: the output document, the scope stack and the error list. */
  datatype Expansion = Expansion(out: LiveDocument, stack: ScopeStack, errors: seq<LiveError>)

  /** `as u16`: the source stores scope and class child counts in 16 bits. */
  function U16(n: nat): nat
  {
    n % 0x1_0000
  }

  /**
   * No level of the output gets shorter, every node keeps its token and id (only
   * values are rewritten in place), and every table only grows.
   */
  ghost predicate Grows(a: LiveDocument, b: LiveDocument)
  {
    && |a.nodes| <= |b.nodes|
    && (forall l: nat :: GetLevelLen(a, l) <= GetLevelLen(b, l) && Heads(Level(a, l)) <= Heads(Level(b, l)))
    && a.strings <= b.strings && a.tokens <= b.tokens
    && a.scopes <= b.scopes && a.multiIds <= b.multiIds
    && a.recompile == b.recompile
  }

  /** Frames are never dropped below the old depth, and old frames only gain bindings. */
  ghost predicate StackExtends(a: ScopeStack, b: ScopeStack)
  {
    |a| <= |b| && forall i :: 0 <= i < |a| ==> a[i] <= b[i]
  }

  /**
   * Errors are only appended, and none of the appended ones is "cannot find
   * dependency", which only the registry's own pass records.
   */
  ghost predicate WalkErrors(a: seq<LiveError>, b: seq<LiveError>)
  {
    a <= b && forall k :: |a| <= k < |b| ==> b[k].kind != CannotFindDependency
  }

  /** What every step of the walk keeps: errors are only appended, nothing shrinks. */
  ghost predicate Progress(a: Expansion, b: Expansion)
  {
    WalkErrors(a.errors, b.errors) && StackExtends(a.stack, b.stack) && Grows(a.out, b.out)
  }

  lemma ProgressTrans(a: Expansion, b: Expansion, c: Expansion)
    requires Progress(a, b) && Progress(b, c)
    ensures Progress(a, c)
  {
    forall l: nat ensures GetLevelLen(a.out, l) <= GetLevelLen(c.out, l) && Heads(Level(a.out, l)) <= Heads(Level(c.out, l)) {
      assert GetLevelLen(a.out, l) <= GetLevelLen(b.out, l) && Heads(Level(a.out, l)) <= Heads(Level(b.out, l));
    }
    forall i | 0 <= i < |a.stack| ensures a.stack[i] <= c.stack[i] {
      assert a.stack[i] <= b.stack[i];
    }
    forall k | |a.errors| <= k < |c.errors| ensures c.errors[k].kind != CannotFindDependency {
      if k < |b.errors| {
        assert c.errors[k] == b.errors[k];
      }
    }
  }

  lemma ExtendsGrows(a: LiveDocument, b: LiveDocument)
    requires Extends(a, b)
    ensures Grows(a, b)
  {
    forall l: nat ensures GetLevelLen(a, l) <= GetLevelLen(b, l) && Heads(Level(a, l)) <= Heads(Level(b, l)) {
      assert Level(a, l) <= Level(b, l);
      HeadsPrefix(Level(a, l), Level(b, l));
    }
  }

  /** The levels above `level` (nearer the top) are exactly as they were. */
  ghost predicate Below(a: LiveDocument, b: LiveDocument, level: nat)
  {
    forall l: nat :: l < level ==> Level(b, l) == Level(a, l)
  }

  /**
   * Where a window of a level that only grew is concerned: the tokens and ids of
   * `[start, start + |heads|)` survive.
   */
  lemma HeadsWindow(a: seq<LiveNode>, b: seq<LiveNode>, start: nat, heads: seq<(TokenId, IdPack)>)
    requires Heads(a) <= Heads(b) && start <= |a| && Heads(a[start..]) == heads
    ensures start + |heads| <= |b| && Heads(b[start..start + |heads|]) == heads
  {
    assert |Heads(a)| == |a| && |Heads(b)| == |b|;
    forall k | 0 <= k < |heads| ensures Heads(b[start..start + |heads|])[k] == heads[k] {
      assert Heads(a[start..])[k] == Heads(a)[start + k];
      assert Heads(b[start..start + |heads|])[k] == Heads(b)[start + k];
    }
  }

  // ---------------------------------------------------------------------------
  // Writing a node (`write_or_add_node` of the walker)
  // ---------------------------------------------------------------------------

  /**
   * The index at which `write_or_add_node` leaves the node: the matching entry it
   * overwrote, or the appended one.
   */
  function WrittenIndex(doc: LiveDocument, level: nat, start: nat, count: nat, node: LiveNode): (w: nat)
    ensures var after := WriteOrAddNode(doc, level, start, count, node).0;
      && w < GetLevelLen(after, level)
      && Level(after, level)[w].id == node.id
      && Level(after, level)[w].value == node.value
  {
    match FindInSpan(Level(doc, level), start, count, node.id)
    case Some(i) => i
    case None => GetLevelLen(doc, level)
  }

  /**
   * The index the IdRef and Call arms read the written node back from: the
   * level's length taken before the write.
   */
  function SourceOutIndex(doc: LiveDocument, level: nat): (i: nat)
    ensures NodeAt(doc, LocalPtr(level, i)).None?
    ensures forall j: nat :: j < i ==> NodeAt(doc, LocalPtr(level, j)).Some?
  {
    GetLevelLen(doc, level)
  }

  /** When the write appends, the index taken before it is where the node lands. */
  lemma AppendAtSourceOutIndex(doc: LiveDocument, level: nat, start: nat, count: nat, node: LiveNode)
    requires Appends(doc, level, start, count, node.id)
    ensures WrittenIndex(doc, level, start, count, node) == SourceOutIndex(doc, level)
    ensures NodeAt(WriteOrAddNode(doc, level, start, count, node).0, LocalPtr(level, SourceOutIndex(doc, level))) == Some(node)
  {
  }

  /** A write reads only the level it writes: two documents that agree there agree after it. */
  lemma WriteSameLevel(a: LiveDocument, b: LiveDocument, level: nat, start: nat, count: nat, node: LiveNode)
    requires Level(a, level) == Level(b, level)
    ensures WrittenIndex(a, level, start, count, node) == WrittenIndex(b, level, start, count, node)
    ensures Level(WriteOrAddNode(a, level, start, count, node).0, level) == Level(WriteOrAddNode(b, level, start, count, node).0, level)
    ensures Appends(a, level, start, count, node.id) == Appends(b, level, start, count, node.id)
  {
  }

  /** Writing a node and then rewriting the written value is writing the node with that value. */
  lemma WriteThenSet(doc: LiveDocument, level: nat, start: nat, count: nat, node: LiveNode, v: LiveValue)
    ensures var w := WrittenIndex(doc, level, start, count, node);
      var lvl := Level(WriteOrAddNode(doc, level, start, count, node).0, level);
      && WrittenIndex(doc, level, start, count, node.(value := v)) == w
      && lvl[w := lvl[w].(value := v)] == Level(WriteOrAddNode(doc, level, start, count, node.(value := v)).0, level)
  {
  }

  /**
   * When the written node overrides an inherited field, the write appends nothing
   * and the index taken before it lies past the end of the level: the source's
   * read-back panics there, where the node really is at `WrittenIndex`.
   */
  lemma OverrideOutIndexOutOfRange(doc: LiveDocument, level: nat, start: nat, count: nat, node: LiveNode)
    requires FindInSpan(Level(doc, level), start, count, node.id).Some?
    ensures SourceOutIndex(doc, level) >= GetLevelLen(WriteOrAddNode(doc, level, start, count, node).0, level)
    ensures WrittenIndex(doc, level, start, count, node) < SourceOutIndex(doc, level)
  {
  }

  /** A concrete instance: overriding the inherited field `x` (id 10) with a reference. */
  lemma OverrideOutIndexExample()
    ensures var field := LiveNode(TokenId(0, 0), Single(10), Int(1));
      var doc := LiveDocument(false, [[field]], [], [], [], []);
      var node := LiveNode(TokenId(0, 1), Single(10), IdRef(Single(11)));
      && FindInSpan(Level(doc, 0), 0, 1, node.id) == Some(0)
      && SourceOutIndex(doc, 0) == 1
      && GetLevelLen(WriteOrAddNode(doc, 0, 0, 1, node).0, 0) == 1
  {
    var field := LiveNode(TokenId(0, 0), Single(10), Int(1));
    var doc := LiveDocument(false, [[field]], [], [], [], []);
    var node := LiveNode(TokenId(0, 1), Single(10), IdRef(Single(11)));
    assert Level(doc, 0) == [field];
    assert IdMatches(Level(doc, 0)[0].id, node.id);
  }

  /** Does the write append (no entry in the span carries the node's id)? */
  predicate Appends(doc: LiveDocument, level: nat, start: nat, count: nat, id: IdPack)
  {
    FindInSpan(Level(doc, level), start, count, id).None?
  }

  /** Does the write register a scope binding (appended, on the innermost frame's level, with a plain id)? */
  predicate Registers(ctx: Expansion, level: nat, start: nat, count: nat, node: LiveNode)
  {
    Appends(ctx.out, level, start, count, node.id) && ctx.stack != [] && level == |ctx.stack| - 1 && node.id.Single?
  }

  datatype Written = Written(ctx: Expansion, index: nat)

  /**
   * The walker's `write_or_add_node`: writes the node, and when it was appended
   * at the level of the innermost frame under a plain id, binds that id to it.
   * `None`: an append with no frame at all (the source subtracts one from the
   * empty stack's length).
   */
  function Write(ctx: Expansion, level: nat, start: nat, count: nat, node: LiveNode): (r: Option<Written>)
    ensures r.None? <==> Appends(ctx.out, level, start, count, node.id) && ctx.stack == []
    ensures r.Some? ==>
      && r.value.ctx.errors == ctx.errors
      && r.value.ctx.out == WriteOrAddNode(ctx.out, level, start, count, node).0
      && r.value.index == WrittenIndex(ctx.out, level, start, count, node)
      && Progress(ctx, r.value.ctx)
    ensures r.Some? && Registers(ctx, level, start, count, node) ==>
      && |r.value.ctx.stack| == |ctx.stack|
      && r.value.ctx.stack[..level] == ctx.stack[..level]
      && r.value.ctx.stack[level] == ctx.stack[level] + [ScopeItem(node.id.id, Local(LocalPtr(level, r.value.index)))]
      && FindItemSpec(r.value.ctx.stack, node.id.id) == Some(Local(LocalPtr(level, r.value.index)))
    ensures r.Some? && !Registers(ctx, level, start, count, node) ==> r.value.ctx.stack == ctx.stack
  {
    var (doc, idx) := WriteOrAddNode(ctx.out, level, start, count, node);
    var w := WrittenIndex(ctx.out, level, start, count, node);
    if idx.Some? && ctx.stack == [] then None
    else if Registers(ctx, level, start, count, node) then
      var item := ScopeItem(node.id.id, Local(LocalPtr(level, w)));
      PushShadows(ctx.stack, item);
      Some(Written(Expansion(doc, ctx.stack[level := ctx.stack[level] + [item]], ctx.errors), w))
    else
      Some(Written(Expansion(doc, ctx.stack, ctx.errors), w))
  }

  /**
   * Stores a resolved pointer in the written node: the value of an identifier
   * reference, or the target of a call. Any other node is left as it is.
   */
  function Retarget(doc: LiveDocument, level: nat, index: nat, target: IdPack): (r: LiveDocument)
    ensures |r.nodes| == |doc.nodes| && GetLevelLen(r, level) == GetLevelLen(doc, level)
    ensures forall l :: l != level ==> Level(r, l) == Level(doc, l)
    ensures r == doc.(nodes := r.nodes)
    ensures index < GetLevelLen(doc, level) ==>
      var n := Level(doc, level)[index];
      && Level(r, level) == Level(doc, level)[index := Level(r, level)[index]]
      && Level(r, level)[index] == match n.value
         case IdRef(_) => n.(value := IdRef(target))
         case Call(_, s, c) => n.(value := Call(target, s, c))
         case _ => n
    ensures Grows(doc, r)
  {
    if index < GetLevelLen(doc, level) then
      var n := Level(doc, level)[index];
      match n.value
      case IdRef(_) =>
        HeadsSetValue(Level(doc, level), index, IdRef(target));
        doc.(nodes := doc.nodes[level := doc.nodes[level][index := n.(value := IdRef(target))]])
      case Call(_, s, c) =>
        HeadsSetValue(Level(doc, level), index, Call(target, s, c));
        doc.(nodes := doc.nodes[level := doc.nodes[level][index := n.(value := Call(target, s, c))]])
      case _ => doc
    else doc
  }

  /** Is the identifier one the walker tries to resolve? */
  predicate Resolvable(id: IdPack)
  {
    id != SELF_PACK && !IsBaseclass(id)
  }

  /** The pointer stored for a resolution: a local hit points into the file being expanded. */
  function PointerTo(env: Env, r: Resolution): IdPack
    requires r.Found?
  {
    NodePtr(if r.file.Some? then r.file.value else env.inFile, r.ptr)
  }

  /** The node a resolution points at. */
  function TargetNode(env: Env, out: LiveDocument, r: Resolution): Option<LiveNode>
    requires r.Found?
  {
    match TargetDoc(r.file, env.expanded, out)
    case None => None
    case Some(doc) => NodeAt(doc, r.ptr)
  }

  // ---------------------------------------------------------------------------
  // The leaf arms
  // ---------------------------------------------------------------------------

  /**
   * The resolve half of the identifier-reference arm, run on the state the write
   * left (`w` is where the node was written): a resolvable id gets resolved and
   * the written node receives the pointer, or the resolution error is recorded
   * and the node keeps its unresolved reference. A panic gives `None`.
   */
  function ResolveRef(env: Env, c1: Expansion, w: nat, outLevel: nat, outStart: nat, node: LiveNode): (r: Option<Expansion>)
    requires node.value.IdRef?
    requires w < GetLevelLen(c1.out, outLevel) && Level(c1.out, outLevel)[w].value == node.value
    ensures r.Some? ==> Progress(c1, r.value) && r.value.stack == c1.stack
    ensures !Resolvable(node.value.ref) ==> r == Some(c1)
    ensures Resolvable(node.value.ref) ==>
      var res := ResolveId(node.value.ref, env.expanded, c1.stack, env.inDoc, c1.out, outLevel, outStart);
      && (r.None? <==> res.Panic?)
      && (res.Failed? ==> r == Some(c1.(errors := c1.errors + [LiveError(res.kind, node.token)])))
      && (res.Found? ==>
            && r.value.errors == c1.errors
            && (forall l: nat :: l != outLevel ==> Level(r.value.out, l) == Level(c1.out, l))
            && Level(r.value.out, outLevel)
               == Level(c1.out, outLevel)[w := Level(c1.out, outLevel)[w].(value := IdRef(PointerTo(env, res)))])
  {
    var v := node.value.ref;
    if !Resolvable(v) then Some(c1)
    else
      var res := ResolveId(v, env.expanded, c1.stack, env.inDoc, c1.out, outLevel, outStart);
      if res.Panic? then None
      else if res.Failed? then Some(c1.(errors := c1.errors + [LiveError(res.kind, node.token)]))
      else Some(c1.(out := Retarget(c1.out, outLevel, w, PointerTo(env, res))))
  }

  /**
   * A plain reference ends as a pointer to the binding that shadows all others
   * (the innermost frame's latest binding of that id) when some frame binds it,
   * and records "cannot find item on scope" otherwise.
   */
  lemma RefPointsAtVisibleBinding(env: Env, c1: Expansion, w: nat, outLevel: nat, outStart: nat, node: LiveNode)
    requires node.value.IdRef? && node.value.ref.Single? && Resolvable(node.value.ref)
    requires w < GetLevelLen(c1.out, outLevel) && Level(c1.out, outLevel)[w].value == node.value
    ensures var r := ResolveRef(env, c1, w, outLevel, outStart, node);
      && r.Some?
      && (!Binds(c1.stack, node.value.ref.id) ==>
            r.value == c1.(errors := c1.errors + [LiveError(CannotFindItemOnScope, node.token)]))
      && (Binds(c1.stack, node.value.ref.id) ==>
            exists f: nat, j: nat ::
              && IsVisibleBinding(c1.stack, node.value.ref.id, f, j)
              && Level(r.value.out, outLevel)[w].value ==
                 IdRef(match c1.stack[f][j].target
                       case Local(p) => NodePtr(env.inFile, p)
                       case Full(fp) => NodePtr(fp.file, fp.local)))
  {
    ResolveSingleMeaning(node.value.ref.id, env.expanded, c1.stack, env.inDoc, c1.out, outLevel, outStart);
  }

  /**
   * The resolve half of the call arm, run on the state after the call node was
   * written at `w`: a resolvable target must resolve to a call ("Target not a
   * call" is recorded otherwise, and the node keeps its unresolved target);
   * the written node then points at it.
   */
  function ResolveCall(env: Env, c1: Expansion, w: nat, outLevel: nat, outStart: nat, newNode: LiveNode): (r: Option<Expansion>)
    requires newNode.value.Call?
    requires w < GetLevelLen(c1.out, outLevel) && Level(c1.out, outLevel)[w].value == newNode.value
    ensures r.Some? ==> Progress(c1, r.value) && r.value.stack == c1.stack
    ensures r.Some? ==> forall l: nat :: l != outLevel ==> Level(r.value.out, l) == Level(c1.out, l)
    ensures !Resolvable(newNode.value.target) ==> r == Some(c1)
    ensures Resolvable(newNode.value.target) ==>
      var res := ResolveId(newNode.value.target, env.expanded, c1.stack, env.inDoc, c1.out, outLevel, outStart);
      && (r.None? <==> res.Panic? || (res.Found? && TargetNode(env, c1.out, res).None?))
      && (res.Failed? ==> r == Some(c1.(errors := c1.errors + [LiveError(res.kind, newNode.token)])))
      && (res.Found? && r.Some? && !TargetNode(env, c1.out, res).value.value.Call? ==>
            r == Some(c1.(errors := c1.errors + [LiveError(TargetNotACall, newNode.token)])))
      && (res.Found? && r.Some? && TargetNode(env, c1.out, res).value.value.Call? ==>
            && r.value.errors == c1.errors
            && (forall l: nat :: l != outLevel ==> Level(r.value.out, l) == Level(c1.out, l))
            && Level(r.value.out, outLevel)
               == Level(c1.out, outLevel)[w := Level(c1.out, outLevel)[w].(value :=
                    Call(PointerTo(env, res), newNode.value.nodeStart, newNode.value.nodeCount))])
  {
    var t := newNode.value.target;
    if !Resolvable(t) then Some(c1)
    else
      var res := ResolveId(t, env.expanded, c1.stack, env.inDoc, c1.out, outLevel, outStart);
      if res.Panic? then None
      else if res.Failed? then Some(c1.(errors := c1.errors + [LiveError(res.kind, newNode.token)]))
      else CallToTarget(env, c1, w, outLevel, newNode, res)
  }

  /** The call arm once its target resolved: the node it points at must be a call. */
  function CallToTarget(env: Env, c1: Expansion, w: nat, outLevel: nat, newNode: LiveNode, res: Resolution): (r: Option<Expansion>)
    requires newNode.value.Call? && res.Found?
    requires w < GetLevelLen(c1.out, outLevel) && Level(c1.out, outLevel)[w].value == newNode.value
    ensures r.Some? ==> Progress(c1, r.value) && r.value.stack == c1.stack
    ensures r.Some? ==> forall l: nat :: l != outLevel ==> Level(r.value.out, l) == Level(c1.out, l)
    ensures r.None? <==> TargetNode(env, c1.out, res).None?
    ensures r.Some? && !TargetNode(env, c1.out, res).value.value.Call? ==>
      r == Some(c1.(errors := c1.errors + [LiveError(TargetNotACall, newNode.token)]))
    ensures r.Some? && TargetNode(env, c1.out, res).value.value.Call? ==>
      && r.value.errors == c1.errors
      && (forall l: nat :: l != outLevel ==> Level(r.value.out, l) == Level(c1.out, l))
      && Level(r.value.out, outLevel)
         == Level(c1.out, outLevel)[w := Level(c1.out, outLevel)[w].(value :=
              Call(PointerTo(env, res), newNode.value.nodeStart, newNode.value.nodeCount))]
  {
    var target := TargetNode(env, c1.out, res);
    if target.None? then None
    else if !target.value.value.Call? then
      Some(c1.(errors := c1.errors + [LiveError(TargetNotACall, newNode.token)]))
    else Some(c1.(out := Retarget(c1.out, outLevel, w, PointerTo(env, res))))
  }

  // ---------------------------------------------------------------------------
  // Function bodies: capturing the scope
  // ---------------------------------------------------------------------------

  /** All bindings of the stack, outermost frame first, each frame in order. */
  function Flatten(stack: ScopeStack): seq<ScopeItem>
  {
    if stack == [] then [] else Flatten(stack[..|stack| - 1]) + stack[|stack| - 1]
  }

  /** The captured run holds exactly the bindings of the stack. */
  lemma {:induction false} FlattenHoldsEveryBinding(stack: ScopeStack)
    ensures forall f, j :: 0 <= f < |stack| && 0 <= j < |stack[f]| ==> stack[f][j] in Flatten(stack)
    ensures forall x :: x in Flatten(stack) ==> exists f, j :: 0 <= f < |stack| && 0 <= j < |stack[f]| && stack[f][j] == x
    decreases |stack|
  {
    if stack != [] {
      var inner := stack[..|stack| - 1];
      FlattenHoldsEveryBinding(inner);
      forall f, j | 0 <= f < |stack| && 0 <= j < |stack[f]| ensures stack[f][j] in Flatten(stack) {
        if f < |stack| - 1 {
          assert inner[f][j] == stack[f][j];
        }
      }
      forall x | x in Flatten(stack)
        ensures exists f, j :: 0 <= f < |stack| && 0 <= j < |stack[f]| && stack[f][j] == x
      {
        if x in Flatten(inner) {
          var f, j :| 0 <= f < |inner| && 0 <= j < |inner[f]| && inner[f][j] == x;
          assert stack[f][j] == x;
        } else {
          var j :| 0 <= j < |stack[|stack| - 1]| && stack[|stack| - 1][j] == x;
        }
      }
    }
  }

  /**
   * The capture loop of the function and variable arms: every binding of every
   * frame is appended to the output's scope table, outermost frame first.
   */
  method CaptureScope(out: LiveDocument, stack: ScopeStack) returns (out': LiveDocument)
    ensures out' == out.(scopes := out.scopes + Flatten(stack))
  {
    out' := out;
    var i := 0;
    while i < |stack|
      invariant 0 <= i <= |stack|
      invariant out' == out.(scopes := out.scopes + Flatten(stack[..i]))
    {
      var frame := stack[i];
      var j := 0;
      while j < |frame|
        invariant 0 <= j <= |frame|
        invariant out' == out.(scopes := out.scopes + Flatten(stack[..i]) + frame[..j])
      {
        out' := out'.(scopes := out'.scopes + [frame[j]]);
        assert frame[..j + 1] == frame[..j] + [frame[j]];
        j := j + 1;
      }
      assert frame[..j] == frame;
      assert stack[..i + 1][..i] == stack[..i];
      i := i + 1;
    }
    assert stack[..i] == stack;
  }

  /**
   * The function and variable arms: the whole scope stack is captured, and the
   * node is written with the run it captured (its count stored in 16 bits).
   */
  method WalkBody(env: Env, ctx: Expansion, outLevel: nat, outStart: nat, outCount: nat, node: LiveNode)
    returns (ctx': Expansion, ok: bool)
    requires node.value.Fn? || node.value.VarDef?
    ensures ok ==> Progress(ctx, ctx')
    ensures ok ==> ctx'.out.scopes == ctx.out.scopes + Flatten(ctx.stack)
    ensures ok ==> ctx'.errors == ctx.errors
    ensures ok ==> forall l: nat :: l != outLevel ==> Level(ctx'.out, l) == Level(ctx.out, l)
    ensures ok ==>
      Level(ctx'.out, outLevel)
      == Level(WriteOrAddNode(ctx.out, outLevel, outStart, outCount, node.(value := BodyValue(ctx, node.value))).0, outLevel)
    ensures ok <==> !(Appends(ctx.out, outLevel, outStart, outCount, node.id) && ctx.stack == [])
    ensures ok ==>
      ctx' == Write(ctx.(out := ctx.out.(scopes := ctx.out.scopes + Flatten(ctx.stack))),
                    outLevel, outStart, outCount, node.(value := BodyValue(ctx, node.value))).value.ctx
    ensures !ok ==> ctx' == ctx
  {
    var newStart := |ctx.out.scopes|;
    var out1 := CaptureScope(ctx.out, ctx.stack);
    var count := U16(|out1.scopes| - newStart);
    var v := node.value;
    var value := if v.Fn? then Fn(v.tokenStart, v.tokenCount, newStart, count)
                 else VarDef(v.tokenStart, v.tokenCount, newStart, count);
    var c1 := ctx.(out := out1);
    assert Progress(ctx, c1);
    WriteSameLevel(out1, ctx.out, outLevel, outStart, outCount, LiveNode(node.token, node.id, value));
    match Write(c1, outLevel, outStart, outCount, LiveNode(node.token, node.id, value)) {
      case None =>
        return ctx, false;
      case Some(wr) =>
        ProgressTrans(ctx, c1, wr.ctx);
        return wr.ctx, true;
    }
  }

  /**
   * The value a function or variable is written with: its own tokens, and the
   * captured run that starts at the end of the scope table and holds one entry
   * per binding on the stack (the count kept in 16 bits).
   */
  function BodyValue(ctx: Expansion, v: LiveValue): LiveValue
    requires v.Fn? || v.VarDef?
  {
    var count := U16(|Flatten(ctx.stack)|);
    if v.Fn? then Fn(v.tokenStart, v.tokenCount, |ctx.out.scopes|, count)
    else VarDef(v.tokenStart, v.tokenCount, |ctx.out.scopes|, count)
  }

  // ---------------------------------------------------------------------------
  // Imports
  // ---------------------------------------------------------------------------

  /** Appends bindings to one frame; nothing happens when there are none. */
  function AddItems(stack: ScopeStack, level: nat, items: seq<ScopeItem>): ScopeStack
    requires items == [] || level < |stack|
  {
    if items == [] then stack else stack[level := stack[level] + items]
  }

  /** Adding one more item to the frame at `level` is adding it after the ones added before. */
  lemma AddItemsStep(stack: ScopeStack, st: ScopeStack, level: nat, before: seq<ScopeItem>, item: ScopeItem)
    requires level < |stack| && st == AddItems(stack, level, before)
    ensures st[level := st[level] + [item]] == AddItems(stack, level, before + [item])
  {
    assert before + [item] != [];
    if before == [] {
      assert st[level] + [item] == stack[level] + (before + [item]);
    } else {
      assert st[level] == stack[level] + before;
      assert st[level] + [item] == stack[level] + (before + [item]);
      assert st[level := st[level] + [item]] == stack[level := stack[level] + (before + [item])];
    }
  }

  /**
   * The bindings a wildcard import makes: every top-level node of the imported
   * document that has a plain id, in order, as a full pointer into that file.
   */
  function WildcardItems(nodes: seq<LiveNode>, file: FileId, n: nat): (r: seq<ScopeItem>)
    requires n <= |nodes|
    ensures forall i :: 0 <= i < n && nodes[i].id.Single? ==>
      ScopeItem(nodes[i].id.id, Full(FullPtr(file, LocalPtr(0, i)))) in r
    ensures forall x :: x in r ==> exists i :: 0 <= i < n && nodes[i].id == Single(x.id)
                                               && x.target == Full(FullPtr(file, LocalPtr(0, i)))
  {
    if n == 0 then []
    else
      WildcardItems(nodes, file, n - 1)
      + (if nodes[n - 1].id.Single? then [ScopeItem(nodes[n - 1].id.id, Full(FullPtr(file, LocalPtr(0, n - 1))))] else [])
  }

  /** A binding a path import may make: the last segment, at its node on the path's last level. */
  ghost predicate PathBinding(item: ScopeItem, other: LiveDocument, file: FileId, lastId: Id, lastLevel: nat)
  {
    && item.id == lastId
    && item.target.Full? && item.target.fptr.file == file && item.target.fptr.local.level == lastLevel
    && NodeAt(other, item.target.fptr.local).Some?
    && NodeAt(other, item.target.fptr.local).value.id == Single(lastId)
  }

  /** The stack only gained bindings on frame `level`, each satisfying `ok`. */
  ghost predicate AddedOnly(old_: ScopeStack, new_: ScopeStack, level: nat, other: LiveDocument, file: FileId, lastId: Id, lastLevel: nat)
  {
    && |new_| == |old_|
    && (forall k :: 0 <= k < |old_| && k != level ==> new_[k] == old_[k])
    && (level < |old_| ==>
          && old_[level] <= new_[level]
          && forall k :: |old_[level]| <= k < |new_[level]| ==> PathBinding(new_[level][k], other, file, lastId, lastLevel))
  }

  /** Every error appended after `n` reports a use path that was not found. */
  ghost predicate OnlyPathErrors(old_: seq<LiveError>, new_: seq<LiveError>, token: TokenId)
  {
    old_ <= new_ && forall k :: |old_| <= k < |new_| ==> new_[k] == LiveError(UsePathNotFound, token)
  }

  /**
   * What following a path import through the imported document comes to: a
   * panic, or the index on the last level that gets bound (if any) and how many
   * "use path not found" errors are recorded. `path` holds the segments still to
   * follow, from `level` on, in the span `[nodeStart, nodeStart + nodeCount)`.
   * At each level the first node carrying the segment is taken: on the last
   * level it is bound; above it, a class moves the span to its children and
   * anything else is a miss. A segment no node carries is a miss too, and the
   * span stays as it was; a span running past the level's end panics unless a
   * match comes first. An empty segment ends the path when it is the last one
   * and panics otherwise.
   */
  datatype UseOutcome = UsePanic | UseDone(bound: Option<nat>, misses: nat)

  function UseScan(other: LiveDocument, path: seq<Id>, level: nat, nodeStart: nat, nodeCount: nat): (r: UseOutcome)
    decreases |path|
    ensures r.UseDone? && r.bound.Some? ==>
      && |path| > 0 && path[|path| - 1] != EMPTY_ID
      && NodeAt(other, LocalPtr(level + |path| - 1, r.bound.value)).Some?
      && NodeAt(other, LocalPtr(level + |path| - 1, r.bound.value)).value.id == Single(path[|path| - 1])
    ensures r.UseDone? ==> r.misses <= |path|
    ensures (r.UseDone? && |path| > 0 && path[0] != EMPTY_ID
             && FindInSpan(Level(other, level), nodeStart, nodeCount, Single(path[0])).None?) ==> r.misses > 0
  {
    if path == [] then UseDone(None, 0)
    else if path[0] == EMPTY_ID then (if |path| == 1 then UseDone(None, 0) else UsePanic)
    else
      match FindInSpan(Level(other, level), nodeStart, nodeCount, Single(path[0]))
      case None =>
        if nodeCount > 0 && nodeStart + nodeCount > GetLevelLen(other, level) then UsePanic
        else Missed(UseScan(other, path[1..], level + 1, nodeStart, nodeCount))
      case Some(k) =>
        if |path| == 1 then UseDone(Some(k), 0)
        else
          var n := Level(other, level)[k];
          if n.value.Class? then UseScan(other, path[1..], level + 1, n.value.nodeStart, n.value.nodeCount)
          else Missed(UseScan(other, path[1..], level + 1, nodeStart, nodeCount))
  }

  /** One more miss before the rest of the path. */
  function Missed(rest: UseOutcome): UseOutcome
  {
    if rest.UsePanic? then UsePanic else UseDone(rest.bound, rest.misses + 1)
  }

  /** The outcome of a path whose first segments already gave `misses` misses and `bound`. */
  function After(misses: nat, bound: Option<nat>, rest: UseOutcome): UseOutcome
  {
    if rest.UsePanic? then UsePanic
    else UseDone(if bound.Some? then bound else rest.bound, misses + rest.misses)
  }

  /** The errors a path import records: one "use path not found" per miss. */
  function MissErrors(misses: nat, token: TokenId): seq<LiveError>
  {
    seq(misses, _ => LiveError(UsePathNotFound, token))
  }

  /** The stack after a path import bound the node at `bound` (if any) on frame `outLevel`. */
  function BindLast(stack: ScopeStack, outLevel: nat, lastId: Id, file: FileId, lastLevel: nat, bound: Option<nat>): ScopeStack
    requires bound.None? || outLevel < |stack|
  {
    if bound.None? then stack
    else stack[outLevel := stack[outLevel] + [ScopeItem(lastId, Full(FullPtr(file, LocalPtr(lastLevel, bound.value))))]]
  }

  /**
   * A path whose segments are all named and that `ScanPath` follows to the end
   * (the lookup `find_full_node_ptr_from_ids` uses) is followed the same way by a
   * path import: the node found is bound and nothing is missed.
   */
  lemma {:induction false} UseScanFollowsScanPath(other: LiveDocument, path: seq<Id>, level: nat, nodeStart: nat, nodeCount: nat)
    requires forall k :: 0 <= k < |path| ==> path[k] != EMPTY_ID
    requires ScanPath(other, level, nodeStart, nodeCount, path).Ok?
    ensures UseScan(other, path, level, nodeStart, nodeCount) == UseDone(Some(ScanPath(other, level, nodeStart, nodeCount, path).value.index), 0)
    decreases |path|
  {
    var i := FindInSpan(Level(other, level), nodeStart, nodeCount, Single(path[0]));
    if |path| > 1 {
      var n := Level(other, level)[i.value];
      assert forall k :: 0 <= k < |path[1..]| ==> path[1..][k] == path[k + 1];
      UseScanFollowsScanPath(other, path[1..], level + 1, n.value.nodeStart, n.value.nodeCount);
    }
  }

  /**
   * The search loop of the path-import arm: the first node of the span carrying
   * `want`, or none; walking past the end of the level before a match is a
   * panic of the source (`found` false).
   */
  method FirstInSpan(lvl: seq<LiveNode>, start: nat, count: nat, want: IdPack) returns (hit: Option<nat>, found: bool)
    requires want != Empty
    ensures found ==> hit == FindInSpan(lvl, start, count, want)
    ensures !found <==> FindInSpan(lvl, start, count, want).None? && count > 0 && start + count > |lvl|
  {
    var i := 0;
    while i < count
      invariant 0 <= i <= count
      invariant i > 0 ==> start + i <= |lvl|
      invariant forall j :: start <= j < start + i ==> j < |lvl| && !IdMatches(lvl[j].id, want)
    {
      if i + start >= |lvl| {
        assert FindInSpan(lvl, start, count, want).None?;
        return None, false;
      }
      if want == lvl[i + start].id {
        return Some(i + start), true;
      }
      i := i + 1;
    }
    return None, true;
  }

  /**
   * The path-import arm (`use m::a::b`): the path is followed level by level
   * through nested classes of the imported document, binding the last segment
   * where it is found, exactly as `UseScan` describes; the source panics when the
   * imported document has no levels, when the path runs past the multi-id table
   * and when the frame to bind in does not exist.
   */
  method UsePath(env: Env, ctx: Expansion, outLevel: nat, node: LiveNode, other: LiveDocument, file: FileId)
    returns (ctx': Expansion, ok: bool)
    requires node.id.Multi?
    ensures |other.nodes| == 0 ==> !ok
    ensures |other.nodes| > 0 && node.id.count == 0 ==> ok
    ensures node.id.count > 0 && node.id.start + node.id.count > |env.inDoc.multiIds| ==> !ok
    ensures |other.nodes| > 0 && node.id.count > 0 && node.id.start + node.id.count <= |env.inDoc.multiIds| ==>
      var o := UseScan(other, env.inDoc.multiIds[node.id.start..node.id.start + node.id.count], 0, 0, GetLevelLen(other, 0));
      ok <==> o.UseDone? && (o.bound.Some? ==> outLevel < |ctx.stack|)
    ensures ok && node.id.count > 0 ==>
      var ids := env.inDoc.multiIds[node.id.start..node.id.start + node.id.count];
      var o := UseScan(other, ids, 0, 0, GetLevelLen(other, 0));
      ctx' == ctx.(stack := BindLast(ctx.stack, outLevel, ids[|ids| - 1], file, |ids| - 1, o.bound),
                   errors := ctx.errors + MissErrors(o.misses, node.token))
    ensures ok ==> ctx'.out == ctx.out
    ensures ok && node.id.count > 0 ==>
      var lastId := env.inDoc.multiIds[node.id.start + node.id.count - 1];
      && AddedOnly(ctx.stack, ctx'.stack, outLevel, other, file, lastId, node.id.count - 1)
      && OnlyPathErrors(ctx.errors, ctx'.errors, node.token)
    ensures ok && node.id.count == 0 ==> ctx' == ctx
    ensures !ok ==> ctx' == ctx
  {
    var index, count := node.id.start, node.id.count;
    if |other.nodes| == 0 {
      return ctx, false;
    }
    if count == 0 {
      return ctx, true;
    }
    if index + count > |env.inDoc.multiIds| {
      // the walk below reads every segment, so it runs past the table before it ends
      return ctx, false;
    }
    ctx', ok := UsePathRun(env, ctx, outLevel, node, other, file);
  }

  /** A path import whose segments all lie in the multi-id table, on a document with levels. */
  method UsePathRun(env: Env, ctx: Expansion, outLevel: nat, node: LiveNode, other: LiveDocument, file: FileId)
    returns (ctx': Expansion, ok: bool)
    requires node.id.Multi? && node.id.count > 0 && node.id.start + node.id.count <= |env.inDoc.multiIds|
    requires |other.nodes| > 0
    ensures
      var o := UseScan(other, env.inDoc.multiIds[node.id.start..node.id.start + node.id.count], 0, 0, GetLevelLen(other, 0));
      ok <==> o.UseDone? && (o.bound.Some? ==> outLevel < |ctx.stack|)
    ensures ok ==>
      var ids := env.inDoc.multiIds[node.id.start..node.id.start + node.id.count];
      var o := UseScan(other, ids, 0, 0, GetLevelLen(other, 0));
      ctx' == ctx.(stack := BindLast(ctx.stack, outLevel, ids[|ids| - 1], file, |ids| - 1, o.bound),
                   errors := ctx.errors + MissErrors(o.misses, node.token))
    ensures ok ==>
      var lastId := env.inDoc.multiIds[node.id.start + node.id.count - 1];
      && AddedOnly(ctx.stack, ctx'.stack, outLevel, other, file, lastId, node.id.count - 1)
      && OnlyPathErrors(ctx.errors, ctx'.errors, node.token)
    ensures !ok ==> ctx' == ctx
  {
    var ids := env.inDoc.multiIds[node.id.start..node.id.start + node.id.count];
    assert ids[|ids| - 1] == env.inDoc.multiIds[node.id.start + node.id.count - 1];
    ctx', ok := UseLevels(ctx, outLevel, other, file, ids, node.token);
  }

  /**
   * The level-by-level walk of a path import over the segments `ids`: the span
   * starts as the whole top level, and each segment is looked up in it.
   */
  method UseLevels(ctx: Expansion, outLevel: nat, other: LiveDocument, file: FileId, ids: seq<Id>, token: TokenId)
    returns (ctx': Expansion, ok: bool)
    requires |ids| > 0 && |other.nodes| > 0
    ensures var o := UseScan(other, ids, 0, 0, GetLevelLen(other, 0));
      ok <==> o.UseDone? && (o.bound.Some? ==> outLevel < |ctx.stack|)
    ensures ok ==>
      var o := UseScan(other, ids, 0, 0, GetLevelLen(other, 0));
      ctx' == ctx.(stack := BindLast(ctx.stack, outLevel, ids[|ids| - 1], file, |ids| - 1, o.bound),
                   errors := ctx.errors + MissErrors(o.misses, token))
    ensures ok ==>
      && AddedOnly(ctx.stack, ctx'.stack, outLevel, other, file, ids[|ids| - 1], |ids| - 1)
      && OnlyPathErrors(ctx.errors, ctx'.errors, token)
    ensures !ok ==> ctx' == ctx
  {
    var count := |ids|;
    var going, nodeStart, nodeCount, errors, misses := UseLeading(other, ids, ctx.errors, token);
    if !going {
      return ctx, false;
    }
    ghost var last := UseScan(other, [ids[count - 1]], count - 1, nodeStart, nodeCount);
    AfterLast(UseScan(other, ids, 0, 0, GetLevelLen(other, 0)), misses, last);
    ctx', ok := UseLast(ctx, outLevel, other, file, ids[count - 1], count - 1, nodeStart, nodeCount, errors, token);
    if ok {
      MissErrorsAdd(misses, last.misses, token);
      UsePathAdds(ctx, ctx', outLevel, other, file, ids, UseScan(other, ids, 0, 0, GetLevelLen(other, 0)), token);
    }
  }

  /**
   * Every segment of a path import but the last: each one narrows the span to the
   * children of the class it finds or counts a miss; `going` is false where the
   * source panics.
   */
  method UseLeading(other: LiveDocument, ids: seq<Id>, errors0: seq<LiveError>, token: TokenId)
    returns (going: bool, nodeStart: nat, nodeCount: nat, errors: seq<LiveError>, ghost misses: nat)
    requires |ids| > 0 && |other.nodes| > 0
    ensures !going ==> UseScan(other, ids, 0, 0, GetLevelLen(other, 0)) == UsePanic
    ensures going ==>
      && UseScan(other, ids, 0, 0, GetLevelLen(other, 0))
         == After(misses, None, UseScan(other, [ids[|ids| - 1]], |ids| - 1, nodeStart, nodeCount))
      && errors == errors0 + MissErrors(misses, token)
  {
    var count := |ids|;
    ghost var total := UseScan(other, ids, 0, 0, GetLevelLen(other, 0));
    misses := 0;
    errors := errors0;
    nodeStart := 0;
    nodeCount := |other.nodes[0]|;
    var level := 0;
    assert ids[0..] == ids && nodeCount == GetLevelLen(other, 0);
    assert total == After(0, None, total);
    while level < count - 1
      invariant 0 <= level <= count - 1
      invariant total == After(misses, None, UseScan(other, ids[level..], level, nodeStart, nodeCount))
      invariant errors == errors0 + MissErrors(misses, token)
    {
      assert ids[level..][0] == ids[level] && ids[level..][1..] == ids[level + 1..];
      var missed, nextStart, nextCount;
      going, missed, nextStart, nextCount := UseSegment(other, ids[level..], level, nodeStart, nodeCount);
      if !going {
        return;
      }
      if missed {
        AfterMissed(total, misses, UseScan(other, ids[level + 1..], level + 1, nodeStart, nodeCount));
        assert MissErrors(misses, token) + [LiveError(UsePathNotFound, token)] == MissErrors(misses + 1, token);
        errors := errors + [LiveError(UsePathNotFound, token)];
        misses := misses + 1;
      }
      nodeStart, nodeCount := nextStart, nextCount;
      level := level + 1;
    }
    assert ids[level..] == [ids[count - 1]];
    going := true;
  }

  /** The outcome of the whole path from the misses so far and the outcome of its last segment. */
  lemma AfterLast(total: UseOutcome, misses: nat, last: UseOutcome)
    requires total == After(misses, None, last)
    ensures total.UseDone? <==> last.UseDone?
    ensures total.UseDone? ==> total.bound == last.bound && total.misses == misses + last.misses
  {
  }

  lemma MissErrorsAdd(m: nat, n: nat, token: TokenId)
    ensures MissErrors(m, token) + MissErrors(n, token) == MissErrors(m + n, token)
  {
  }

  /**
   * A segment of a path import before the last: the span narrows to the children
   * of the class found, or the segment is a miss and the span stays; an empty
   * segment, or a span that runs off the level before a match, is a panic of
   * the source (`going` false).
   */
  method UseSegment(other: LiveDocument, rest: seq<Id>, level: nat, nodeStart: nat, nodeCount: nat)
    returns (going: bool, missed: bool, nextStart: nat, nextCount: nat)
    requires |rest| > 1
    ensures !going ==> UseScan(other, rest, level, nodeStart, nodeCount) == UsePanic
    ensures going && missed ==>
      && nextStart == nodeStart && nextCount == nodeCount
      && UseScan(other, rest, level, nodeStart, nodeCount) == Missed(UseScan(other, rest[1..], level + 1, nodeStart, nodeCount))
    ensures going && !missed ==>
      UseScan(other, rest, level, nodeStart, nodeCount) == UseScan(other, rest[1..], level + 1, nextStart, nextCount)
  {
    nextStart, nextCount := nodeStart, nodeCount;
    if rest[0] == EMPTY_ID {
      return false, false, nextStart, nextCount;
    }
    var hit, found := FirstInSpan(Level(other, level), nodeStart, nodeCount, Single(rest[0]));
    if !found {
      return false, false, nextStart, nextCount;
    }
    UseStep(other, rest, level, nodeStart, nodeCount, hit);
    if hit.Some? && Level(other, level)[hit.value].value.Class? {
      var otherNode := Level(other, level)[hit.value];
      return true, false, otherNode.value.nodeStart, otherNode.value.nodeCount;
    }
    return true, true, nextStart, nextCount;
  }

  /**
   * The last segment of a path import, looked up in the span the earlier segments
   * left: the node found is bound in the frame at `outLevel`; an empty segment
   * binds nothing; a segment not found is one more miss.
   */
  method UseLast(ctx: Expansion, outLevel: nat, other: LiveDocument, file: FileId, id: Id, level: nat,
                 nodeStart: nat, nodeCount: nat, errors: seq<LiveError>, token: TokenId)
    returns (ctx': Expansion, ok: bool)
    ensures var o := UseScan(other, [id], level, nodeStart, nodeCount);
      ok <==> o.UseDone? && (o.bound.Some? ==> outLevel < |ctx.stack|)
    ensures ok ==>
      var o := UseScan(other, [id], level, nodeStart, nodeCount);
      ctx' == ctx.(stack := BindLast(ctx.stack, outLevel, id, file, level, o.bound),
                   errors := errors + MissErrors(o.misses, token))
    ensures !ok ==> ctx' == ctx
  {
    if id == EMPTY_ID {
      // the loop over the span only matches on the import's own id, which is a
      // path here, so an empty last segment binds nothing
      return ctx.(errors := errors), true;
    }
    var hit, found := FirstInSpan(Level(other, level), nodeStart, nodeCount, Single(id));
    if !found {
      return ctx, false;
    }
    UseStep(other, [id], level, nodeStart, nodeCount, hit);
    if hit.Some? {
      if outLevel >= |ctx.stack| {
        return ctx, false;
      }
      var item := ScopeItem(id, Full(FullPtr(file, LocalPtr(level, hit.value))));
      return ctx.(stack := ctx.stack[outLevel := ctx.stack[outLevel] + [item]], errors := errors), true;
    }
    assert [id][1..] == [];
    assert MissErrors(1, token) == [LiveError(UsePathNotFound, token)];
    return ctx.(errors := errors + [LiveError(UsePathNotFound, token)]), true;
  }

  /** A missed segment moves one miss from the rest of the path to the misses so far. */
  lemma AfterMissed(total: UseOutcome, misses: nat, rest: UseOutcome)
    requires total == After(misses, None, Missed(rest))
    ensures total == After(misses + 1, None, rest)
  {
  }

  /** One level of `UseScan`, given the first match in the span. */
  lemma UseStep(other: LiveDocument, path: seq<Id>, level: nat, nodeStart: nat, nodeCount: nat, hit: Option<nat>)
    requires |path| > 0 && path[0] != EMPTY_ID
    requires hit == FindInSpan(Level(other, level), nodeStart, nodeCount, Single(path[0]))
    requires !(hit.None? && nodeCount > 0 && nodeStart + nodeCount > GetLevelLen(other, level))
    ensures hit.Some? && |path| == 1 ==> UseScan(other, path, level, nodeStart, nodeCount) == UseDone(hit, 0)
    ensures hit.Some? && |path| > 1 && Level(other, level)[hit.value].value.Class? ==>
      var n := Level(other, level)[hit.value];
      UseScan(other, path, level, nodeStart, nodeCount) == UseScan(other, path[1..], level + 1, n.value.nodeStart, n.value.nodeCount)
    ensures (hit.None? || (|path| > 1 && !Level(other, level)[hit.value].value.Class?)) ==>
      UseScan(other, path, level, nodeStart, nodeCount) == Missed(UseScan(other, path[1..], level + 1, nodeStart, nodeCount))
  {
  }

  /** What a path import leaves behind only adds bindings of its last segment and its own errors. */
  lemma UsePathAdds(ctx: Expansion, ctx': Expansion, outLevel: nat, other: LiveDocument, file: FileId,
                    ids: seq<Id>, o: UseOutcome, token: TokenId)
    requires |ids| > 0 && o == UseScan(other, ids, 0, 0, GetLevelLen(other, 0)) && o.UseDone?
    requires o.bound.Some? ==> outLevel < |ctx.stack|
    requires ctx' == ctx.(stack := BindLast(ctx.stack, outLevel, ids[|ids| - 1], file, |ids| - 1, o.bound),
                          errors := ctx.errors + MissErrors(o.misses, token))
    ensures AddedOnly(ctx.stack, ctx'.stack, outLevel, other, file, ids[|ids| - 1], |ids| - 1)
    ensures OnlyPathErrors(ctx.errors, ctx'.errors, token)
  {
  }


  /**
   * The `use` arm: the imported module's expanded document is found through the
   * module table (an unregistered module panics); a wildcard binds every named
   * top-level node, a single name binds the first node carrying it or records
   * "Cannot find import", a path follows nested classes, and any other id shape
   * records "Node type invalid". Imports never write to the output.
   */
  method WalkUse(env: Env, ctx: Expansion, outLevel: nat, node: LiveNode) returns (ctx': Expansion, ok: bool)
    requires node.value.Use?
    ensures ok ==> Progress(ctx, ctx') && ctx'.out == ctx.out
    ensures ok ==>
      var cm := FetchCrateModule(node.value.crateModule, env.inCrate);
      cm in env.cmToFile && env.cmToFile[cm] < |env.expanded|
    ensures ok && node.id.Empty? ==>
      var file := env.cmToFile[FetchCrateModule(node.value.crateModule, env.inCrate)];
      var top := Level(env.expanded[file], 0);
      var items := WildcardItems(top, file, |top|);
      && (items == [] || outLevel < |ctx.stack|)
      && ctx' == ctx.(stack := AddItems(ctx.stack, outLevel, items))
    ensures ok && node.id.Single? ==>
      var file := env.cmToFile[FetchCrateModule(node.value.crateModule, env.inCrate)];
      var top := Level(env.expanded[file], 0);
      match FindInSpan(top, 0, |top|, node.id)
      case Some(i) =>
        && outLevel < |ctx.stack|
        && ctx' == ctx.(stack := AddItems(ctx.stack, outLevel, [ScopeItem(node.id.id, Full(FullPtr(file, LocalPtr(0, i))))]))
      case None => ctx' == ctx.(errors := ctx.errors + [LiveError(CannotFindImport, node.token)])
    ensures ok && node.id.Ptr? ==> ctx' == ctx.(errors := ctx.errors + [LiveError(NodeTypeInvalid, node.token)])
    ensures ok && node.id.Multi? && node.id.count > 0 ==>
      node.id.start + node.id.count <= |env.inDoc.multiIds|
    ensures ok && node.id.Multi? && node.id.count > 0 ==>
      var file := env.cmToFile[FetchCrateModule(node.value.crateModule, env.inCrate)];
      var ids := env.inDoc.multiIds[node.id.start..node.id.start + node.id.count];
      var o := UseScan(env.expanded[file], ids, 0, 0, GetLevelLen(env.expanded[file], 0));
      && o.UseDone? && (o.bound.Some? ==> outLevel < |ctx.stack|)
      && ctx' == ctx.(stack := BindLast(ctx.stack, outLevel, ids[|ids| - 1], file, |ids| - 1, o.bound),
                      errors := ctx.errors + MissErrors(o.misses, node.token))
    ensures ok && node.id.Multi? && node.id.count == 0 ==> ctx' == ctx
    ensures ok <==> !UsePanics(env, ctx, outLevel, node)
    ensures !ok ==> ctx' == ctx
  {
    var cm := FetchCrateModule(node.value.crateModule, env.inCrate);
    if cm !in env.cmToFile || env.cmToFile[cm] >= |env.expanded| {
      return ctx, false;
    }
    var file := env.cmToFile[cm];
    var other := env.expanded[file];
    assert UsePanics(env, ctx, outLevel, node) == UseArmPanics(env, ctx, outLevel, node, other, file);
    match node.id {
      case Empty =>
        ctx', ok := UseWildcard(ctx, outLevel, other, file);
      case Single(_) =>
        ctx', ok := UseSingle(ctx, outLevel, node, other, file);
      case Multi(_, _) =>
        ctx', ok := UsePath(env, ctx, outLevel, node, other, file);
        UsePathPanics(env, ctx, outLevel, node, other, file, ok);
        if ok && node.id.count > 0 {
          var lastId := env.inDoc.multiIds[node.id.start + node.id.count - 1];
          assert AddedOnly(ctx.stack, ctx'.stack, outLevel, other, file, lastId, node.id.count - 1);
          assert StackExtends(ctx.stack, ctx'.stack);
        }
      case Ptr(_, _, _) =>
        return ctx.(errors := ctx.errors + [LiveError(NodeTypeInvalid, node.token)]), true;
    }
  }

  /**
   * When the import arm panics: the module has no expanded document, or the
   * import panics on the document it names.
   */
  ghost predicate UsePanics(env: Env, ctx: Expansion, outLevel: nat, node: LiveNode)
    requires node.value.Use?
  {
    var cm := FetchCrateModule(node.value.crateModule, env.inCrate);
    cm !in env.cmToFile || env.cmToFile[cm] >= |env.expanded|
    || UseArmPanics(env, ctx, outLevel, node, env.expanded[env.cmToFile[cm]], env.cmToFile[cm])
  }

  /**
   * When an import of the document `other` of `file` panics: that document has no
   * levels, an import that binds has no frame at `outLevel`, or a path runs past
   * the multi-id table or stops on a segment that is not a class.
   */
  ghost predicate UseArmPanics(env: Env, ctx: Expansion, outLevel: nat, node: LiveNode, other: LiveDocument, file: FileId)
  {
    var top := Level(other, 0);
    match node.id
    case Empty => |other.nodes| == 0 || (WildcardItems(top, file, |top|) != [] && outLevel >= |ctx.stack|)
    case Single(_) => |other.nodes| == 0 || (FindInSpan(top, 0, |top|, node.id).Some? && outLevel >= |ctx.stack|)
    case Multi(start, count) =>
      || |other.nodes| == 0
      || (count > 0 && start + count > |env.inDoc.multiIds|)
      || (count > 0 && start + count <= |env.inDoc.multiIds| &&
          var o := UseScan(other, env.inDoc.multiIds[start..start + count], 0, 0, GetLevelLen(other, 0));
          !(o.UseDone? && (o.bound.Some? ==> outLevel < |ctx.stack|)))
    case Ptr(_, _, _) => false
  }

  /** A path import panics exactly where `UsePath` reports it. */
  lemma UsePathPanics(env: Env, ctx: Expansion, outLevel: nat, node: LiveNode, other: LiveDocument, file: FileId, ok: bool)
    requires node.id.Multi?
    requires |other.nodes| == 0 ==> !ok
    requires |other.nodes| > 0 && node.id.count == 0 ==> ok
    requires node.id.count > 0 && node.id.start + node.id.count > |env.inDoc.multiIds| ==> !ok
    requires |other.nodes| > 0 && node.id.count > 0 && node.id.start + node.id.count <= |env.inDoc.multiIds| ==>
      var o := UseScan(other, env.inDoc.multiIds[node.id.start..node.id.start + node.id.count], 0, 0, GetLevelLen(other, 0));
      ok <==> o.UseDone? && (o.bound.Some? ==> outLevel < |ctx.stack|)
    ensures ok <==> !UseArmPanics(env, ctx, outLevel, node, other, file)
  {
  }

  /** `use m::*`: every top-level node of the imported file with a plain id is bound in the frame at `outLevel`. */
  method UseWildcard(ctx: Expansion, outLevel: nat, other: LiveDocument, file: FileId) returns (ctx': Expansion, ok: bool)
    ensures ok ==> Progress(ctx, ctx') && ctx'.out == ctx.out
    ensures ok ==>
      var top := Level(other, 0);
      var items := WildcardItems(top, file, |top|);
      && (items == [] || outLevel < |ctx.stack|)
      && ctx' == ctx.(stack := AddItems(ctx.stack, outLevel, items))
    ensures ok <==>
      |other.nodes| > 0 && (WildcardItems(Level(other, 0), file, |Level(other, 0)|) == [] || outLevel < |ctx.stack|)
    ensures !ok ==> ctx' == ctx
  {
    if |other.nodes| == 0 {
      return ctx, false;
    }
    var top := other.nodes[0];
    var st := ctx.stack;
    var i := 0;
    while i < |top|
      invariant 0 <= i <= |top|
      invariant WildcardItems(top, file, i) == [] || outLevel < |ctx.stack|
      invariant st == AddItems(ctx.stack, outLevel, WildcardItems(top, file, i))
      invariant |st| == |ctx.stack|
    {
      if top[i].id.Single? {
        if outLevel >= |st| {
          assert ScopeItem(top[i].id.id, Full(FullPtr(file, LocalPtr(0, i)))) in WildcardItems(top, file, |top|);
          return ctx, false;
        }
        var item := ScopeItem(top[i].id.id, Full(FullPtr(file, LocalPtr(0, i))));
        assert WildcardItems(top, file, i + 1) == WildcardItems(top, file, i) + [item];
        AddItemsStep(ctx.stack, st, outLevel, WildcardItems(top, file, i), item);
        st := st[outLevel := st[outLevel] + [item]];
      } else {
        assert WildcardItems(top, file, i + 1) == WildcardItems(top, file, i);
      }
      i := i + 1;
    }
    ctx', ok := ctx.(stack := st), true;
    assert Progress(ctx, ctx');
  }

  /** `use m::x`: the first top-level node of the imported file carrying `x` is bound, or the import is reported missing. */
  method UseSingle(ctx: Expansion, outLevel: nat, node: LiveNode, other: LiveDocument, file: FileId)
    returns (ctx': Expansion, ok: bool)
    requires node.id.Single?
    ensures ok ==> Progress(ctx, ctx') && ctx'.out == ctx.out
    ensures ok ==>
      var top := Level(other, 0);
      match FindInSpan(top, 0, |top|, node.id)
      case Some(i) =>
        && outLevel < |ctx.stack|
        && ctx' == ctx.(stack := AddItems(ctx.stack, outLevel, [ScopeItem(node.id.id, Full(FullPtr(file, LocalPtr(0, i))))]))
      case None => ctx' == ctx.(errors := ctx.errors + [LiveError(CannotFindImport, node.token)])
    ensures ok <==>
      |other.nodes| > 0 && (FindInSpan(Level(other, 0), 0, |Level(other, 0)|, node.id).Some? ==> outLevel < |ctx.stack|)
    ensures !ok ==> ctx' == ctx
  {
    if |other.nodes| == 0 {
      return ctx, false;
    }
    var top := other.nodes[0];
    var i := 0;
    while i < |top|
      invariant 0 <= i <= |top|
      invariant FindInSpan(top, i, |top| - i, node.id) == FindInSpan(top, 0, |top|, node.id)
    {
      if top[i].id == node.id {
        if outLevel >= |ctx.stack| {
          return ctx, false;
        }
        var item := ScopeItem(node.id.id, Full(FullPtr(file, LocalPtr(0, i))));
        return ctx.(stack := ctx.stack[outLevel := ctx.stack[outLevel] + [item]]), true;
      }
      i := i + 1;
    }
    return ctx.(errors := ctx.errors + [LiveError(CannotFindImport, node.token)]), true;
  }

  // ---------------------------------------------------------------------------
  // The recursive arms
  // ---------------------------------------------------------------------------

  /** The level a node with a path id is written under: one level per extra segment. */
  function ShiftedLevel(id: IdPack, outLevel: nat): Option<nat>
  {
    if id.Multi? then (if id.count == 0 then None else Some(outLevel + id.count - 1)) else Some(outLevel)
  }

  /** A node the walker writes as it is: plain values and resource references. */
  predicate PlainValue(v: LiveValue)
  {
    !(v.IdRef? || v.Call? || v.Array? || v.Object? || v.Fn? || v.VarDef? || v.Use? || v.Class?)
  }

  /**
   * The value each writing arm leaves in the written node: a reference keeps its
   * id or becomes a pointer, a call points at its arguments (first written at
   * the end of the level below) and keeps its target or gets a pointer, an array
   * or object points at its children's new run, a body at its captured scope, and
   * any other value is copied.
   */
  ghost predicate ArmValue(ctx: Expansion, node: LiveNode, outLevel: nat, v: LiveValue)
  {
    match node.value
    case IdRef(x) => v == node.value || (Resolvable(x) && v.IdRef? && v.ref.Ptr?)
    case Call(t, _, c) =>
      && v.Call? && v.nodeStart == GetLevelLen(ctx.out, outLevel + 1) && v.nodeCount == c
      && (v.target == t || (Resolvable(t) && v.target.Ptr?))
    case Array(_, c) =>
      ShiftedLevel(node.id, outLevel).Some?
      && v == Array(GetLevelLen(ctx.out, ShiftedLevel(node.id, outLevel).value + 1), c)
    case Object(_, c) =>
      ShiftedLevel(node.id, outLevel).Some?
      && v == Object(GetLevelLen(ctx.out, ShiftedLevel(node.id, outLevel).value + 1), c)
    case Fn(_, _, _, _) => v == BodyValue(ctx, node.value)
    case VarDef(_, _, _, _) => v == BodyValue(ctx, node.value)
    case _ => v == node.value
  }

  /**
   * Level `level` of `after` is level `level` of `before` with `node` written over
   * `[start, start + count)` (in place at the first entry carrying its id, or
   * appended), the written entry holding whatever value the arm gave it.
   */
  ghost predicate WrittenWith(before: LiveDocument, after: LiveDocument, level: nat, start: nat, count: nat, node: LiveNode, v: LiveValue)
  {
    Level(after, level) == Level(WriteOrAddNode(before, level, start, count, node.(value := v)).0, level)
  }

  /**
   * `walk_node`: expands node `inIndex` of level `inLevel` of the raw document
   * into level `outLevel` of the output, overriding within
   * `[outStart, outStart + outCount)`. Every arm but `use` and `class` writes one
   * node there; no level above `outLevel` changes.
   */
  method WalkNode(env: Env, ctx: Expansion, inLevel: nat, outLevel: nat, inIndex: nat, outStart: nat, outCount: nat)
    returns (ctx': Expansion, ok: bool)
    decreases |env.inDoc.nodes| - inLevel, 2
    ensures ok ==> Progress(ctx, ctx') && Below(ctx.out, ctx'.out, outLevel)
    ensures ok ==> inIndex < GetLevelLen(env.inDoc, inLevel)
    ensures ok ==>
      var node := Level(env.inDoc, inLevel)[inIndex];
      && (node.value.Use? ==> ctx'.out == ctx.out)
      && (!node.value.Use? && !node.value.Class? ==>
            var w := WrittenIndex(ctx.out, outLevel, outStart, outCount, node);
            && w < GetLevelLen(ctx'.out, outLevel)
            && WrittenWith(ctx.out, ctx'.out, outLevel, outStart, outCount, node, Level(ctx'.out, outLevel)[w].value)
            && ArmValue(ctx, node, outLevel, Level(ctx'.out, outLevel)[w].value))
    ensures ok && PlainValue(Level(env.inDoc, inLevel)[inIndex].value) ==>
      var node := Level(env.inDoc, inLevel)[inIndex];
      Write(ctx, outLevel, outStart, outCount, node).Some? && ctx' == Write(ctx, outLevel, outStart, outCount, node).value.ctx
    ensures ok && Level(env.inDoc, inLevel)[inIndex].value.IdRef? ==>
      var node := Level(env.inDoc, inLevel)[inIndex];
      && Write(ctx, outLevel, outStart, outCount, node).Some?
      && var wr := Write(ctx, outLevel, outStart, outCount, node).value;
         ResolveRef(env, wr.ctx, wr.index, outLevel, outStart, node) == Some(ctx')
  {
    if inIndex >= GetLevelLen(env.inDoc, inLevel) {
      return ctx, false;
    }
    var node := Level(env.inDoc, inLevel)[inIndex];
    match node.value {
      case IdRef(_) =>
        ctx', ok := WalkRef(env, ctx, outLevel, outStart, outCount, node);
      case Call(_, _, _) =>
        ctx', ok := WalkCall(env, ctx, inLevel, outLevel, outStart, outCount, node);
      case Array(_, _) =>
        ctx', ok := WalkContainer(env, ctx, inLevel, outLevel, outStart, outCount, node);
      case Object(_, _) =>
        ctx', ok := WalkContainer(env, ctx, inLevel, outLevel, outStart, outCount, node);
      case Fn(_, _, _, _) =>
        ctx', ok := WalkBody(env, ctx, outLevel, outStart, outCount, node);
      case VarDef(_, _, _, _) =>
        ctx', ok := WalkBody(env, ctx, outLevel, outStart, outCount, node);
      case Use(_) =>
        ctx', ok := WalkUse(env, ctx, outLevel, node);
      case Class(_, _, _) =>
        ctx', ok := WalkClass(env, ctx, inLevel, outLevel, outStart, outCount, node);
      case _ =>
        ctx', ok := WalkValue(ctx, outLevel, outStart, outCount, node);
    }
  }

  /**
   * The reference arm: the node is written as it is, then its id is resolved and,
   * when found, the written node is pointed at what it names.
   */
  method WalkRef(env: Env, ctx: Expansion, outLevel: nat, outStart: nat, outCount: nat, node: LiveNode)
    returns (ctx': Expansion, ok: bool)
    requires node.value.IdRef?
    ensures ok ==> Progress(ctx, ctx') && Below(ctx.out, ctx'.out, outLevel)
    ensures ok ==>
      var w := WrittenIndex(ctx.out, outLevel, outStart, outCount, node);
      && w < GetLevelLen(ctx'.out, outLevel)
      && WrittenWith(ctx.out, ctx'.out, outLevel, outStart, outCount, node, Level(ctx'.out, outLevel)[w].value)
      && ArmValue(ctx, node, outLevel, Level(ctx'.out, outLevel)[w].value)
    ensures ok ==>
      && Write(ctx, outLevel, outStart, outCount, node).Some?
      && var wr := Write(ctx, outLevel, outStart, outCount, node).value;
         ResolveRef(env, wr.ctx, wr.index, outLevel, outStart, node) == Some(ctx')
    ensures ok <==>
      && Write(ctx, outLevel, outStart, outCount, node).Some?
      && var wr := Write(ctx, outLevel, outStart, outCount, node).value;
         ResolveRef(env, wr.ctx, wr.index, outLevel, outStart, node).Some?
    ensures !ok ==> ctx' == ctx
  {
    match Write(ctx, outLevel, outStart, outCount, node) {
      case None => return ctx, false;
      case Some(wr) =>
        var r := ResolveRef(env, wr.ctx, wr.index, outLevel, outStart, node);
        if r.None? { return ctx, false; }
        ProgressTrans(ctx, wr.ctx, r.value);
        var lvl := Level(wr.ctx.out, outLevel);
        if Resolvable(node.value.ref) {
          var res := ResolveId(node.value.ref, env.expanded, wr.ctx.stack, env.inDoc, wr.ctx.out, outLevel, outStart);
          if res.Found? {
            WriteThenSet(ctx.out, outLevel, outStart, outCount, node, IdRef(PointerTo(env, res)));
            assert Level(r.value.out, outLevel) == lvl[wr.index := lvl[wr.index].(value := IdRef(PointerTo(env, res)))];
          }
        }
        return r.value, true;
    }
  }

  /** Plain values and resource references are written as they are. */
  method WalkValue(ctx: Expansion, outLevel: nat, outStart: nat, outCount: nat, node: LiveNode)
    returns (ctx': Expansion, ok: bool)
    ensures ok ==> Progress(ctx, ctx') && Below(ctx.out, ctx'.out, outLevel)
    ensures ok ==>
      var w := WrittenIndex(ctx.out, outLevel, outStart, outCount, node);
      && w < GetLevelLen(ctx'.out, outLevel)
      && Level(ctx'.out, outLevel)[w].value == node.value
      && WrittenWith(ctx.out, ctx'.out, outLevel, outStart, outCount, node, node.value)
    ensures ok <==> Write(ctx, outLevel, outStart, outCount, node).Some?
    ensures ok ==> ctx' == Write(ctx, outLevel, outStart, outCount, node).value.ctx
  {
    match Write(ctx, outLevel, outStart, outCount, node) {
      case None => return ctx, false;
      case Some(wr) =>
        assert node.(value := node.value) == node;
        return wr.ctx, true;
    }
  }

  /**
   * Walks the children `[start, start + count)` of level `inLevel`, in order,
   * onto level `outLevel`; no level above it changes.
   */
  method WalkChildren(env: Env, ctx: Expansion, inLevel: nat, outLevel: nat, start: nat, count: nat,
                      outStart: nat, outCount: nat)
    returns (ctx': Expansion, ok: bool)
    decreases |env.inDoc.nodes| - inLevel, 3
    ensures ok ==> Progress(ctx, ctx') && Below(ctx.out, ctx'.out, outLevel)
    ensures ok ==> RunFits(GetLevelLen(env.inDoc, inLevel), start, count)
  {
    ctx' := ctx;
    var i := 0;
    while i < count
      invariant i <= count
      invariant i > 0 ==> start + i <= GetLevelLen(env.inDoc, inLevel)
      invariant Progress(ctx, ctx') && Below(ctx.out, ctx'.out, outLevel)
    {
      var next;
      next, ok := WalkNode(env, ctx', inLevel, outLevel, start + i, outStart, outCount);
      if !ok { return; }
      ProgressTrans(ctx, ctx', next);
      ctx' := next;
      i := i + 1;
    }
    ok := true;
  }

  /**
   * The call arm: the arguments are walked one level down, then the call is
   * written pointing at them and its target resolved.
   */
  method WalkCall(env: Env, ctx: Expansion, inLevel: nat, outLevel: nat, outStart: nat, outCount: nat, node: LiveNode)
    returns (ctx': Expansion, ok: bool)
    requires inLevel < |env.inDoc.nodes|
    requires node.value.Call?
    decreases |env.inDoc.nodes| - inLevel, 1
    ensures ok ==> Progress(ctx, ctx') && Below(ctx.out, ctx'.out, outLevel)
    ensures ok ==>
      var w := WrittenIndex(ctx.out, outLevel, outStart, outCount, node);
      && w < GetLevelLen(ctx'.out, outLevel)
      && WrittenWith(ctx.out, ctx'.out, outLevel, outStart, outCount, node, Level(ctx'.out, outLevel)[w].value)
      && ArmValue(ctx, node, outLevel, Level(ctx'.out, outLevel)[w].value)
  {
    var newStart := GetLevelLen(ctx.out, outLevel + 1);
    var c1;
    c1, ok := WalkChildren(env, ctx, inLevel + 1, outLevel + 1, node.value.nodeStart, node.value.nodeCount, outStart, 0);
    if !ok { return ctx, false; }
    var newNode := LiveNode(node.token, node.id, Call(node.value.target, newStart, node.value.nodeCount));
    match Write(c1, outLevel, outStart, outCount, newNode) {
      case None => return ctx, false;
      case Some(wr) =>
        var r := ResolveCall(env, wr.ctx, wr.index, outLevel, outStart, newNode);
        if r.None? { return ctx, false; }
        ProgressTrans(ctx, c1, wr.ctx);
        ProgressTrans(ctx, wr.ctx, r.value);
        CallWritten(env, ctx, c1, wr, r.value, outLevel, outStart, outCount, node, newNode);
        return r.value, true;
    }
  }

  /** The write and resolution that end the call arm, after the arguments were walked from `ctx` to `c1`. */
  lemma CallWritten(env: Env, ctx: Expansion, c1: Expansion, wr: Written, r: Expansion,
                    outLevel: nat, outStart: nat, outCount: nat, node: LiveNode, newNode: LiveNode)
    requires node.value.Call?
    requires newNode == LiveNode(node.token, node.id, Call(node.value.target, GetLevelLen(ctx.out, outLevel + 1), node.value.nodeCount))
    requires Level(c1.out, outLevel) == Level(ctx.out, outLevel)
    requires Write(c1, outLevel, outStart, outCount, newNode) == Some(wr)
    requires ResolveCall(env, wr.ctx, wr.index, outLevel, outStart, newNode) == Some(r)
    ensures var w := WrittenIndex(ctx.out, outLevel, outStart, outCount, node);
      && w < GetLevelLen(r.out, outLevel)
      && WrittenWith(ctx.out, r.out, outLevel, outStart, outCount, node, Level(r.out, outLevel)[w].value)
      && ArmValue(ctx, node, outLevel, Level(r.out, outLevel)[w].value)
  {
    WriteSameLevel(c1.out, ctx.out, outLevel, outStart, outCount, newNode);
    assert node.(value := newNode.value) == newNode;
    if r.out == wr.ctx.out {
      CallKept(ctx, wr, outLevel, outStart, outCount, node, newNode);
    } else {
      var res := ResolveId(node.value.target, env.expanded, wr.ctx.stack, env.inDoc, wr.ctx.out, outLevel, outStart);
      CallRetargeted(ctx, wr, r, outLevel, outStart, outCount, node, newNode, PointerTo(env, res));
    }
  }

  /** The call keeps its unresolved target: it is written as the arm built it. */
  lemma CallKept(ctx: Expansion, wr: Written, outLevel: nat, outStart: nat, outCount: nat, node: LiveNode, newNode: LiveNode)
    requires node.value.Call?
    requires newNode == LiveNode(node.token, node.id, Call(node.value.target, GetLevelLen(ctx.out, outLevel + 1), node.value.nodeCount))
    requires wr.index == WrittenIndex(ctx.out, outLevel, outStart, outCount, newNode)
    requires Level(wr.ctx.out, outLevel) == Level(WriteOrAddNode(ctx.out, outLevel, outStart, outCount, newNode).0, outLevel)
    ensures var w := WrittenIndex(ctx.out, outLevel, outStart, outCount, node);
      && w < GetLevelLen(wr.ctx.out, outLevel)
      && WrittenWith(ctx.out, wr.ctx.out, outLevel, outStart, outCount, node, Level(wr.ctx.out, outLevel)[w].value)
      && ArmValue(ctx, node, outLevel, Level(wr.ctx.out, outLevel)[w].value)
  {
    WriteThenSet(ctx.out, outLevel, outStart, outCount, node, newNode.value);
    assert node.(value := newNode.value) == newNode;
  }

  /** The call's target was resolved to `p`: the written node points there. */
  lemma CallRetargeted(ctx: Expansion, wr: Written, r: Expansion, outLevel: nat, outStart: nat, outCount: nat,
                       node: LiveNode, newNode: LiveNode, p: IdPack)
    requires node.value.Call? && p.Ptr?
    requires newNode == LiveNode(node.token, node.id, Call(node.value.target, GetLevelLen(ctx.out, outLevel + 1), node.value.nodeCount))
    requires wr.index == WrittenIndex(ctx.out, outLevel, outStart, outCount, newNode)
    requires Level(wr.ctx.out, outLevel) == Level(WriteOrAddNode(ctx.out, outLevel, outStart, outCount, newNode).0, outLevel)
    requires Resolvable(node.value.target)
    requires Level(r.out, outLevel) == Level(wr.ctx.out, outLevel)[wr.index := Level(wr.ctx.out, outLevel)[wr.index].(value :=
               Call(p, newNode.value.nodeStart, newNode.value.nodeCount))]
    ensures var w := WrittenIndex(ctx.out, outLevel, outStart, outCount, node);
      && w < GetLevelLen(r.out, outLevel)
      && WrittenWith(ctx.out, r.out, outLevel, outStart, outCount, node, Level(r.out, outLevel)[w].value)
      && ArmValue(ctx, node, outLevel, Level(r.out, outLevel)[w].value)
  {
    var v := Call(p, newNode.value.nodeStart, newNode.value.nodeCount);
    WriteThenSet(ctx.out, outLevel, outStart, outCount, newNode, v);
    WriteThenSet(ctx.out, outLevel, outStart, outCount, node, newNode.value);
    assert node.(value := newNode.value) == newNode;
    assert newNode.(value := v) == node.(value := v);
  }

  /**
   * The array and object arms: the children are walked onto the level below the
   * (shifted) level, then the node is written on its own level pointing at them.
   */
  method WalkContainer(env: Env, ctx: Expansion, inLevel: nat, outLevel: nat, outStart: nat, outCount: nat, node: LiveNode)
    returns (ctx': Expansion, ok: bool)
    requires inLevel < |env.inDoc.nodes|
    requires node.value.Array? || node.value.Object?
    decreases |env.inDoc.nodes| - inLevel, 1
    ensures ok ==> Progress(ctx, ctx') && Below(ctx.out, ctx'.out, outLevel)
    ensures ok ==>
      var w := WrittenIndex(ctx.out, outLevel, outStart, outCount, node);
      && w < GetLevelLen(ctx'.out, outLevel)
      && WrittenWith(ctx.out, ctx'.out, outLevel, outStart, outCount, node, Level(ctx'.out, outLevel)[w].value)
      && ArmValue(ctx, node, outLevel, Level(ctx'.out, outLevel)[w].value)
  {
    var shifted := ShiftedLevel(node.id, outLevel);
    if shifted.None? { return ctx, false; }
    var newStart := GetLevelLen(ctx.out, shifted.value + 1);
    var c1;
    c1, ok := WalkChildren(env, ctx, inLevel + 1, shifted.value + 1, node.value.nodeStart, node.value.nodeCount, outStart, 0);
    if !ok { return ctx, false; }
    var value := if node.value.Array? then Array(newStart, node.value.nodeCount) else Object(newStart, node.value.nodeCount);
    assert Level(c1.out, outLevel) == Level(ctx.out, outLevel);
    WriteSameLevel(c1.out, ctx.out, outLevel, outStart, outCount, LiveNode(node.token, node.id, value));
    WriteThenSet(ctx.out, outLevel, outStart, outCount, node, value);
    assert node.(value := value) == LiveNode(node.token, node.id, value);
    match Write(c1, outLevel, outStart, outCount, LiveNode(node.token, node.id, value)) {
      case None => return ctx, false;
      case Some(wr) =>
        ProgressTrans(ctx, c1, wr.ctx);
        return wr.ctx, true;
    }
  }

  /** Does the class inherit from a base the walker resolves (not `Self`, not a built-in root)? */
  predicate Inherits(node: LiveNode)
    requires node.value.Class?
  {
    Resolvable(node.value.base)
  }

  /** The resolution of a class's base, with the class's own frame already pushed. */
  function BaseResolution(env: Env, ctx: Expansion, node: LiveNode, outLevel: nat, outStart: nat): Resolution
    requires node.value.Class?
  {
    ResolveId(node.value.base, env.expanded, ctx.stack + [[]], env.inDoc, ctx.out, outLevel, outStart)
  }

  /** How many fields of the open class a `Self` base copies: those written from `start` to the end of the level. */
  function SelfCount(doc: LiveDocument, level: nat, start: nat): nat
  {
    if start <= GetLevelLen(doc, level) then GetLevelLen(doc, level) - start else 0
  }

  /**
   * The base half of the class arm (run with the class's frame pushed): a `Self`
   * base copies the open class's fields written so far onto the children level;
   * a resolvable base is resolved and its node copied onto the shifted level; a
   * built-in root copies nothing. Reports what the copied root was and the class
   * id to store.
   */
  method ClassBase(env: Env, ctx: Expansion, node: LiveNode, outLevel: nat, outStart: nat, shifted: nat)
    returns (ctx': Expansion, res: CopyResult, classId: IdPack, failed: bool, ok: bool)
    requires node.value.Class?
    requires outLevel <= shifted
    ensures ok ==> Progress(ctx, ctx') && ctx'.stack == ctx.stack + [[]] && Below(ctx.out, ctx'.out, shifted)
    ensures ok && !failed ==> ctx'.errors == ctx.errors
    ensures ok && !Inherits(node) ==> !failed && res == IsClass(node.value.base) && classId == node.value.base
    ensures ok && !Inherits(node) && node.value.base != SELF_PACK ==> ctx'.out == ctx.out
    ensures ok && node.value.base == SELF_PACK ==>
      && Below(ctx.out, ctx'.out, shifted + 1)
      && GetLevelLen(ctx.out, shifted + 1) <= GetLevelLen(ctx'.out, shifted + 1)
      && Heads(Level(ctx'.out, shifted + 1)[GetLevelLen(ctx.out, shifted + 1)..])
         == ChildHeads(ctx.out, node.id, 0, outLevel, outStart, SelfCount(ctx.out, outLevel, outStart))
    ensures ok && Inherits(node) ==>
      var r := BaseResolution(env, ctx, node, outLevel, outStart);
      && !r.Panic?
      && (failed <==> r.Failed?)
      && (r.Failed? ==> ctx' == Expansion(ctx.out, ctx.stack + [[]], ctx.errors + [LiveError(r.kind, node.token)]))
      && (r.Found? ==>
            && TargetNode(env, ctx.out, r).Some?
            && var n := TargetNode(env, ctx.out, r).value;
               var src := TargetDoc(r.file, env.expanded, ctx.out).value;
               && res == CopyOutcome(n)
               && classId == PointerTo(env, r)
               && Level(ctx'.out, shifted) == Level(ctx.out, shifted)
                  + EmittedRoot(n, r.file, src.multiIds, ctx.out, node.id, r.ptr.level, r.ptr.level, shifted))
    ensures ok ==> (ExpandsClass(env, ctx, node, outLevel, outStart) <==> !failed && res.IsClass?)
    ensures ok && ExpandsClass(env, ctx, node, outLevel, outStart) ==>
      && classId == ClassId(env, ctx, node, outLevel, outStart)
      && Level(ctx'.out, outLevel) == Level(ctx.out, outLevel)
      && GetLevelLen(ctx.out, shifted + 1) <= GetLevelLen(ctx'.out, shifted + 1)
      && Heads(Level(ctx'.out, shifted + 1)[GetLevelLen(ctx.out, shifted + 1)..]) == BaseHeads(env, ctx, node, outLevel, outStart)
  {
    var c1 := ctx.(stack := ctx.stack + [[]]);
    assert Progress(ctx, c1);
    var base := node.value.base;
    res, classId, failed := IsClass(base), base, false;
    ctx' := c1;
    if base == SELF_PACK {
      var out;
      out, ok := CopySelf(ctx.out, node.id, outLevel, outStart, shifted);
      if !ok { return; }
      ExtendsGrows(ctx.out, out);
      ctx' := c1.(out := out);
    } else if Resolvable(base) {
      ctx', res, classId, failed, ok := InheritBase(env, ctx, node, outLevel, outStart, shifted);
    } else {
      ok := true;
    }
  }

  /** The base copy of a class whose base is resolved on the scope stack. */
  method InheritBase(env: Env, ctx: Expansion, node: LiveNode, outLevel: nat, outStart: nat, shifted: nat)
    returns (ctx': Expansion, res: CopyResult, classId: IdPack, failed: bool, ok: bool)
    requires node.value.Class? && Inherits(node)
    requires outLevel <= shifted
    ensures ok ==> Progress(ctx, ctx') && ctx'.stack == ctx.stack + [[]] && Below(ctx.out, ctx'.out, shifted)
    ensures ok && !failed ==> ctx'.errors == ctx.errors
    ensures ok ==>
      var r := BaseResolution(env, ctx, node, outLevel, outStart);
      && !r.Panic?
      && (failed <==> r.Failed?)
      && (r.Failed? ==> ctx' == Expansion(ctx.out, ctx.stack + [[]], ctx.errors + [LiveError(r.kind, node.token)]))
      && (r.Found? ==>
            && TargetNode(env, ctx.out, r).Some?
            && var n := TargetNode(env, ctx.out, r).value;
               var src := TargetDoc(r.file, env.expanded, ctx.out).value;
               && res == CopyOutcome(n)
               && classId == PointerTo(env, r)
               && Level(ctx'.out, shifted) == Level(ctx.out, shifted)
                  + EmittedRoot(n, r.file, src.multiIds, ctx.out, node.id, r.ptr.level, r.ptr.level, shifted))
    ensures ok ==> (ExpandsClass(env, ctx, node, outLevel, outStart) <==> !failed && res.IsClass?)
    ensures ok && ExpandsClass(env, ctx, node, outLevel, outStart) ==>
      && classId == ClassId(env, ctx, node, outLevel, outStart)
      && Level(ctx'.out, outLevel) == Level(ctx.out, outLevel)
      && GetLevelLen(ctx.out, shifted + 1) <= GetLevelLen(ctx'.out, shifted + 1)
      && Heads(Level(ctx'.out, shifted + 1)[GetLevelLen(ctx.out, shifted + 1)..]) == BaseHeads(env, ctx, node, outLevel, outStart)
  {
    var c1 := ctx.(stack := ctx.stack + [[]]);
    assert Progress(ctx, c1);
    res, classId, failed := IsClass(node.value.base), node.value.base, false;
    var r := ResolveId(node.value.base, env.expanded, c1.stack, env.inDoc, ctx.out, outLevel, outStart);
    match r {
      case Found(_, _) =>
        ctx', res, classId, ok := CopyBase(env, c1, node, r, shifted);
        if ok && res.IsClass? {
          assert Level(ctx'.out, shifted) == Level(ctx.out, shifted);
        }
      case Failed(k) =>
        return c1.(errors := ctx.errors + [LiveError(k, node.token)]), res, classId, true, true;
      case Panic =>
        return c1, res, classId, failed, false;
    }
  }

  /**
   * The `Self` base: the open class's fields written from `outStart` to the end of
   * its level are copied, in order, onto the children level `shifted + 1`.
   */
  method CopySelf(out: LiveDocument, id: IdPack, outLevel: nat, outStart: nat, shifted: nat)
    returns (out': LiveDocument, ok: bool)
    requires outLevel <= shifted
    ensures ok ==> Extends(out, out') && Below(out, out', shifted + 1)
    ensures ok ==>
      && GetLevelLen(out, shifted + 1) <= GetLevelLen(out', shifted + 1)
      && Heads(Level(out', shifted + 1)[GetLevelLen(out, shifted + 1)..])
         == ChildHeads(out, id, 0, outLevel, outStart, SelfCount(out, outLevel, outStart))
  {
    var hi := GetLevelLen(out, outLevel);
    var n0 := GetLevelLen(out, shifted + 1);
    out' := out;
    var i := outStart;
    while i < hi
      invariant outStart <= i && (outStart <= hi ==> i <= hi) && (outStart > hi ==> i == outStart)
      invariant Extends(out, out') && Below(out, out', shifted + 1)
      invariant n0 <= GetLevelLen(out', shifted + 1)
      invariant Heads(Level(out', shifted + 1)[n0..]) == ChildHeads(out, id, 0, outLevel, outStart, i - outStart)
    {
      var next;
      next, ok := CopySelfField(out, out', id, outLevel, outStart, shifted, i, n0);
      if !ok { return; }
      out' := next;
      i := i + 1;
    }
    assert i - outStart == SelfCount(out, outLevel, outStart);
    ok := true;
  }

  /** Copies field `i` of the open class onto the children level, after the fields before it. */
  method CopySelfField(ghost out: LiveDocument, cur: LiveDocument, id: IdPack, outLevel: nat, outStart: nat,
                       shifted: nat, i: nat, n0: nat)
    returns (next: LiveDocument, ok: bool)
    requires outLevel <= shifted && Extends(out, cur) && Below(out, cur, shifted + 1)
    requires outStart <= i < GetLevelLen(out, outLevel) && n0 <= GetLevelLen(cur, shifted + 1)
    requires Heads(Level(cur, shifted + 1)[n0..]) == ChildHeads(out, id, 0, outLevel, outStart, i - outStart)
    ensures ok ==> Extends(out, next) && Below(out, next, shifted + 1) && n0 <= GetLevelLen(next, shifted + 1)
    ensures ok ==> Heads(Level(next, shifted + 1)[n0..]) == ChildHeads(out, id, 0, outLevel, outStart, i + 1 - outStart)
  {
    var r;
    next, r, ok := CopyRecur(cur, None, cur, id, 0, outLevel, shifted + 1, i);
    if !ok { return; }
    SelfStep(out, cur, next, id, outLevel, outStart, shifted, i, n0);
    ExtendsTrans(out, cur, next);
  }

  /** One field of the `Self` copy: the copied node's token and id follow those of the fields before it. */
  lemma SelfStep(out: LiveDocument, cur: LiveDocument, next: LiveDocument, id: IdPack, outLevel: nat, outStart: nat,
                 shifted: nat, i: nat, n0: nat)
    requires outLevel <= shifted && Below(out, cur, shifted + 1)
    requires outStart <= i < GetLevelLen(out, outLevel) && n0 <= GetLevelLen(cur, shifted + 1)
    requires Heads(Level(cur, shifted + 1)[n0..]) == ChildHeads(out, id, 0, outLevel, outStart, i - outStart)
    requires Level(next, shifted + 1) == Level(cur, shifted + 1)
               + EmittedRoot(Level(cur, outLevel)[i], None, cur.multiIds, cur, id, 0, outLevel, shifted + 1)
    ensures Heads(Level(next, shifted + 1)[n0..]) == ChildHeads(out, id, 0, outLevel, outStart, i + 1 - outStart)
  {
    assert Level(cur, outLevel) == Level(out, outLevel);
    var e := EmittedRoot(Level(cur, outLevel)[i], None, cur.multiIds, cur, id, 0, outLevel, shifted + 1);
    HeadsAppend(Level(cur, shifted + 1), e, n0);
    EmittedRootHead(Level(cur, outLevel)[i], None, cur.multiIds, cur, id, 0, outLevel, shifted + 1);
  }

  /** A resolved base: its node is copied onto the shifted level, renamed to the class's id. */
  method CopyBase(env: Env, ctx: Expansion, node: LiveNode, r: Resolution, shifted: nat)
    returns (ctx': Expansion, res: CopyResult, classId: IdPack, ok: bool)
    requires r.Found?
    ensures ok ==> Progress(ctx, ctx') && ctx'.stack == ctx.stack && ctx'.errors == ctx.errors
    ensures ok ==> Below(ctx.out, ctx'.out, shifted)
    ensures ok ==>
      && TargetNode(env, ctx.out, r).Some?
      && var n := TargetNode(env, ctx.out, r).value;
         var src := TargetDoc(r.file, env.expanded, ctx.out).value;
         && res == CopyOutcome(n)
         && classId == PointerTo(env, r)
         && Level(ctx'.out, shifted) == Level(ctx.out, shifted)
            + EmittedRoot(n, r.file, src.multiIds, ctx.out, node.id, r.ptr.level, r.ptr.level, shifted)
         && (HasChildren(n.value) ==>
               && GetLevelLen(ctx.out, shifted + 1) <= GetLevelLen(ctx'.out, shifted + 1)
               && Heads(Level(ctx'.out, shifted + 1)[GetLevelLen(ctx.out, shifted + 1)..])
                  == ChildHeads(src, node.id, r.ptr.level, r.ptr.level + 1, n.value.nodeStart, n.value.nodeCount))
  {
    ctx', res, classId := ctx, Noop, node.id;
    var src := TargetDoc(r.file, env.expanded, ctx.out);
    if src.None? { return ctx, res, classId, false; }
    var out;
    out, res, ok := CopyRecur(src.value, r.file, ctx.out, node.id, r.ptr.level, r.ptr.level, shifted, r.ptr.index);
    if !ok { return; }
    ExtendsGrows(ctx.out, out);
    ctx', classId := ctx.(out := out), PointerTo(env, r);
  }

  /**
   * Does the class arm run to the end, writing a class node: the base is `Self`
   * or a built-in root, or it resolves to a class?
   */
  ghost predicate ExpandsClass(env: Env, ctx: Expansion, node: LiveNode, outLevel: nat, outStart: nat)
    requires node.value.Class?
  {
    !Inherits(node)
    || (var r := BaseResolution(env, ctx, node, outLevel, outStart);
        r.Found? && TargetNode(env, ctx.out, r).Some? && CopyOutcome(TargetNode(env, ctx.out, r).value).IsClass?)
  }

  /** The base a written class node records: a pointer to the resolved base, or the base id itself. */
  ghost function ClassId(env: Env, ctx: Expansion, node: LiveNode, outLevel: nat, outStart: nat): IdPack
    requires node.value.Class?
  {
    if Inherits(node) && BaseResolution(env, ctx, node, outLevel, outStart).Found?
    then PointerTo(env, BaseResolution(env, ctx, node, outLevel, outStart))
    else node.value.base
  }

  /**
   * The tokens and ids the base copy puts at the start of the class's children:
   * the open class's fields for `Self`, the base class's children for a resolved
   * base, nothing for a built-in root.
   */
  ghost function BaseHeads(env: Env, ctx: Expansion, node: LiveNode, outLevel: nat, outStart: nat): seq<(TokenId, IdPack)>
    requires node.value.Class?
  {
    if !Inherits(node) then
      if node.value.base == SELF_PACK
      then ChildHeads(ctx.out, node.id, 0, outLevel, outStart, SelfCount(ctx.out, outLevel, outStart))
      else []
    else
      var r := BaseResolution(env, ctx, node, outLevel, outStart);
      if r.Found? && TargetNode(env, ctx.out, r).Some? && HasChildren(TargetNode(env, ctx.out, r).value.value) then
        var n := TargetNode(env, ctx.out, r).value;
        ChildHeads(TargetDoc(r.file, env.expanded, ctx.out).value, node.id, r.ptr.level, r.ptr.level + 1,
                   n.value.nodeStart, n.value.nodeCount)
      else []
  }

  /**
   * A class node was written at `outLevel` over `a`, giving `b`: its children run
   * from the old end of level `sh + 1` and begin with the tokens and ids `heads`;
   * the node holds `classId`, that start and the run's length in 16 bits.
   */
  ghost predicate ClassWritten(a: LiveDocument, b: LiveDocument, outLevel: nat, outStart: nat, outCount: nat,
                               node: LiveNode, sh: nat, heads: seq<(TokenId, IdPack)>, classId: IdPack)
  {
    var start := GetLevelLen(a, sh + 1);
    && start + |heads| <= GetLevelLen(b, sh + 1)
    && Heads(Level(b, sh + 1)[start..start + |heads|]) == heads
    && Level(b, outLevel) == Level(WriteOrAddNode(a, outLevel, outStart, outCount,
         LiveNode(node.token, node.id, Class(classId, start, U16(GetLevelLen(b, sh + 1) - start)))).0, outLevel)
  }

  /**
   * The class node written over `d` once the overrides are walked: the level it is
   * written at is the one the class started from, and the children written since
   * `a` keep the tokens and ids they had in `c`.
   */
  lemma ClassWrittenBy(a: LiveDocument, c: LiveDocument, d: LiveDocument, b: LiveDocument, outLevel: nat, outStart: nat,
                       outCount: nat, node: LiveNode, sh: nat, classId: IdPack)
    requires outLevel <= sh
    requires Level(c, outLevel) == Level(a, outLevel) && Level(d, outLevel) == Level(c, outLevel)
    requires GetLevelLen(a, sh + 1) <= GetLevelLen(c, sh + 1) && Heads(Level(c, sh + 1)) <= Heads(Level(d, sh + 1))
    requires b == WriteOrAddNode(d, outLevel, outStart, outCount,
                  LiveNode(node.token, node.id, Class(classId, GetLevelLen(a, sh + 1),
                                                      U16(GetLevelLen(d, sh + 1) - GetLevelLen(a, sh + 1))))).0
    ensures ClassWritten(a, b, outLevel, outStart, outCount, node, sh, Heads(Level(c, sh + 1)[GetLevelLen(a, sh + 1)..]), classId)
  {
    var start := GetLevelLen(a, sh + 1);
    var newNode := LiveNode(node.token, node.id, Class(classId, start, U16(GetLevelLen(d, sh + 1) - start)));
    WriteSameLevel(d, a, outLevel, outStart, outCount, newNode);
    assert Level(b, sh + 1) == Level(d, sh + 1);
    HeadsWindow(Level(c, sh + 1), Level(b, sh + 1), start, Heads(Level(c, sh + 1)[start..]));
  }

  /**
   * The end of the class arm as a whole: from the state before the base copy, the
   * walk of the overrides, the popped frame and the written class node make
   * progress, leave the lower levels alone and write the class.
   */
  lemma OverridesWritten(ctx: Expansion, c2: Expansion, c3: Expansion, w: Expansion, outLevel: nat, outStart: nat,
                         outCount: nat, node: LiveNode, sh: nat, classId: IdPack)
    requires outLevel <= sh && c2.stack == ctx.stack + [[]]
    requires Progress(ctx, c2) && Below(ctx.out, c2.out, outLevel) && Level(c2.out, outLevel) == Level(ctx.out, outLevel)
    requires GetLevelLen(ctx.out, sh + 1) <= GetLevelLen(c2.out, sh + 1)
    requires Progress(c2, c3) && Below(c2.out, c3.out, sh + 1)
    requires Progress(c3.(stack := c3.stack[..|c3.stack| - 1]), w)
    requires w.out == WriteOrAddNode(c3.out, outLevel, outStart, outCount,
                        LiveNode(node.token, node.id, Class(classId, GetLevelLen(ctx.out, sh + 1),
                                 U16(GetLevelLen(c3.out, sh + 1) - GetLevelLen(ctx.out, sh + 1))))).0
    ensures Progress(ctx, w) && Below(ctx.out, w.out, outLevel)
    ensures ClassWritten(ctx.out, w.out, outLevel, outStart, outCount, node, sh,
                         Heads(Level(c2.out, sh + 1)[GetLevelLen(ctx.out, sh + 1)..]), classId)
  {
    var popped := c3.(stack := c3.stack[..|c3.stack| - 1]);
    assert c2.stack[..|c2.stack| - 1] == ctx.stack;
    assert Progress(c2.(stack := c2.stack[..|c2.stack| - 1]), popped);
    ProgressTrans(c2.(stack := c2.stack[..|c2.stack| - 1]), popped, w);
    ProgressTrans(ctx, c2.(stack := c2.stack[..|c2.stack| - 1]), w);
    assert Level(c3.out, outLevel) == Level(c2.out, outLevel);
    assert Heads(Level(c2.out, sh + 1)) <= Heads(Level(c3.out, sh + 1));
    ClassWrittenBy(ctx.out, c2.out, c3.out, w.out, outLevel, outStart, outCount, node, sh, classId);
  }

  /**
   * The class arm: a frame is pushed for the class, the base is copied, the
   * override fields are walked over the copy (one level below the shifted
   * level, overriding within the copied span), the frame is popped and the class
   * node written. A base that fails to resolve records the error and ends the
   * arm; so does a non-class base with override fields ("Cannot override items
   * in non-class"), which leaves only the copy of the base. On both of these
   * early returns the class's frame stays on the stack, as in the source.
   */
  method WalkClass(env: Env, ctx: Expansion, inLevel: nat, outLevel: nat, outStart: nat, outCount: nat, node: LiveNode)
    returns (ctx': Expansion, ok: bool)
    requires inLevel < |env.inDoc.nodes|
    requires node.value.Class?
    decreases |env.inDoc.nodes| - inLevel, 1
    ensures ok ==> Progress(ctx, ctx') && Below(ctx.out, ctx'.out, outLevel)
    ensures ok ==> ShiftedLevel(node.id, outLevel).Some?
    ensures ok && ExpandsClass(env, ctx, node, outLevel, outStart) ==>
      ClassWritten(ctx.out, ctx'.out, outLevel, outStart, outCount, node, ShiftedLevel(node.id, outLevel).value,
                   BaseHeads(env, ctx, node, outLevel, outStart), ClassId(env, ctx, node, outLevel, outStart))
    ensures ok && Inherits(node) && BaseResolution(env, ctx, node, outLevel, outStart).Failed? ==>
      ctx' == Expansion(ctx.out, ctx.stack + [[]],
                        ctx.errors + [LiveError(BaseResolution(env, ctx, node, outLevel, outStart).kind, node.token)])
    ensures ok && Inherits(node) && node.value.nodeCount > 0 ==>
      var r := BaseResolution(env, ctx, node, outLevel, outStart);
      r.Found? ==> TargetNode(env, ctx.out, r).Some? && (
      !CopyOutcome(TargetNode(env, ctx.out, r).value).IsClass? ==>
        var sh := ShiftedLevel(node.id, outLevel).value;
        var src := TargetDoc(r.file, env.expanded, ctx.out).value;
        && ctx'.errors == ctx.errors + [LiveError(CannotOverrideNonClass, node.token)]
        && ctx'.stack == ctx.stack + [[]]
        && (forall l: nat :: l < sh ==> Level(ctx'.out, l) == Level(ctx.out, l))
        && Level(ctx'.out, sh) == Level(ctx.out, sh)
           + EmittedRoot(TargetNode(env, ctx.out, r).value, r.file, src.multiIds, ctx.out, node.id, r.ptr.level, r.ptr.level, sh))
  {
    var shifted := ShiftedLevel(node.id, outLevel);
    if shifted.None? { return ctx, false; }
    var sh := shifted.value;
    var newOutStart := GetLevelLen(ctx.out, sh + 1);
    var c2, res, classId, failed;
    c2, res, classId, failed, ok := ClassBase(env, ctx, node, outLevel, outStart, sh);
    if !ok { return ctx, false; }
    if failed {
      return c2, true;
    }
    if !res.IsClass? && node.value.nodeCount > 0 {
      ctx' := c2.(errors := c2.errors + [LiveError(CannotOverrideNonClass, node.token)]);
      assert Progress(c2, ctx');
      ProgressTrans(ctx, c2, ctx');
      return ctx', true;
    }
    if !res.IsClass? {
      // a pure alias: the copy is all there is
      ctx' := c2.(stack := c2.stack[..|c2.stack| - 1]);
      assert StackExtends(ctx.stack, ctx'.stack);
      return ctx', true;
    }
    ctx', ok := ClassOverrides(env, ctx, c2, inLevel, outLevel, outStart, outCount, node, sh, newOutStart, classId);
    if !ok { return ctx, false; }
  }

  /**
   * The end of the class arm, once a class base is copied: the override fields are
   * walked over the copy (one level below the shifted level, overriding within the
   * copied span), the innermost frame is popped and the class node written with
   * the run of its children.
   */
  method ClassOverrides(env: Env, ctx: Expansion, c2: Expansion, inLevel: nat, outLevel: nat, outStart: nat,
                        outCount: nat, node: LiveNode, sh: nat, newOutStart: nat, classId: IdPack)
    returns (ctx': Expansion, ok: bool)
    requires inLevel < |env.inDoc.nodes|
    requires node.value.Class?
    requires outLevel <= sh && c2.stack == ctx.stack + [[]]
    requires Progress(ctx, c2) && Below(ctx.out, c2.out, outLevel) && Level(c2.out, outLevel) == Level(ctx.out, outLevel)
    requires newOutStart == GetLevelLen(ctx.out, sh + 1) <= GetLevelLen(c2.out, sh + 1)
    decreases |env.inDoc.nodes| - inLevel, 0
    ensures ok ==> Progress(ctx, ctx') && Below(ctx.out, ctx'.out, outLevel)
    ensures ok ==>
      ClassWritten(ctx.out, ctx'.out, outLevel, outStart, outCount, node, sh, Heads(Level(c2.out, sh + 1)[newOutStart..]), classId)
  {
    var count0 := GetLevelLen(c2.out, sh + 1) - newOutStart;
    var c3;
    c3, ok := WalkChildren(env, c2, inLevel + 1, sh + 1, node.value.nodeStart, node.value.nodeCount, newOutStart, count0);
    if !ok { return c2, false; }
    var count1 := U16(GetLevelLen(c3.out, sh + 1) - newOutStart);
    var newNode := LiveNode(node.token, node.id, Class(classId, newOutStart, count1));
    match Write(c3.(stack := c3.stack[..|c3.stack| - 1]), outLevel, outStart, outCount, newNode) {
      case None => return c2, false;
      case Some(wr) =>
        OverridesWritten(ctx, c2, c3, wr.ctx, outLevel, outStart, outCount, node, sh, classId);
        return wr.ctx, true;
    }
  }
}
