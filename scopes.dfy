/**
 * The scope stack the expansion walker builds: frames of bindings, innermost last.
 * A lookup scans frames innermost-first and, inside a frame, the latest binding first.
 */
module Scopes {
  import opened Wrappers
  import opened LiveIds
  import opened LiveDocs

  type ScopeStack = seq<seq<ScopeItem>>

  /** The position of the latest binding of `id` in one frame. */
  function LastInFrame(frame: seq<ScopeItem>, id: Id): (r: Option<nat>)
    ensures r.Some? ==> r.value < |frame| && frame[r.value].id == id
    ensures r.Some? ==> forall j :: r.value < j < |frame| ==> frame[j].id != id
    ensures r.None? ==> forall j :: 0 <= j < |frame| ==> frame[j].id != id
  {
    if frame == [] then None
    else if frame[|frame| - 1].id == id then Some(|frame| - 1)
    else LastInFrame(frame[..|frame| - 1], id)
  }

  /** The reference lookup: the innermost frame holding `id` answers with its latest binding. */
  function FindItemSpec(stack: ScopeStack, id: Id): Option<ScopeTarget>
    decreases |stack|
  {
    if stack == [] then None
    else
      match LastInFrame(stack[|stack| - 1], id)
      case Some(j) => Some(stack[|stack| - 1][j].target)
      case None => FindItemSpec(stack[..|stack| - 1], id)
  }

  /** Some frame binds `id`. */
  ghost predicate Binds(stack: ScopeStack, id: Id)
  {
    exists f, j :: 0 <= f < |stack| && 0 <= j < |stack[f]| && stack[f][j].id == id
  }

  /** `stack[f][j]` is the binding of `id` that shadows every other one. */
  ghost predicate IsVisibleBinding(stack: ScopeStack, id: Id, f: nat, j: nat)
  {
    && f < |stack| && j < |stack[f]| && stack[f][j].id == id
    && (forall k :: j < k < |stack[f]| ==> stack[f][k].id != id)
    && (forall g, k :: f < g < |stack| && 0 <= k < |stack[g]| ==> stack[g][k].id != id)
  }

  /** The lookup fails exactly when no frame binds the id. */
  lemma {:induction false} FindItemNoneIff(stack: ScopeStack, id: Id)
    ensures FindItemSpec(stack, id).None? <==> !Binds(stack, id)
    decreases |stack|
  {
    if stack != [] {
      var top := |stack| - 1;
      var inner := stack[..top];
      match LastInFrame(stack[top], id)
      case Some(j) =>
        assert stack[top][j].id == id;
      case None =>
        FindItemNoneIff(inner, id);
        if Binds(stack, id) {
          var f, j :| 0 <= f < |stack| && 0 <= j < |stack[f]| && stack[f][j].id == id;
          assert f < top;
          assert inner[f][j].id == id;
        }
        if Binds(inner, id) {
          var f, j :| 0 <= f < |inner| && 0 <= j < |inner[f]| && inner[f][j].id == id;
          assert stack[f][j].id == id;
        }
    }
  }

  /** A successful lookup returns the target of the visible binding. */
  lemma {:induction false} FindItemFindsVisible(stack: ScopeStack, id: Id)
    requires FindItemSpec(stack, id).Some?
    ensures exists f: nat, j: nat :: IsVisibleBinding(stack, id, f, j)
                                     && stack[f][j].target == FindItemSpec(stack, id).value
    decreases |stack|
  {
    var top := |stack| - 1;
    var inner := stack[..top];
    match LastInFrame(stack[top], id)
    case Some(j) =>
      assert IsVisibleBinding(stack, id, top, j);
    case None =>
      FindItemFindsVisible(inner, id);
      var f: nat, j: nat :| IsVisibleBinding(inner, id, f, j)
                            && inner[f][j].target == FindItemSpec(inner, id).value;
      assert IsVisibleBinding(stack, id, f, j);
  }

  /** Pushing a binding onto the innermost frame makes it the one a lookup sees. */
  lemma PushShadows(stack: ScopeStack, item: ScopeItem)
    requires stack != []
    ensures var top := |stack| - 1;
      FindItemSpec(stack[top := stack[top] + [item]], item.id) == Some(item.target)
  {
  }

  /**
   * `ScopeStack::find_item`: scans the frames from the innermost outward and each
   * frame from its latest binding backward, returning the first match.
   */
  method FindItem(stack: ScopeStack, id: Id) returns (r: Option<ScopeTarget>)
    ensures r == FindItemSpec(stack, id)
  {
    var f := |stack|;
    assert stack[..f] == stack;
    while f > 0
      invariant 0 <= f <= |stack|
      invariant FindItemSpec(stack[..f], id) == FindItemSpec(stack, id)
    {
      var items := stack[f - 1];
      assert stack[..f][f - 1] == items;
      var j := |items|;
      assert items[..j] == items;
      while j > 0
        invariant 0 <= j <= |items|
        invariant LastInFrame(items[..j], id) == LastInFrame(items, id)
      {
        if items[j - 1].id == id {
          assert items[..j][j - 1] == items[j - 1];
          return Some(items[j - 1].target);
        }
        assert items[..j][..j - 1] == items[..j - 1];
        j := j - 1;
      }
      assert items[..0] == [];
      assert stack[..f][..f - 1] == stack[..f - 1];
      f := f - 1;
    }
    assert stack[..0] == [];
    return None;
  }
}
