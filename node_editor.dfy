/**
 * The node editor panel (src/components/Sidebar/NodeEditor.tsx, and the
 * older inline copy in src/components/Sidebar.tsx, which behaves the same):
 * the id field guarded by a uniqueness check that keeps an error message in
 * component state, set-as-start, delete, and the description and prompt
 * fields.
 */
module NodeEditing {
  import opened FlowTypes
  import FlowStore

  const UniqueIdError: string := "ID must be unique"

  /** The error the id field shows after the user types `newId` into node `nodeId`'s id field. */
  function IdError(nodes: seq<Node>, nodeId: string, newId: string): (r: Option<string>)
    ensures r.Some? <==> newId != nodeId && newId in NodeIds(nodes)
    ensures r.Some? ==> r.value == UniqueIdError
  {
    if newId == nodeId then None
    else if exists n :: n in nodes && n.id == newId then Some(UniqueIdError)
    else None
  }

  /** What the same keystroke dispatches: one id-only UPDATE_NODE, or nothing. */
  function IdChangeEffects(nodes: seq<Node>, nodeId: string, newId: string): (r: seq<Action>)
    ensures r == [] <==> newId == nodeId || newId in NodeIds(nodes)
    ensures r != [] ==> r == [UpdateNode(nodeId, IdPatch(newId))]
  {
    if newId == nodeId then []
    else if exists n :: n in nodes && n.id == newId then []
    else [UpdateNode(nodeId, IdPatch(newId))]
  }

  /** A dispatch happens exactly when no error is shown and the id actually changed. */
  lemma DispatchIffNoErrorAndChanged(nodes: seq<Node>, nodeId: string, newId: string)
    ensures IdChangeEffects(nodes, nodeId, newId) != [] <==>
      IdError(nodes, nodeId, newId).None? && newId != nodeId
  {
  }

  /** Every rename the guard lets through keeps node ids unique. */
  lemma GuardedRenameKeepsIdsUnique(s: FlowState, nodeId: string, newId: string)
    requires FlowStore.UniqueNodeIds(s.nodes)
    ensures FlowStore.UniqueNodeIds(FlowStore.ApplyAll(s, IdChangeEffects(s.nodes, nodeId, newId)).nodes)
  {
    var effects := IdChangeEffects(s.nodes, nodeId, newId);
    if effects != [] {
      FlowStore.RenameKeepsIdsUnique(s, nodeId, IdPatch(newId));
      assert FlowStore.ApplyAll(s, effects) == FlowStore.Reduce(s, effects[0]);
    }
  }

  /** A guarded rename to a non-empty id keeps referential integrity. */
  lemma GuardedRenameKeepsIntegrity(s: FlowState, nodeId: string, newId: string)
    requires FlowStore.Integrity(s) && newId != ""
    ensures FlowStore.Integrity(FlowStore.ApplyAll(s, IdChangeEffects(s.nodes, nodeId, newId)))
  {
    var effects := IdChangeEffects(s.nodes, nodeId, newId);
    if effects != [] {
      FlowStore.RenamePreservesIntegrity(s, nodeId, IdPatch(newId));
      assert FlowStore.ApplyAll(s, effects) == FlowStore.Reduce(s, effects[0]);
    }
  }

  /**
   * The guard checks only uniqueness: clearing the id field of a node with
   * an outgoing edge passes it, and the reducer then skips the edge cascade,
   * leaving that edge's source dangling.
   */
  lemma GuardAdmitsEmptyId(s: FlowState, nodeId: string, k: nat)
    requires FlowStore.UniqueNodeIds(s.nodes)
    requires nodeId != "" && "" !in NodeIds(s.nodes)
    requires k < |s.edges| && s.edges[k].sourceNodeId == nodeId
    ensures IdChangeEffects(s.nodes, nodeId, "") == [UpdateNode(nodeId, IdPatch(""))]
    ensures !FlowStore.EdgesValid(FlowStore.ApplyAll(s, IdChangeEffects(s.nodes, nodeId, "")))
  {
    var effects := IdChangeEffects(s.nodes, nodeId, "");
    FlowStore.EmptyRenameOrphansEdges(s, nodeId, k);
    assert FlowStore.ApplyAll(s, effects) == FlowStore.Reduce(s, effects[0]);
  }

  /** The id field's component state. */
  class NodeEditor {
    var errorId: Option<string>

    constructor ()
      ensures errorId.None?
    {
      errorId := None;
    }

    /** `handleIdChange`: update the error message and dispatch the rename if it is allowed. */
    method IdChange(s: FlowState, node: Node, newId: string) returns (effects: seq<Action>)
      modifies this
      ensures errorId == IdError(s.nodes, node.id, newId)
      ensures effects == IdChangeEffects(s.nodes, node.id, newId)
    {
      if newId == node.id {
        errorId := None;
        return [];
      }
      if exists n :: n in s.nodes && n.id == newId {
        errorId := Some(UniqueIdError);
        effects := [];
      } else {
        errorId := None;
        effects := [UpdateNode(node.id, IdPatch(newId))];
      }
    }
  }

  /** `isStartNode`. */
  predicate IsStartNode(s: FlowState, nodeId: string) {
    s.startNodeId == Some(nodeId)
  }

  /** The set-as-start button: disabled, so silent, on the start node itself. */
  function SetStartEffects(s: FlowState, nodeId: string): (r: seq<Action>)
    ensures r == [] <==> IsStartNode(s, nodeId)
    ensures r != [] ==> r == [SetStartNode(nodeId)]
  {
    if IsStartNode(s, nodeId) then [] else [SetStartNode(nodeId)]
  }

  /** Whether or not the button was enabled, afterwards the node is the start node, and nothing else changed. */
  lemma SetStartMakesStart(s: FlowState, nodeId: string)
    ensures var r := FlowStore.ApplyAll(s, SetStartEffects(s, nodeId));
      IsStartNode(r, nodeId) && r == s.(startNodeId := Some(nodeId))
  {
    if !IsStartNode(s, nodeId) {
      assert FlowStore.ApplyAll(s, [SetStartNode(nodeId)]) == FlowStore.Reduce(s, SetStartNode(nodeId));
    }
  }

  /** The delete button. */
  function RemoveEffects(nodeId: string): seq<Action> {
    [RemoveNode(nodeId)]
  }

  /** Deleting from the editor removes the node, its edges and every pointer to it. */
  lemma RemoveFromEditor(s: FlowState, nodeId: string)
    ensures var r := FlowStore.ApplyAll(s, RemoveEffects(nodeId));
      && nodeId !in NodeIds(r.nodes)
      && (forall e :: e in r.edges ==> e.sourceNodeId != nodeId && e.targetNodeId != nodeId)
      && r.selectedNodeId != Some(nodeId) && r.startNodeId != Some(nodeId)
      && (s.selectedNodeId == Some(nodeId) ==> r.selectedNodeId.None?)
  {
    FlowStore.RemoveNodeCascade(s, nodeId);
    assert FlowStore.ApplyAll(s, RemoveEffects(nodeId)) == FlowStore.Reduce(s, RemoveNode(nodeId));
  }

  /** The description field: a patch holding only `description`. */
  function DescriptionEffects(nodeId: string, text: string): seq<Action> {
    [UpdateNode(nodeId, NodePatch(None, Some(text), None, None))]
  }

  /** The prompt field: a patch holding only `prompt`. */
  function PromptEffects(nodeId: string, text: string): seq<Action> {
    [UpdateNode(nodeId, NodePatch(None, None, Some(text), None))]
  }

  /** The description shows as missing when it is absent or empty. */
  predicate DescriptionMissing(n: Node) {
    !Truthy(n.description)
  }

  /** A description edit changes that field of the node with the id and nothing else. */
  lemma DescriptionEditTouchesOneField(s: FlowState, nodeId: string, text: string, i: nat)
    requires i < |s.nodes|
    ensures var r := FlowStore.ApplyAll(s, DescriptionEffects(nodeId, text));
      && |r.nodes| == |s.nodes|
      && r.nodes[i] == (if s.nodes[i].id == nodeId then s.nodes[i].(description := Some(text)) else s.nodes[i])
      && r == s.(nodes := r.nodes)
  {
    var p := NodePatch(None, Some(text), None, None);
    FlowStore.UpdateWithoutIdSkipsCascade(s, nodeId, p);
    assert FlowStore.ApplyAll(s, DescriptionEffects(nodeId, text)) == FlowStore.Reduce(s, UpdateNode(nodeId, p));
  }

  /** The missing-description indicator shows after an edit exactly when the field was cleared. */
  lemma DescriptionIndicatorFollowsEdit(s: FlowState, nodeId: string, text: string, i: nat)
    requires i < |s.nodes| && s.nodes[i].id == nodeId
    ensures var r := FlowStore.ApplyAll(s, DescriptionEffects(nodeId, text));
      i < |r.nodes| && (DescriptionMissing(r.nodes[i]) <==> text == "")
  {
    DescriptionEditTouchesOneField(s, nodeId, text, i);
  }

  /** A prompt edit changes that field of the node with the id and nothing else. */
  lemma PromptEditTouchesOneField(s: FlowState, nodeId: string, text: string, i: nat)
    requires i < |s.nodes|
    ensures var r := FlowStore.ApplyAll(s, PromptEffects(nodeId, text));
      && |r.nodes| == |s.nodes|
      && r.nodes[i] == (if s.nodes[i].id == nodeId then s.nodes[i].(prompt := text) else s.nodes[i])
      && r == s.(nodes := r.nodes)
  {
    var p := NodePatch(None, None, Some(text), None);
    FlowStore.UpdateWithoutIdSkipsCascade(s, nodeId, p);
    assert FlowStore.ApplyAll(s, PromptEffects(nodeId, text)) == FlowStore.Reduce(s, UpdateNode(nodeId, p));
  }
}
