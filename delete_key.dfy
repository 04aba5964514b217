/**
 * The global Delete / Backspace handler (src/App.tsx): unless the focused
 * element is an INPUT or a TEXTAREA, delete the selected node, or else the
 * selected edge.
 */
module DeleteKey {
  import opened FlowTypes
  import FlowStore

  /** The focused element's tag is INPUT or TEXTAREA (no focused element: None). */
  predicate Typing(activeTag: Option<string>) {
    activeTag == Some("INPUT") || activeTag == Some("TEXTAREA")
  }

  predicate IsDeleteKey(key: string) {
    key == "Backspace" || key == "Delete"
  }

  /** `handleKeyDown`: at most one removal; a truthy node selection wins over the edge selection. */
  function DeleteKeyEffects(activeTag: Option<string>, key: string, s: FlowState): (r: seq<Action>)
    ensures |r| <= 1
    ensures r != [] <==> !Typing(activeTag) && IsDeleteKey(key) && (Truthy(s.selectedNodeId) || Truthy(s.selectedEdgeId))
    ensures r != [] && Truthy(s.selectedNodeId) ==> r == [RemoveNode(s.selectedNodeId.value)]
    ensures r != [] && !Truthy(s.selectedNodeId) ==> r == [RemoveEdge(s.selectedEdgeId.value)]
  {
    if Typing(activeTag) || !IsDeleteKey(key) then []
    else if Truthy(s.selectedNodeId) then [RemoveNode(s.selectedNodeId.value)]
    else if Truthy(s.selectedEdgeId) then [RemoveEdge(s.selectedEdgeId.value)]
    else []
  }

  /** A focused SELECT does not block deletion (unlike the canvas shortcuts). */
  lemma SelectDoesNotBlock(key: string, s: FlowState)
    requires IsDeleteKey(key) && Truthy(s.selectedNodeId)
    ensures DeleteKeyEffects(Some("SELECT"), key, s) == [RemoveNode(s.selectedNodeId.value)]
  {
  }

  /**
   * After the key the selected item is gone: a selected node with its edges
   * and its selection, or else a selected edge with its selection.
   */
  lemma DeleteRemovesSelection(s: FlowState, key: string)
    requires IsDeleteKey(key)
    ensures var r := FlowStore.ApplyAll(s, DeleteKeyEffects(None, key, s));
      && (Truthy(s.selectedNodeId) ==>
            && s.selectedNodeId.value !in NodeIds(r.nodes)
            && r.selectedNodeId.None?
            && (forall e :: e in r.edges ==> e.sourceNodeId != s.selectedNodeId.value && e.targetNodeId != s.selectedNodeId.value))
      && (!Truthy(s.selectedNodeId) && Truthy(s.selectedEdgeId) ==>
            s.selectedEdgeId.value !in EdgeIds(r.edges) && r.selectedEdgeId.None? && r.nodes == s.nodes)
      && (!Truthy(s.selectedNodeId) && !Truthy(s.selectedEdgeId) ==> r == s)
  {
    var effects := DeleteKeyEffects(None, key, s);
    if Truthy(s.selectedNodeId) {
      FlowStore.RemoveNodeCascade(s, s.selectedNodeId.value);
      assert FlowStore.ApplyAll(s, effects) == FlowStore.Reduce(s, effects[0]);
    } else if Truthy(s.selectedEdgeId) {
      FlowStore.RemoveEdgeEffect(s, s.selectedEdgeId.value);
      assert FlowStore.ApplyAll(s, effects) == FlowStore.Reduce(s, effects[0]);
    }
  }
}
