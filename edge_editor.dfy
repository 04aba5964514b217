/**
 * The edge editor panel (src/components/Sidebar/EdgeEditor.tsx; the older
 * inline copy in src/components/Sidebar.tsx has only the delete button and
 * the condition field): the parameter list edited as a string map, with the
 * key and value inputs held in component state, the condition field and
 * delete.
 */
module EdgeEditing {
  import opened FlowTypes
  import Strings
  import FlowStore

  /** `edge.parameters || {}`. */
  function CurrentParams(e: Edge): (r: Params)
    ensures e.parameters.Some? ==> r == e.parameters.value
    ensures e.parameters.None? ==> r == map[]
  {
    if e.parameters.Some? then e.parameters.value else map[]
  }

  /** `{ ...params, [key]: value }`: the key is set (or overwritten), every other entry stays. */
  function WithParam(params: Params, key: string, value: string): (r: Params)
    ensures r.Keys == params.Keys + {key}
    ensures r[key] == value
    ensures forall k :: k in params && k != key ==> r[k] == params[k]
  {
    params[key := value]
  }

  /** A copy of the map with `delete copy[key]` applied: exactly that key goes. */
  function WithoutParam(params: Params, key: string): (r: Params)
    ensures r.Keys == params.Keys - {key}
    ensures forall k :: k in r ==> r[k] == params[k]
  {
    params - {key}
  }

  /** Removing an absent key changes nothing. */
  lemma RemoveAbsentIsNoOp(params: Params, key: string)
    requires key !in params
    ensures WithoutParam(params, key) == params
  {
  }

  /** Adding a fresh key and then removing it gives back the original map. */
  lemma AddThenRemoveRestores(params: Params, key: string, value: string)
    requires key !in params
    ensures WithoutParam(WithParam(params, key, value), key) == params
  {
  }

  /** Removing a key and adding it again is the same as overwriting it. */
  lemma RemoveThenAddOverwrites(params: Params, key: string, value: string)
    ensures WithParam(WithoutParam(params, key), key, value) == WithParam(params, key, value)
  {
  }

  /** An UPDATE_EDGE patch holding only `parameters`. */
  function ParamsPatch(params: Params): EdgePatch {
    EdgePatch(None, None, None, None, Some(params))
  }

  /** The add button: nothing for a key that trims to "", else the extended map, keyed by the untrimmed key. */
  function AddParamEffects(e: Edge, key: string, value: string): (r: seq<Action>)
    ensures r == [] <==> Strings.Trim(key) == ""
    ensures r != [] ==> r == [UpdateEdge(e.id, ParamsPatch(WithParam(CurrentParams(e), key, value)))]
  {
    if Strings.Trim(key) == "" then [] else [UpdateEdge(e.id, ParamsPatch(WithParam(CurrentParams(e), key, value)))]
  }

  /** A key made only of whitespace (or empty) is refused. */
  lemma BlankKeyRefused(e: Edge, key: string, value: string)
    ensures AddParamEffects(e, key, value) == [] <==> forall i :: 0 <= i < |key| ==> Strings.IsWhitespace(key[i])
  {
    Strings.TrimEmptyIffBlank(key);
  }

  /** The remove button beside one parameter. */
  function RemoveParamEffects(e: Edge, key: string): seq<Action> {
    [UpdateEdge(e.id, ParamsPatch(WithoutParam(CurrentParams(e), key)))]
  }

  /** A parameter edit sets the parameters of the edges with that id and changes nothing else. */
  lemma ParamsEditTouchesOneField(s: FlowState, edgeId: string, params: Params, i: nat)
    requires i < |s.edges|
    ensures var r := FlowStore.Reduce(s, UpdateEdge(edgeId, ParamsPatch(params)));
      && |r.edges| == |s.edges|
      && r.edges[i] == (if s.edges[i].id == edgeId then s.edges[i].(parameters := Some(params)) else s.edges[i])
      && r == s.(edges := r.edges)
  {
    FlowStore.UpdateEdgeEffect(s, edgeId, ParamsPatch(params));
  }

  /**
   * Adding a parameter to the edge being edited (found at index i) and then
   * removing the same fresh key leaves that edge's parameters as the map it
   * started from (`{}` when it had none).
   */
  lemma AddThenRemoveFromEdge(s: FlowState, i: nat, key: string, value: string)
    requires i < |s.edges| && Strings.Trim(key) != "" && key !in CurrentParams(s.edges[i])
    ensures var e := s.edges[i];
      var s1 := FlowStore.ApplyAll(s, AddParamEffects(e, key, value));
      i < |s1.edges| &&
      var s2 := FlowStore.ApplyAll(s1, RemoveParamEffects(s1.edges[i], key));
      i < |s2.edges| && s2.edges[i] == e.(parameters := Some(CurrentParams(e)))
  {
    var e := s.edges[i];
    var p1 := WithParam(CurrentParams(e), key, value);
    var s1 := FlowStore.Reduce(s, UpdateEdge(e.id, ParamsPatch(p1)));
    assert FlowStore.ApplyAll(s, AddParamEffects(e, key, value)) == s1;
    ParamsEditTouchesOneField(s, e.id, p1, i);
    var e1 := s1.edges[i];
    assert e1 == e.(parameters := Some(p1));
    var p2 := WithoutParam(CurrentParams(e1), key);
    AddThenRemoveRestores(CurrentParams(e), key, value);
    assert p2 == CurrentParams(e);
    var s2 := FlowStore.Reduce(s1, UpdateEdge(e1.id, ParamsPatch(p2)));
    assert FlowStore.ApplyAll(s1, RemoveParamEffects(e1, key)) == s2;
    ParamsEditTouchesOneField(s1, e1.id, p2, i);
  }

  /** The condition field: a patch holding only `condition`. */
  function ConditionEffects(edgeId: string, text: string): seq<Action> {
    [UpdateEdge(edgeId, EdgePatch(None, None, None, Some(text), None))]
  }

  /** A condition edit changes that field of the edges with the id and nothing else. */
  lemma ConditionEditTouchesOneField(s: FlowState, edgeId: string, text: string, i: nat)
    requires i < |s.edges|
    ensures var r := FlowStore.ApplyAll(s, ConditionEffects(edgeId, text));
      && |r.edges| == |s.edges|
      && r.edges[i] == (if s.edges[i].id == edgeId then s.edges[i].(condition := text) else s.edges[i])
      && r == s.(edges := r.edges)
  {
    var p := EdgePatch(None, None, None, Some(text), None);
    FlowStore.UpdateEdgeEffect(s, edgeId, p);
    assert FlowStore.ApplyAll(s, ConditionEffects(edgeId, text)) == FlowStore.Reduce(s, UpdateEdge(edgeId, p));
  }

  /** The delete button. */
  function RemoveEffects(edgeId: string): seq<Action> {
    [RemoveEdge(edgeId)]
  }

  /** Deleting from the editor removes the edge and clears its selection. */
  lemma RemoveFromEditor(s: FlowState, edgeId: string)
    requires s.selectedEdgeId == Some(edgeId)
    ensures var r := FlowStore.ApplyAll(s, RemoveEffects(edgeId));
      edgeId !in EdgeIds(r.edges) && r.selectedEdgeId.None? && r.nodes == s.nodes
  {
    FlowStore.RemoveEdgeEffect(s, edgeId);
    assert FlowStore.ApplyAll(s, RemoveEffects(edgeId)) == FlowStore.Reduce(s, RemoveEdge(edgeId));
  }

  /** The two inputs of the add-parameter row. */
  class EdgeEditor {
    var newKey: string
    var newValue: string

    constructor ()
      ensures newKey == "" && newValue == ""
    {
      newKey := "";
      newValue := "";
    }

    method KeyChange(text: string)
      modifies this
      ensures newKey == text && newValue == old(newValue)
    {
      newKey := text;
    }

    method ValueChange(text: string)
      modifies this
      ensures newValue == text && newKey == old(newKey)
    {
      newValue := text;
    }

    /** The add button is disabled while the key trims to "". */
    predicate AddEnabled()
      reads this
    {
      Strings.Trim(newKey) != ""
    }

    /**
     * `handleAddParam`: with a blank key nothing happens and both inputs
     * keep their text; otherwise the extended map is dispatched and both
     * inputs are reset to "".
     */
    method AddParam(e: Edge) returns (effects: seq<Action>)
      modifies this
      ensures effects == AddParamEffects(e, old(newKey), old(newValue))
      ensures effects != [] <==> old(AddEnabled())
      ensures effects == [] ==> newKey == old(newKey) && newValue == old(newValue)
      ensures effects != [] ==> newKey == "" && newValue == ""
    {
      if Strings.Trim(newKey) == "" {
        return [];
      }
      var updated := CurrentParams(e)[newKey := newValue];
      effects := [UpdateEdge(e.id, ParamsPatch(updated))];
      newKey := "";
      newValue := "";
    }
  }
}
