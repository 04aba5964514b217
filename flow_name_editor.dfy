/**
 * The flow-name editor on the canvas (src/components/Canvas/FlowNameEditor.tsx):
 * a double-click opens a text field on a local copy of the name; blur
 * commits the trimmed text or reverts when it is blank; Enter blurs and
 * Escape reverts without committing.
 */
module FlowNameEditing {
  import opened FlowTypes
  import Strings
  import FlowStore

  /** The dispatch a blur makes for the text in the field. */
  function BlurEffects(localName: string): (r: seq<Action>)
    ensures r == [] <==> Strings.Trim(localName) == ""
    ensures r != [] ==> r == [SetFlowName(Strings.Trim(localName))]
  {
    var trimmed := Strings.Trim(localName);
    if trimmed != "" then [SetFlowName(trimmed)] else []
  }

  /** Every name the editor commits is non-empty and its own trim. */
  lemma CommittedNamesAreTrimmed(localName: string)
    ensures forall a :: a in BlurEffects(localName) ==>
      a.SetFlowName? && a.name != "" && Strings.Trim(a.name) == a.name
  {
    var t := Strings.Trim(localName);
    Strings.TrimIdempotent(localName);
    CommitIsTrimmed(t);
  }

  /** The commit for a text that is its own trim holds only that non-empty text. */
  lemma CommitIsTrimmed(t: string)
    requires Strings.Trim(t) == t
    ensures forall a :: a in (if t != "" then [SetFlowName(t)] else []) ==>
      a.SetFlowName? && a.name != "" && Strings.Trim(a.name) == a.name
  {
  }

  /** After a blur the flow name is the trimmed text, or unchanged when that is blank; nothing else changes. */
  lemma BlurSetsName(s: FlowState, localName: string)
    ensures var r := FlowStore.ApplyAll(s, BlurEffects(localName));
      && (Strings.Trim(localName) != "" ==> r == s.(flowName := Strings.Trim(localName)))
      && (Strings.Trim(localName) == "" ==> r == s)
  {
    CommitSetsName(s, Strings.Trim(localName));
  }

  /** Dispatching the commit for an already trimmed text. */
  lemma CommitSetsName(s: FlowState, trimmed: string)
    ensures var r := FlowStore.ApplyAll(s, if trimmed != "" then [SetFlowName(trimmed)] else []);
      && (trimmed != "" ==> r == s.(flowName := trimmed))
      && (trimmed == "" ==> r == s)
  {
    if trimmed != "" {
      FlowStore.ApplyOne(s, SetFlowName(trimmed));
    }
  }

  /** Key presses in the open field. */
  datatype EditKey = Enter | Escape | OtherKey

  class FlowNameEditor {
    var isEditingName: bool
    var localName: string

    /** The field starts closed, on the store's name at mount. */
    constructor (flowName: string)
      ensures !isEditingName && localName == flowName
    {
      isEditingName := false;
      localName := flowName;
    }

    /** `handleDoubleClick`: copy the current name and open the field. */
    method DoubleClick(flowName: string)
      modifies this
      ensures isEditingName && localName == flowName
    {
      localName := flowName;
      isEditingName := true;
    }

    /** `handleNameChange`: only the local copy changes. */
    method NameChange(text: string)
      modifies this
      ensures localName == text && isEditingName == old(isEditingName)
    {
      localName := text;
    }

    /** `handleBlur`: commit the trimmed text, or revert when it is blank; close either way. */
    method Blur(flowName: string) returns (effects: seq<Action>)
      modifies this
      ensures effects == BlurEffects(old(localName))
      ensures !isEditingName
      ensures effects == [] ==> localName == flowName
      ensures effects != [] ==> localName == old(localName)
    {
      var trimmed := Strings.Trim(localName);
      effects := [];
      if trimmed != "" {
        effects := [SetFlowName(trimmed)];
      } else {
        localName := flowName;
      }
      isEditingName := false;
    }

    /** `handleKeyDown`: Enter blurs the field (and so commits), Escape reverts and closes silently. */
    method KeyDown(key: EditKey, flowName: string) returns (effects: seq<Action>)
      modifies this
      ensures key == Enter ==>
        effects == BlurEffects(old(localName)) && !isEditingName
        && (effects == [] ==> localName == flowName) && (effects != [] ==> localName == old(localName))
      ensures key == Escape ==> effects == [] && !isEditingName && localName == flowName
      ensures key == OtherKey ==>
        effects == [] && isEditingName == old(isEditingName) && localName == old(localName)
    {
      effects := [];
      if key == Enter {
        effects := Blur(flowName);
      } else if key == Escape {
        localName := flowName;
        isEditingName := false;
      }
    }
  }
}
