/**
 * The canvas keyboard shortcuts (src/hooks/useKeyboardShortcuts.ts): keys
 * typed into a form field are ignored; otherwise the lower-cased key picks
 * a pan of 50 pixels (w/a/s/d), one of the viewport callbacks, or nothing.
 */
module Shortcuts {
  import opened FlowTypes
  import Strings

  const PanStep: real := 50.0

  /** What a key press does: dispatch an action, or call one of the hook's callbacks. */
  datatype Command = Dispatch(action: Action) | ZoomIn | ZoomOut | Center | AddNewNode | NoCommand

  /** The event target's `tagName`, if it has one. */
  predicate InFormField(tag: Option<string>) {
    tag == Some("INPUT") || tag == Some("TEXTAREA") || tag == Some("SELECT")
  }

  /** The `switch` on the already lower-cased key. */
  function CommandForKey(key: string, t: Transform): Command {
    if key == "w" then Dispatch(SetTransform(t.(y := t.y - PanStep)))
    else if key == "a" then Dispatch(SetTransform(t.(x := t.x - PanStep)))
    else if key == "s" then Dispatch(SetTransform(t.(y := t.y + PanStep)))
    else if key == "d" then Dispatch(SetTransform(t.(x := t.x + PanStep)))
    else if key == "+" || key == "=" then ZoomIn
    else if key == "-" then ZoomOut
    else if key == "0" then Center
    else if key == "n" then AddNewNode
    else NoCommand
  }

  /** `handleKeyDown`. */
  function ShortcutFor(tag: Option<string>, key: string, t: Transform): Command {
    if InFormField(tag) then NoCommand else CommandForKey(Strings.ToLower(key), t)
  }

  /** Inside INPUT, TEXTAREA and SELECT every key is ignored. */
  lemma FormFieldsIgnored(tag: Option<string>, key: string, t: Transform)
    requires InFormField(tag)
    ensures ShortcutFor(tag, key, t) == NoCommand
  {
  }

  /** Lower-casing twice is lower-casing once. */
  lemma ToLowerIdempotent(s: string)
    ensures Strings.ToLower(Strings.ToLower(s)) == Strings.ToLower(s)
  {
    var l := Strings.ToLower(s);
    assert forall i :: 0 <= i < |l| ==> Strings.LowerChar(l[i]) == l[i];
  }

  /** The key is matched case-insensitively: "W" acts like "w". */
  lemma CaseInsensitive(tag: Option<string>, key: string, t: Transform)
    ensures ShortcutFor(tag, key, t) == ShortcutFor(tag, Strings.ToLower(key), t)
  {
    ToLowerIdempotent(key);
  }

  /** The four pan keys move one axis by 50 and keep the zoom; upper case works too. */
  lemma PanKeys(t: Transform)
    ensures ShortcutFor(None, "w", t) == Dispatch(SetTransform(Transform(t.x, t.y - 50.0, t.zoom)))
    ensures ShortcutFor(None, "a", t) == Dispatch(SetTransform(Transform(t.x - 50.0, t.y, t.zoom)))
    ensures ShortcutFor(None, "s", t) == Dispatch(SetTransform(Transform(t.x, t.y + 50.0, t.zoom)))
    ensures ShortcutFor(None, "d", t) == Dispatch(SetTransform(Transform(t.x + 50.0, t.y, t.zoom)))
    ensures ShortcutFor(None, "W", t) == ShortcutFor(None, "w", t)
  {
    assert Strings.ToLower("w") == "w";
    assert Strings.ToLower("a") == "a";
    assert Strings.ToLower("s") == "s";
    assert Strings.ToLower("d") == "d";
    assert Strings.ToLower("W") == "w";
  }

  /** "+" and "=" zoom in, "-" zooms out, "0" centres, "n" (or "N") adds a node. */
  lemma CallbackKeys(t: Transform)
    ensures ShortcutFor(None, "+", t) == ZoomIn && ShortcutFor(None, "=", t) == ZoomIn
    ensures ShortcutFor(None, "-", t) == ZoomOut
    ensures ShortcutFor(None, "0", t) == Center
    ensures ShortcutFor(None, "n", t) == AddNewNode && ShortcutFor(None, "N", t) == AddNewNode
  {
    assert Strings.ToLower("+") == "+";
    assert Strings.ToLower("=") == "=";
    assert Strings.ToLower("-") == "-";
    assert Strings.ToLower("0") == "0";
    assert Strings.ToLower("n") == "n";
    assert Strings.ToLower("N") == "n";
  }

  /** The nine keys the table lists. */
  predicate ListedKey(k: string) {
    k == "w" || k == "a" || k == "s" || k == "d" || k == "+" || k == "=" || k == "-" || k == "0" || k == "n"
  }

  /** Any other key does nothing, and a dispatched action is always a pan that keeps the zoom. */
  lemma OtherKeysDoNothing(tag: Option<string>, key: string, t: Transform)
    ensures ShortcutFor(tag, key, t) != NoCommand <==> !InFormField(tag) && ListedKey(Strings.ToLower(key))
    ensures ShortcutFor(tag, key, t).Dispatch? ==>
      var a := ShortcutFor(tag, key, t).action;
      a.SetTransform? && a.newTransform.zoom == t.zoom
      && (a.newTransform.x == t.x || a.newTransform.y == t.y)
  {
  }
}
