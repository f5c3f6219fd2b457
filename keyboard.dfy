/** The on-screen keyboard: how a physical key becomes a label, how wide a
    key is drawn, what text a pressed on-screen key sends to the terminal,
    and the set of highlighted labels. */
module Keyboard {
  import opened JsStrings
  import LineEditor

  /** `labelFromKey`: three keys get names, everything else is upper-cased. */
  function LabelFromKey(k: string): (name: string)
    ensures k == "Enter" ==> name == "ENTER"
    ensures k == "Backspace" ==> name == "BACK"
    ensures k == " " ==> name == "SPACE"
    ensures k != "Enter" && k != "Backspace" && k != " " ==> name == Upper(k)
  {
    if k == "Enter" then "ENTER"
    else if k == "Backspace" then "BACK"
    else if k == " " then "SPACE"
    else Upper(k)
  }

  const WideKeys: set<string> := {"SHIFT", "CONTROL", "TAB", "BACK", "ENTER", "SPACE"}

  /** The wide keys are named keys: capital letters, never one character. */
  predicate IsWideKey(name: string): (r: bool)
    ensures r ==> |name| > 1
    ensures r ==> forall i :: 0 <= i < |name| ==> 'A' <= name[i] <= 'Z'
  {
    name in WideKeys
  }

  /** `widthForLabel`, in pixels. */
  function WidthForLabel(name: string): (w: nat)
    ensures w == 420 <==> name == "SPACE"
    ensures w == 70 <==> IsWideKey(name) && name != "SPACE"
    ensures w == 50 <==> !IsWideKey(name) && |name| > 1
    ensures w == 35 <==> !IsWideKey(name) && |name| <= 1
  {
    if name == "SPACE" then 420
    else if IsWideKey(name) then 70
    else if |name| > 1 then 50
    else 35
  }

  /** How the terminal receives a key's text: ENTER fires the data event
      directly, the others go through `term.input`; without a terminal the
      optional call does nothing, and ENTER's direct access fails. */
  datatype KeyOutput = Fired(data: string) | Input(data: string) | NoTerminal | Failed

  /** `sendText`. */
  function SendText(name: string, shift: bool, hasTerm: bool): (out: KeyOutput)
    ensures name == "ENTER" ==> out == (if hasTerm then Fired("\r") else Failed)
    ensures name != "ENTER" && !hasTerm ==> out == NoTerminal
    ensures hasTerm && name == "BACK" ==> out == Input("\U{7F}")
    ensures hasTerm && name == "SPACE" ==> out == Input(" ")
    ensures hasTerm && name == "TAB" ==> out == Input("\t")
    ensures hasTerm && name !in {"ENTER", "BACK", "SPACE", "TAB"} ==>
      out == Input(if shift then name else Lower(name))
  {
    if name == "ENTER" then (if hasTerm then Fired("\r") else Failed)
    else if !hasTerm then NoTerminal
    else if name == "BACK" then Input("\U{7F}")
    else if name == "SPACE" then Input(" ")
    else if name == "TAB" then Input("\t")
    else Input(if shift then name else Lower(name))
  }

  /** The keys that drive the line editor land as what it expects: ENTER
      runs the line, BACK erases, SPACE and letters append themselves
      (lower-case unless shift is held). */
  lemma KeysDriveLineEditor(c: char, shift: bool)
    requires 'A' <= c <= 'Z'
    ensures SendText("ENTER", shift, true).data == LineEditor.Enter
    ensures LineEditor.IsBackspace(SendText("BACK", shift, true).data)
    ensures SendText("SPACE", shift, true) == Input(" ")
    ensures SendText([c], shift, true) == Input(if shift then [c] else [(c as int + 32) as char])
    ensures LabelFromKey([(c as int + 32) as char]) == [c]
  {
  }

  /** Keys that name themselves with more than one letter and have no case
      of their own, such as SHIFT, CONTROL and ESC, type their own name in
      lower case when pressed without shift. */
  lemma ModifierKeysTypeTheirNames()
    ensures SendText("SHIFT", false, true) == Input("shift")
    ensures SendText("CONTROL", false, true) == Input("control")
    ensures SendText("ESC", false, true) == Input("esc")
  {
    assert Lower("SHIFT") == "shift";
    assert Lower("CONTROL") == "control";
    assert Lower("ESC") == "esc";
  }

  /** `setActiveKey`'s update of the highlighted set. */
  function WithActive(keys: set<string>, name: string, isDown: bool): (next: set<string>)
    ensures name in next <==> isDown
    ensures forall l :: l != name ==> (l in next <==> l in keys)
  {
    if isDown then keys + {name} else keys - {name}
  }

  /** Setting the same state twice is the same as setting it once, and the
      last setting of a label wins. */
  lemma WithActiveIdempotent(keys: set<string>, name: string, first: bool, second: bool)
    ensures WithActive(WithActive(keys, name, first), name, second) == WithActive(keys, name, second)
  {
  }

  /** The highlighted labels and what the modifier flags read from them. */
  class ActiveKeys {
    var keys: set<string>

    constructor ()
      ensures keys == {}
    {
      keys := {};
    }

    method SetActiveKey(name: string, isDown: bool)
      modifies this
      ensures keys == WithActive(old(keys), name, isDown)
    {
      var next := keys;
      if isDown {
        next := next + {name};
      } else {
        next := next - {name};
      }
      keys := next;
    }

    /** The window's keydown: with Ctrl held nothing is highlighted. */
    method Press(key: string, ctrlKey: bool)
      modifies this
      ensures ctrlKey ==> keys == old(keys)
      ensures !ctrlKey ==> keys == WithActive(old(keys), LabelFromKey(key), true)
    {
      if !ctrlKey {
        SetActiveKey(LabelFromKey(key), true);
      }
    }

    /** The window's keyup always un-highlights. */
    method Lift(key: string)
      modifies this
      ensures keys == WithActive(old(keys), LabelFromKey(key), false)
    {
      SetActiveKey(LabelFromKey(key), false);
    }

    /** The `specialKeys` flags: shift, alt, control. */
    function SpecialKeys(): (flags: (bool, bool, bool))
      reads this
      ensures flags.0 <==> "SHIFT" in keys
      ensures flags.1 <==> "ALT" in keys
      ensures flags.2 <==> "CONTROL" in keys
    {
      ("SHIFT" in keys, "ALT" in keys, "CONTROL" in keys)
    }

    /** An on-screen key's pointer-down: highlight it, then send its text
        with the shift flag as it was drawn. */
    method PointerDown(name: string, hasTerm: bool) returns (out: KeyOutput)
      modifies this
      ensures keys == WithActive(old(keys), name, true)
      ensures out == SendText(name, "SHIFT" in old(keys), hasTerm)
    {
      var shift := SpecialKeys().0;
      SetActiveKey(name, true);
      out := SendText(name, shift, hasTerm);
    }

    /** An on-screen key's pointer-up or pointer-leave. */
    method PointerUp(name: string)
      modifies this
      ensures keys == WithActive(old(keys), name, false)
    {
      SetActiveKey(name, false);
    }
  }

  /** Holding the on-screen SHIFT makes letters upper-case until it is
      released; after that they are lower-case again. */
  method ShiftedLetter(c: char) returns (held: KeyOutput, released: KeyOutput)
    requires 'A' <= c <= 'Z'
    ensures held == Input([c])
    ensures released == Input([(c as int + 32) as char])
  {
    var k := new ActiveKeys();
    var shiftOut := k.PointerDown("SHIFT", true);
    held := k.PointerDown([c], true);
    k.PointerUp([c]);
    k.PointerUp("SHIFT");
    released := k.PointerDown([c], true);
  }
}
