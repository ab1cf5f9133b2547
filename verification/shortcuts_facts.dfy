/** Properties of the keyboard shortcuts. */
module ShortcutsFacts {
  import opened Common
  import opened Strings
  import opened Shortcuts

  /** The single-letter labels of the shortcut table. */
  predicate IsLetterEntry(k: int)
  {
    0 <= k < |KeyboardShortcuts| && |KeyboardShortcuts[k].1| == 1
  }

  /** Every single-letter label of the table, typed outside a text field in
      either case and without Ctrl or Meta, selects the action it labels. */
  lemma TableLettersDispatch(k: nat, typed: string, shift: bool)
    requires IsLetterEntry(k)
    requires typed == KeyboardShortcuts[k].1 || typed == Lower(KeyboardShortcuts[k].1)
    ensures Select(KeyEvent(typed, false, false, false, shift)) == Some(KeyboardShortcuts[k].0)
  {
    assert Lower(KeyboardShortcuts[k].1) == [LowerChar(KeyboardShortcuts[k].1[0])];
    LowerIdempotent(KeyboardShortcuts[k].1);
  }

  /** Conversely, every action a key selects outside a text field is in the
      table under a one-letter label equal to the key up to case. */
  lemma DispatchedLettersAreInTable(e: KeyEvent)
    requires !e.inTextField && Select(e).Some?
    ensures exists k :: (IsLetterEntry(k) && KeyboardShortcuts[k].0 == Select(e).value
                         && Lower(KeyboardShortcuts[k].1) == Lower(e.key))
  {
    var l := Lower(e.key);
    var k :=
      if l == "v" then 1 else if l == "s" then 2 else if l == "r" then 3 else if l == "b" then 4
      else if l == "t" then 6 else if l == "m" then 7 else if l == "h" then 8 else 9;
    assert Lower(KeyboardShortcuts[k].1) == [LowerChar(KeyboardShortcuts[k].1[0])];
    assert IsLetterEntry(k) && KeyboardShortcuts[k].0 == Select(e).value
      && Lower(KeyboardShortcuts[k].1) == Lower(e.key);
  }

  /** Letters match without regard to case outside text fields. */
  lemma {:induction false} LettersIgnoreCase(e: KeyEvent)
    requires !e.inTextField
    ensures Select(e.(key := Lower(e.key))) == Select(e)
  {
    LowerIdempotent(e.key);
  }

  /** Inside a text field only Enter and Escape do anything. */
  lemma TextFieldKeys(e: KeyEvent)
    requires e.inTextField && Select(e).Some?
    ensures e.key == "Enter" || e.key == "Escape"
  {
  }

  /** The table's label for clearing the input is not the key name the
      dispatcher compares with, so pressing a key reported as "Esc" does
      nothing. */
  lemma EscLabelIsNotTheKey(ctrl: bool, meta: bool, shift: bool)
    ensures KeyboardShortcuts[5] == (ClearInput, "Esc")
    ensures Select(KeyEvent("Esc", true, ctrl, meta, shift)) == None
  {
  }

  /** Enter outside a text field selects nothing. */
  lemma EnterOutsideTextField(ctrl: bool, meta: bool, shift: bool)
    ensures Select(KeyEvent("Enter", false, ctrl, meta, shift)) == None
  {
    assert |Lower("Enter")| == 5;
  }

  /** Shift does not keep a letter from working, Ctrl and Meta do. */
  lemma ModifiersOnLetters(shift: bool)
    ensures Select(KeyEvent("V", false, false, false, shift)) == Some(ToggleVoice)
    ensures Select(KeyEvent("V", false, true, false, shift)) == None
    ensures Select(KeyEvent("V", false, false, true, shift)) == None
  {
    assert Lower("V") == "v";
  }
}
