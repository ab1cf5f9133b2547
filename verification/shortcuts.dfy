/** The keyboard shortcuts (src/services/KeyboardShortcuts.ts).

    A key press selects at most one action. Inside a text field only Enter
    (without modifiers) and Escape do anything; elsewhere eight letters,
    matched without regard to case and only without Ctrl or Meta, toggle
    the panels of the chat screen. An action whose handler is not
    installed does nothing. */
module Shortcuts {
  import opened Common
  import opened Strings

  datatype Action =
    | SendMessage
    | ToggleVoice
    | ToggleSettings
    | ToggleResources
    | ToggleBreathing
    | ClearInput
    | ToggleTheme
    | ToggleMoodTracker
    | ToggleMoodHistory
    | ClearChat

  /** The parts of a `keydown` event the dispatcher looks at. */
  datatype KeyEvent = KeyEvent(
    key: string,
    inTextField: bool,
    ctrlKey: bool,
    metaKey: bool,
    shiftKey: bool)

  /** The letter of each panel action, as the dispatcher's switch lists it. */
  function LetterAction(letter: string): (r: Option<Action>)
  {
    if letter == "v" then Some(ToggleVoice)
    else if letter == "t" then Some(ToggleTheme)
    else if letter == "m" then Some(ToggleMoodTracker)
    else if letter == "h" then Some(ToggleMoodHistory)
    else if letter == "b" then Some(ToggleBreathing)
    else if letter == "r" then Some(ToggleResources)
    else if letter == "s" then Some(ToggleSettings)
    else if letter == "c" then Some(ClearChat)
    else None
  }

  /** The action a key press selects, before handlers are consulted. */
  function Select(e: KeyEvent): (r: Option<Action>)
    ensures e.inTextField ==> (r.Some? ==> r.value in {SendMessage, ClearInput})
    ensures !e.inTextField && (e.ctrlKey || e.metaKey) ==> r.None?
    ensures !e.inTextField ==> (r.Some? ==> r.value !in {SendMessage, ClearInput})
    ensures e.inTextField && e.key == "Enter" ==>
      (r == Some(SendMessage) <==> !e.ctrlKey && !e.metaKey && !e.shiftKey)
    ensures e.inTextField && e.key == "Enter" && (e.ctrlKey || e.metaKey || e.shiftKey) ==> r.None?
    ensures e.inTextField && e.key == "Escape" ==> r == Some(ClearInput)
  {
    if e.inTextField then
      if e.key == "Enter" && !e.ctrlKey && !e.metaKey && !e.shiftKey then Some(SendMessage)
      else if e.key == "Escape" then Some(ClearInput)
      else None
    else
      match LetterAction(Lower(e.key))
      case Some(a) => if !e.ctrlKey && !e.metaKey then Some(a) else None
      case None => None
  }

  /** `handleKeyPress` as registered by `useKeyboardShortcuts`: nothing when
      the hook is disabled, and an action only when its handler exists. */
  function HandleKeyPress(e: KeyEvent, installed: set<Action>, enabled: bool): (r: Option<Action>)
    ensures !enabled ==> r.None?
    ensures r.Some? ==> r.value in installed && r == Select(e)
    ensures enabled && Select(e).Some? && Select(e).value in installed ==> r == Select(e)
  {
    if !enabled then None
    else match Select(e)
      case Some(a) => if a in installed then Some(a) else None
      case None => None
  }

  /** `KEYBOARD_SHORTCUTS`: the key label shown for each action. */
  const KeyboardShortcuts: seq<(Action, string)> := [
      (SendMessage, "Enter"),
      (ToggleVoice, "V"),
      (ToggleSettings, "S"),
      (ToggleResources, "R"),
      (ToggleBreathing, "B"),
      (ClearInput, "Esc"),
      (ToggleTheme, "T"),
      (ToggleMoodTracker, "M"),
      (ToggleMoodHistory, "H"),
      (ClearChat, "C")
    ]
}
