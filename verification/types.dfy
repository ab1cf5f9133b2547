/** The records the application passes around (src/types/index.ts), the mood
    entry of the mood ledger, and the browser store that persists them.

    Dates are milliseconds since the epoch. The browser store is abstracted:
    each of the three keys the application uses holds a value that is either
    absent, unreadable (empty, not valid JSON, or, for the mood list, not an
    array), or the parsed value itself, taken to be well formed. */
module Types {
  import opened Common

  datatype Sentiment = Positive | Negative | Neutral

  datatype Feedback = Helpful | NotHelpful

  /** One bubble of the visible transcript. */
  datatype Message = Message(
    id: string,
    text: string,
    isUser: bool,
    timestamp: int,
    feedback: Option<Feedback>)

  datatype SessionMood = SessionMood(before: real, after: Option<real>)

  datatype ChatSession = ChatSession(
    id: string,
    startTime: int,
    endTime: Option<int>,
    messages: seq<Message>,
    mood: Option<SessionMood>,
    summary: Option<string>)

  datatype EmergencyContact = EmergencyContact(name: string, number: string, relationship: string)

  datatype Theme = Light | Dark | HighContrast
  datatype FontSize = Small | Medium | Large | ExtraLarge
  datatype Spacing = Compact | Comfortable | Spacious

  /** `UserProfile['preferences']`. */
  datatype Preferences = Preferences(
    voiceEnabled: bool,
    theme: Theme,
    language: string,
    userName: Option<string>,
    fontSize: FontSize,
    messageSpacing: Spacing,
    soundEnabled: bool,
    autoScroll: bool,
    sendWithEnter: bool,
    showTimestamps: bool,
    notifications: bool,
    useKeyboardShortcuts: bool,
    highContrastMode: bool,
    screenReaderOptimized: bool,
    showMoodTracking: bool,
    showBreathingExercises: bool,
    showResourcesPanel: bool,
    emergencyContacts: seq<EmergencyContact>)

  /** What the assistant hands back to the chat screen. `confidence` is a
      number in the application; only the constants 1, 0.9 and 0.5 occur. */
  datatype AIResponse = AIResponse(
    text: string,
    sentiment: Sentiment,
    confidence: real,
    suggestedActions: seq<string>)

  /** A time-stamped mood sample (src/services/MoodTracking.ts). */
  datatype MoodEntry = MoodEntry(timestamp: int, value: real, note: Option<string>)

  /** The content of one key of the browser store. */
  datatype Slot<T> = Absent | Unreadable | Holds(value: T)

  /** The three keys of the browser store the core reads and writes:
      'serenityai_mood_entries', 'serenity_sessions' and 'serenity_settings'. */
  datatype LocalStore = LocalStore(
    moods: Slot<seq<MoodEntry>>,
    sessions: Slot<seq<ChatSession>>,
    settings: Slot<Preferences>)
}
