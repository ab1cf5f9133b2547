/** The session store (src/services/StorageService.ts).

    Chat sessions are kept newest first under one key of the browser store,
    at most `MaxSessions` of them; the preferences are kept under another.
    Every operation reads the stored list afresh, so an update is written
    as a new copy in front of the list. */
module Storage {
  import opened Common
  import opened Types

  const MaxSessions: nat := 50

  // ---------------------------------------------------------------------
  // Sessions
  // ---------------------------------------------------------------------

  /** `getSessions`: the stored list, or nothing when the key is absent or
      its content unreadable. */
  function GetSessions(store: LocalStore): (r: seq<ChatSession>)
    ensures store.sessions.Holds? ==> r == store.sessions.value
    ensures !store.sessions.Holds? ==> r == []
  {
    match store.sessions
    case Holds(sessions) => sessions
    case _ => []
  }

  /** `saveSession`: the session goes in front of the stored list, and the
      list is cut back to `MaxSessions`, dropping the oldest. */
  function SaveSession(store: LocalStore, session: ChatSession): (r: LocalStore)
    ensures r.sessions.Holds?
    ensures var before := GetSessions(store); var s := GetSessions(r);
      && 1 <= |s| <= MaxSessions
      && s[0] == session
      && |s| == (if |before| < MaxSessions then |before| + 1 else MaxSessions)
      && s[1..] == before[..|s| - 1]
    ensures r.moods == store.moods && r.settings == store.settings
  {
    var sessions := [session] + GetSessions(store);
    var kept := if |sessions| > MaxSessions then sessions[..MaxSessions] else sessions;
    store.(sessions := Holds(kept))
  }

  /** The position of the first session that has not ended, if any. */
  function FirstOpen(sessions: seq<ChatSession>): (r: Option<nat>)
    ensures r.Some? ==>
      r.value < |sessions| && sessions[r.value].endTime.None?
      && forall i :: 0 <= i < r.value ==> sessions[i].endTime.Some?
    ensures r.None? <==> forall i :: 0 <= i < |sessions| ==> sessions[i].endTime.Some?
  {
    if sessions == [] then None
    else if sessions[0].endTime.None? then Some(0)
    else match FirstOpen(sessions[1..])
      case None => None
      case Some(k) => Some(k + 1)
  }

  /** `getCurrentSession`: the first stored session without an end time,
      which is the newest one since sessions are kept newest first. */
  function GetCurrentSession(store: LocalStore): (r: Option<ChatSession>)
    ensures r.Some? ==> r.value in GetSessions(store) && r.value.endTime.None?
    ensures r.None? <==> forall i :: 0 <= i < |GetSessions(store)| ==> GetSessions(store)[i].endTime.Some?
    ensures r.Some? ==>
      exists k ::
        && 0 <= k < |GetSessions(store)| && GetSessions(store)[k] == r.value
        && forall i :: 0 <= i < k ==> GetSessions(store)[i].endTime.Some?
  {
    var sessions := GetSessions(store);
    match FirstOpen(sessions)
    case None => None
    case Some(k) => Some(sessions[k])
  }

  /** `clearHistory`: the key is removed. */
  function ClearHistory(store: LocalStore): (r: LocalStore)
    ensures GetSessions(r) == []
    ensures r.moods == store.moods && r.settings == store.settings
  {
    store.(sessions := Absent)
  }

  // ---------------------------------------------------------------------
  // Settings
  // ---------------------------------------------------------------------

  /** `saveSettings`. */
  function SaveSettings(store: LocalStore, settings: Preferences): (r: LocalStore)
    ensures r.settings == Holds(settings)
    ensures r.moods == store.moods && r.sessions == store.sessions
  {
    store.(settings := Holds(settings))
  }

  /** `getSettings`: the stored preferences, or nothing when the key is
      absent or its content unreadable. */
  function GetSettings(store: LocalStore): (r: Option<Preferences>)
    ensures r.Some? <==> store.settings.Holds?
    ensures r.Some? ==> r.value == store.settings.value
  {
    match store.settings
    case Holds(p) => Some(p)
    case _ => None
  }

  // ---------------------------------------------------------------------
  // Feedback
  // ---------------------------------------------------------------------

  /** The position of the first element whose id is `id`, if any: the
      `find(x => x.id === id)` of the source, as a position. */
  function FirstWithId<T>(xs: seq<T>, idOf: T -> string, id: string): (r: Option<nat>)
    ensures r.Some? ==>
      r.value < |xs| && idOf(xs[r.value]) == id
      && forall i :: 0 <= i < r.value ==> idOf(xs[i]) != id
    ensures r.None? <==> forall i :: 0 <= i < |xs| ==> idOf(xs[i]) != id
  {
    if xs == [] then None
    else if idOf(xs[0]) == id then Some(0)
    else match FirstWithId(xs[1..], idOf, id)
      case None => None
      case Some(k) => Some(k + 1)
  }

  function SessionId(s: ChatSession): string { s.id }

  function MessageId(m: Message): string { m.id }

  /** The position of the first session with the given id, if any. */
  function FindSession(sessions: seq<ChatSession>, id: string): Option<nat>
  {
    FirstWithId(sessions, SessionId, id)
  }

  /** The position of the first message with the given id, if any. */
  function FindMessage(messages: seq<Message>, id: string): Option<nat>
  {
    FirstWithId(messages, MessageId, id)
  }

  /** The session with the feedback recorded on the message at `k`. */
  function WithFeedback(session: ChatSession, k: nat, feedback: Feedback): (r: ChatSession)
    requires k < |session.messages|
    ensures r.id == session.id && |r.messages| == |session.messages|
    ensures r.messages[k] == session.messages[k].(feedback := Some(feedback))
    ensures forall i :: 0 <= i < |r.messages| && i != k ==> r.messages[i] == session.messages[i]
    ensures r == session.(messages := r.messages)
  {
    session.(messages := session.messages[k := session.messages[k].(feedback := Some(feedback))])
  }

  /** `addMessageFeedback`: when the session and, inside it, the message are
      found, the first such message gets the feedback and the changed
      session is saved in front of the list; the stored copy it came from
      stays where it was. Otherwise nothing is written. */
  function AddMessageFeedback(store: LocalStore, sessionId: string, messageId: string,
                              feedback: Feedback): (r: LocalStore)
    ensures FindSession(GetSessions(store), sessionId).None? ==> r == store
    ensures var found := FindSession(GetSessions(store), sessionId);
      found.Some? && FindMessage(GetSessions(store)[found.value].messages, messageId).None? ==> r == store
    ensures var found := FindSession(GetSessions(store), sessionId);
      found.Some? && FindMessage(GetSessions(store)[found.value].messages, messageId).Some? ==>
        var session := GetSessions(store)[found.value];
        r == SaveSession(store, WithFeedback(session, FindMessage(session.messages, messageId).value, feedback))
  {
    var sessions := GetSessions(store);
    match FindSession(sessions, sessionId)
    case None => store
    case Some(i) =>
      var session := sessions[i];
      match FindMessage(session.messages, messageId)
      case None => store
      case Some(k) => SaveSession(store, WithFeedback(session, k, feedback))
  }
}
