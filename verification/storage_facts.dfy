/** Properties of the session store. */
module StorageFacts {
  import opened Common
  import opened Types
  import opened Storage

  /** A session saved without an end time is the current session. */
  lemma SavedOpenSessionIsCurrent(store: LocalStore, session: ChatSession)
    requires session.endTime.None?
    ensures GetCurrentSession(SaveSession(store, session)) == Some(session)
  {
    assert GetSessions(SaveSession(store, session))[0] == session;
  }

  /** Clearing and reading back gives no sessions and no current one. */
  lemma ClearThenRead(store: LocalStore)
    ensures GetSessions(ClearHistory(store)) == []
    ensures GetCurrentSession(ClearHistory(store)) == None
  {
  }

  /** What is saved as settings is read back unchanged, and neither other
      key is touched. */
  lemma SettingsRoundTrip(store: LocalStore, settings: Preferences)
    ensures GetSettings(SaveSettings(store, settings)) == Some(settings)
    ensures GetSessions(SaveSettings(store, settings)) == GetSessions(store)
  {
  }

  /** Missing or unreadable settings read as nothing. */
  lemma NoSettings(store: LocalStore)
    requires !store.settings.Holds?
    ensures GetSettings(store) == None
  {
  }

  /** Every operation leaves at most `MaxSessions` sessions behind when it
      starts from a list within the bound. */
  lemma FeedbackKeepsBound(store: LocalStore, sessionId: string, messageId: string, feedback: Feedback)
    requires |GetSessions(store)| <= MaxSessions
    ensures |GetSessions(AddMessageFeedback(store, sessionId, messageId, feedback))| <= MaxSessions
  {
  }

  /** Feedback on a found message writes a changed copy of the session in
      front and keeps the stored copy one place further back, so below the
      cap the list then holds the session id twice: the new copy carries the
      feedback, the old one does not change. */
  lemma FeedbackKeepsStaleCopy(store: LocalStore, sessionId: string, messageId: string, feedback: Feedback)
    requires |GetSessions(store)| < MaxSessions
    requires FindSession(GetSessions(store), sessionId).Some?
    requires FindMessage(GetSessions(store)[FindSession(GetSessions(store), sessionId).value].messages, messageId).Some?
    ensures var before := GetSessions(store);
      var i := FindSession(before, sessionId).value;
      var k := FindMessage(before[i].messages, messageId).value;
      var after := GetSessions(AddMessageFeedback(store, sessionId, messageId, feedback));
      && |after| == |before| + 1
      && after[0] == WithFeedback(before[i], k, feedback)
      && after[0].id == sessionId && after[i + 1] == before[i] && after[i + 1].id == sessionId
      && after[0].messages[k].feedback == Some(feedback)
  {
  }

  /** At the cap, recording feedback pushes the oldest session out. */
  lemma FeedbackEvictsOldest(store: LocalStore, sessionId: string, messageId: string, feedback: Feedback)
    requires |GetSessions(store)| == MaxSessions
    requires FindSession(GetSessions(store), sessionId).Some?
    requires FindMessage(GetSessions(store)[FindSession(GetSessions(store), sessionId).value].messages, messageId).Some?
    ensures var before := GetSessions(store);
      GetSessions(AddMessageFeedback(store, sessionId, messageId, feedback))[1..] == before[..MaxSessions - 1]
  {
  }
}
