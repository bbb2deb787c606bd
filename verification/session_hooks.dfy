/** The session picked by `useCurrentSession` (client/src/hooks/useSession.ts): the fetched
    session list is searched for the first session that is running or scheduled. */
module SessionHooks {
  import opened Wrappers
  import opened Schema
  import Seqs
  import Storage
  import QueryClient

  /** The test passed to `sessions.find`. */
  predicate IsCurrentCandidate(s: Session) {
    s.status == "running" || s.status == "scheduled"
  }

  /** `sessions.find(...) || null`: `None` stands for `null`. */
  function CurrentSession(sessions: seq<Session>): Option<Session> {
    Seqs.Find(sessions, IsCurrentCandidate)
  }

  /** The pick is `null` exactly when no session is running or scheduled; otherwise it is the first
      such session of the list, so never a completed or canceled one. */
  lemma CurrentSessionSpec(sessions: seq<Session>)
    ensures CurrentSession(sessions).None? <==>
      forall i :: 0 <= i < |sessions| ==> sessions[i].status != "running" && sessions[i].status != "scheduled"
    ensures CurrentSession(sessions).Some? ==>
      var s := CurrentSession(sessions).value;
      && s in sessions
      && (s.status == "running" || s.status == "scheduled")
      && s.status != "completed" && s.status != "canceled"
      && exists i :: 0 <= i < |sessions| && sessions[i] == s &&
           forall j :: 0 <= j < i ==> !IsCurrentCandidate(sessions[j])
  {
  }

  /** The list comes from a GET on the sessions collection, which the desktop shell answers with
      `get_sessions`. */
  lemma CurrentSessionRequest()
    ensures QueryClient.RouteRequest(true, "GET", QueryClient.Sessions)
      == QueryClient.Invoke(QueryClient.GetSessions, None, 200)
  {
  }

  /** Against the store's own lookup (first running session): when nothing is scheduled the two
      agree. */
  lemma AgreesWithStoreWithoutScheduled(sessions: seq<Session>)
    requires forall i :: 0 <= i < |sessions| ==> sessions[i].status != "scheduled"
    ensures CurrentSession(sessions) == Seqs.Find(sessions, Storage.IsRunning)
  {
    Seqs.FindSame(sessions, IsCurrentCandidate, Storage.IsRunning);
  }

  /** ... but a scheduled session listed before a running one is the one picked. */
  lemma ScheduledBeforeRunningIsPicked(scheduled: Session, running: Session)
    requires scheduled.status == "scheduled" && running.status == "running"
    ensures CurrentSession([scheduled, running]) == Some(scheduled)
    ensures Seqs.Find([scheduled, running], Storage.IsRunning) == Some(running)
  {
  }
}
