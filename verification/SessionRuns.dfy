/** The calls a server makes of a session, as runs of the session among its threads. */
module SessionRuns {
  import opened Framing
  import opened LinuxSession
  import opened LinuxWorld
  import opened Servers

  function ViewOf(w: World): View { View(w.core, w.events, w.inEpoll) }

  /** An update is a run of the session's logic thread among the threads of `LinuxWorld`: the steps of a whole
      update when it gets the mutex, and a refused one otherwise. */
  lemma UpdateIsRun(w: World, a: Args)
    requires w.logic.Idle? && w.mutex.NoOne? && !w.deleted && TxOk(w.core.tx) && RxOk(w.core.rx)
    ensures var steps := if a.gotLock then UpdateSteps(a.recvs, a.sends, a.idle) else [TryLock(true)];
            var w', v := Exec(w, steps), Updated(ViewOf(w), a);
            && ViewOf(w') == v && w'.logic.Check? && w'.mutex.NoOne?
            && w'.armed == w.armed + (if a.gotLock && !w.inEpoll && v.core.status.Running? then 1 else 0)
  {
    hide UpdateSteps, TxOk, RxOk, Body, Ready, Closing;
    if a.gotLock {
      hide Exec;
      LinuxWorld.UpdateIsRun(w, a.recvs, a.sends, a.idle);
    } else {
      OneStep(w, TryLock(true));
    }
  }

  /** So is a callback of the poller thread, with the oldest report. */
  lemma PollIsRun(w: World)
    requires w.poller.Waiting? && w.mutex.NoOne? && w.inflight != []
    ensures var w' := Exec(w, CALLBACK);
            && ViewOf(w') == ViewOf(w).(events := w.inflight[0], inEpoll := false)
            && w'.inflight == w.inflight[1..] && w'.poller.Returned? && w'.mutex.NoOne?
  {
    hide Exec;
    CallbackRuns(w);
  }
}
