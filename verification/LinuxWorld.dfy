/** The Linux session among its threads: the logic thread that updates it, the poller thread that reports
    readiness, the kernel's one-shot registration between them and the driver that deletes it. Every
    interleaving of the steps below is allowed. */
module LinuxWorld {
  import opened Bytes
  import opened Framing
  import opened LinuxSession

  /** Where the logic thread is: outside `Update`, or between two of its steps. From `Locked` to `Marked`
      it holds the mutex; `Check` is the driver looking whether the session is disposable. */
  datatype Logic = Idle | Locked | Woken(shouldClose: bool) | Ran | Registered | Marked | Check

  /** Where the poller thread is. From `Entered` to `Cleared` it is in the callback and holds the mutex; in
      `Returned` it still has to write the status in the session's key. */
  datatype Poller = Waiting | Entered(ev: Events) | Wrote | Cleared | Returned

  predicate InCallback(p: Poller) { p.Entered? || p.Wrote? || p.Cleared? }

  datatype Owner = NoOne | LogicThread | PollerThread

  /** `armed` counts registrations the kernel has not reported yet, `inflight` holds the reports on their
      way to the callback. `delivered`, `consumed`, `clobbered`, `laps` and `deleted` are history: reports
      made, reports an `Update` has read, whether a report ever overwrote an unread one, updates of a
      pre-closed session, and whether the driver has deleted it. `readBefore` says how many reports had been
      read when the session left the running state, `stale` whether a callback ran in a session already
      deleted, and `keyLate` whether the key of one was written to. */
  datatype World = World(
    core: Core, events: Events, inEpoll: bool, mutex: Owner, logic: Logic, poller: Poller,
    armed: nat, inflight: seq<Events>,
    delivered: seq<Events>, consumed: seq<Events>, clobbered: bool, laps: nat, deleted: bool,
    readBefore: nat, stale: bool, keyLate: bool)

  const WORLD_START :=
    World(CORE_START, NO_EVENTS, false, NoOne, Idle, Waiting, 0, [], [], [], false, 0, false, 0, false, false)

  datatype Step =
    // the logic thread
    | TryLock(refused: bool) | WakeUp | Run(recvs: seq<RecvAnswer>, sends: seq<SendAnswer>, idle: bool)
    | Register | MarkArmed | SkipArming | Unlock | Reap
    | AppSend(p: seq<byte>, how: Sender) | AppDisconnect
    // the kernel and the poller thread
    | Report(ev: Events) | Enter | WriteEvents | ClearArmed | Leave | MarkKey

  /** Whether an update has to arm the socket. */
  predicate MustArm(w: World) { !w.inEpoll && w.core.status.Running? }

  predicate Enabled(w: World, s: Step) {
    match s
    case TryLock(refused) => w.logic.Idle? && !w.deleted && (!refused ==> w.mutex.NoOne?)
    case WakeUp => w.logic.Locked?
    case Run(_, _, _) => w.logic.Woken? && TxOk(w.core.tx) && RxOk(w.core.rx)
    case Register => w.logic.Ran? && MustArm(w)
    case MarkArmed => w.logic.Registered?
    case SkipArming => w.logic.Ran? && !MustArm(w)
    case Unlock => w.logic.Marked?
    case Reap => w.logic.Check?
    case AppSend(_, _) => w.logic.Idle? && !w.deleted && TxOk(w.core.tx)
    case AppDisconnect => w.logic.Idle? && !w.deleted
    // a closed socket is not reported any more; what was reported before still reaches the callback
    case Report(ev) => w.armed > 0 && ev != NO_EVENTS && !w.core.status.Closed?
    case Enter => w.poller.Waiting? && w.mutex.NoOne? && w.inflight != []
    case WriteEvents => w.poller.Entered?
    case ClearArmed => w.poller.Wrote?
    case Leave => w.poller.Cleared?
    case MarkKey => w.poller.Returned?
  }

  /** Registrations, reports and callbacks that have not cleared the arming flag yet. */
  function Tokens(w: World): nat {
    w.armed + |w.inflight| + (if w.poller.Entered? || w.poller.Wrote? then 1 else 0)
  }

  function Apply(w: World, s: Step): World
    requires Enabled(w, s)
  {
    match s
    case TryLock(refused) => if refused then w.(logic := Check) else w.(logic := Locked, mutex := LogicThread)
    case WakeUp =>
      if w.events == NO_EVENTS then w.(logic := Woken(false))
      else w.(core := Ready(w.core, w.events), events := NO_EVENTS,
              consumed := w.consumed + [w.events], logic := Woken(Closing(w.events)))
    case Run(recvs, sends, idle) =>
      var c := Body(w.core, w.logic.shouldClose, recvs, sends, idle);
      var leaves := w.core.status.Running? && !c.status.Running?;
      w.(core := c,
         laps := if w.core.status.PreClosed? then w.laps + 1 else w.laps,
         logic := Ran,
         readBefore := if leaves then |w.consumed| else w.readBefore)
    case Register => w.(armed := w.armed + 1, logic := Registered)
    case MarkArmed => w.(inEpoll := true, logic := Marked)
    case SkipArming => w.(logic := Marked)
    case Unlock => w.(mutex := NoOne, logic := Check)
    case Reap =>
      var gone := w.core.status.Closed?;
      w.(deleted := gone, logic := Idle, stale := w.stale || (gone && InCallback(w.poller)))
    case AppSend(p, how) => w.(core := Send(w.core, p, how))
    case AppDisconnect => w.(core := Disconnect(w.core))
    case Report(ev) => w.(armed := w.armed - 1, inflight := w.inflight + [ev], delivered := w.delivered + [ev])
    case Enter =>
      w.(mutex := PollerThread, poller := Entered(w.inflight[0]), inflight := w.inflight[1..],
         stale := w.stale || w.deleted)
    case WriteEvents =>
      w.(clobbered := w.clobbered || w.events != NO_EVENTS, events := w.poller.ev, poller := Wrote)
    case ClearArmed => w.(inEpoll := false, poller := Cleared)
    case Leave => w.(mutex := NoOne, poller := Returned)
    case MarkKey => w.(poller := Waiting, keyLate := w.keyLate || w.deleted)
  }

  /** A step, skipped where it is not possible. */
  function Try(w: World, s: Step): World { if Enabled(w, s) then Apply(w, s) else w }

  /** A run. */
  function Exec(w: World, steps: seq<Step>): World
    decreases |steps|
  {
    if steps == [] then w else Exec(Try(w, steps[0]), steps[1..])
  }

  // ---------- the invariant ----------

  predicate MutexOk(w: World) {
    && (w.mutex.LogicThread? <==> !w.logic.Idle? && !w.logic.Check?)
    && (w.mutex.PollerThread? <==> InCallback(w.poller))
  }

  /** The one-shot handshake. */
  predicate HandshakeOk(w: World) {
    && Tokens(w) <= 1
    && (w.logic.Registered? ==> Tokens(w) == 1 && !w.inEpoll)
    && (!w.logic.Registered? ==> (w.inEpoll <==> Tokens(w) == 1))
    && (w.events != NO_EVENTS && !w.poller.Wrote? ==> Tokens(w) == 0)
    && (w.logic.Woken? || w.logic.Ran? || w.logic.Registered? || w.logic.Marked? ==> w.events == NO_EVENTS)
    && (w.poller.Wrote? ==> w.events != NO_EVENTS)
    && (w.poller.Entered? ==> w.poller.ev != NO_EVENTS)
    && (forall ev | ev in w.inflight :: ev != NO_EVENTS)
    && !w.clobbered
  }

  /** Reports that were made and not read by an `Update` yet, oldest first. */
  function Unread(w: World): seq<Events> {
    (if w.events != NO_EVENTS then [w.events] else []) + (if w.poller.Entered? then [w.poller.ev] else []) + w.inflight
  }

  /** The close machine under its driver. */
  predicate CloseOk(w: World) {
    && (w.core.status.Running? || w.core.status.PreClosed? || w.core.status.Closed?)
    && w.core.closings == (if w.core.status.Closed? then 1 else 0)
    && (w.core.status.Running? ==> w.laps == 0)
    && (w.core.status.PreClosed? ==> w.laps <= 1)
    && (w.core.status.PreClosed? && w.laps == 1 ==> Tokens(w) == 0 && w.events == NO_EVENTS && !(w.logic == Woken(true)))
    && (w.core.status.Closed? ==> w.laps <= 2 && (w.deleted || w.logic.Ran? || w.logic.Marked? || w.logic.Check?))
    && (w.logic == Woken(true) ==> Tokens(w) == 0)
    && (w.logic.Registered? ==> w.core.status.Running?)
    && (w.deleted ==> w.core.status.Closed? && w.logic.Idle?)
  }

  /** What is there before a deletion, and why a session takes a second update to close. */
  predicate LeavingOk(w: World) {
    && (w.stale || w.keyLate ==> w.deleted)
    && (!w.core.status.Running? ==> w.readBefore <= |w.consumed|)
    && (!w.core.status.Running? && (w.logic == Woken(true) || ClosedLate(w)) ==> ClosingRead(w))
  }

  /** The session has taken, or will take, a second update to close. */
  predicate ClosedLate(w: World) {
    (w.core.status.PreClosed? && w.laps == 1) || (w.core.status.Closed? && w.laps == 2)
  }

  /** A report that closes was read after the session left the running state. */
  predicate ClosingRead(w: World) {
    w.readBefore < |w.consumed| && Closing(w.consumed[|w.consumed| - 1])
  }

  predicate Inv(w: World) {
    && CoreOk(w.core) && MutexOk(w) && HandshakeOk(w) && CloseOk(w) && LeavingOk(w)
    && w.delivered == w.consumed + Unread(w)
  }

  lemma CoreStep(w: World, s: Step)
    requires Inv(w) && Enabled(w, s)
    ensures CoreOk(Apply(w, s).core)
  {
    match s
    case WakeUp => 
      var c := Ready(w.core, w.events);
      assert c.hist == w.core.hist && c.tx == w.core.tx && c.rx == w.core.rx;
    case Run(recvs, sends, idle) => BodyKeeps(w.core, w.logic.shouldClose, recvs, sends, idle);
    case AppSend(p, how) => SendKeeps(w.core, p, how);
    case AppDisconnect =>
      assert Disconnect(w.core).hist == w.core.hist;
    case _ =>
  }

  lemma HandshakeStep(w: World, s: Step)
    requires Inv(w) && Enabled(w, s)
    ensures MutexOk(Apply(w, s)) && HandshakeOk(Apply(w, s))
  {
    hide CoreOk, CloseOk, TxOk, RxOk, Body, Send, Unread;
    if s.Enter? {
      assert w.inflight[0] in w.inflight;
    }
  }

  lemma RunCloses(w: World, recvs: seq<RecvAnswer>, sends: seq<SendAnswer>, idle: bool)
    requires Inv(w) && Enabled(w, Run(recvs, sends, idle))
    ensures CloseOk(Apply(w, Run(recvs, sends, idle))) && LeavingOk(Apply(w, Run(recvs, sends, idle)))
  {
    assert MutexOk(w) && HandshakeOk(w) && CloseOk(w) && LeavingOk(w) && TxOk(w.core.tx) && RxOk(w.core.rx);
    hide Inv, TxOk, RxOk, Body, Unread;
    BodyStatus(w.core, w.logic.shouldClose, recvs, sends, idle);
  }

  lemma CloseStep(w: World, s: Step)
    requires Inv(w) && Enabled(w, s) && !s.Run?
    ensures CloseOk(Apply(w, s))
  {
    assert MutexOk(w) && HandshakeOk(w) && CloseOk(w) && TxOk(w.core.tx) && RxOk(w.core.rx);
    hide Inv, TxOk, RxOk, Body, Send, Ready, Disconnect, Unread;
    SameStatus(w, s);
  }

  lemma SendStatus(c: Core, p: seq<byte>, how: Sender)
    requires TxOk(c.tx)
    ensures Send(c, p, how).status == c.status && Send(c, p, how).closings == c.closings
  {
    hide SendFrame, Stored, Faithful;
  }

  lemma FlagsStatus(c: Core, ev: Events)
    ensures Ready(c, ev).status == c.status && Ready(c, ev).closings == c.closings
    ensures Disconnect(c).status == c.status && Disconnect(c).closings == c.closings
  {
  }

  /** Steps of the kernel and the poller thread. */
  predicate Outside(s: Step) { s.Report? || s.Enter? || s.WriteEvents? || s.ClearArmed? || s.Leave? || s.MarkKey? }

  /** Only an update changes the status. */
  lemma SameStatus(w: World, s: Step)
    requires TxOk(w.core.tx) && RxOk(w.core.rx) && Enabled(w, s) && !s.Run?
    ensures Apply(w, s).core.status == w.core.status && Apply(w, s).core.closings == w.core.closings
  {
    hide TxOk, RxOk, Body, Send, Ready, Disconnect, Closing;
    if s.AppSend? {
      SendStatus(w.core, s.p, s.how);
    } else if s.AppDisconnect? || s.WakeUp? {
      FlagsStatus(w.core, w.events);
    }
  }

  lemma LeavingOutside(w: World, s: Step)
    requires Inv(w) && Enabled(w, s) && Outside(s)
    ensures LeavingOk(Apply(w, s))
  {
    assert MutexOk(w) && HandshakeOk(w) && CloseOk(w) && LeavingOk(w);
    hide Inv, TxOk, RxOk, Body, Send, Ready, Unread;
  }

  lemma LeavingWakeUp(w: World)
    requires Inv(w) && w.logic.Locked?
    ensures LeavingOk(Apply(w, WakeUp))
  {
    assert HandshakeOk(w) && CloseOk(w) && LeavingOk(w);
    hide Inv, Closing;
  }

  lemma LeavingStep(w: World, s: Step)
    requires Inv(w) && Enabled(w, s) && !s.Run?
    ensures LeavingOk(Apply(w, s))
  {
    if Outside(s) {
      LeavingOutside(w, s);
    } else if s.WakeUp? {
      LeavingWakeUp(w);
    } else {
      assert HandshakeOk(w) && CloseOk(w) && LeavingOk(w) && TxOk(w.core.tx) && RxOk(w.core.rx);
      hide Inv, TxOk, RxOk, Body, Send, Ready, Disconnect, Unread, Closing;
      SameStatus(w, s);
    }
  }

  lemma EventStep(w: World, s: Step)
    requires Inv(w) && Enabled(w, s)
    ensures Apply(w, s).delivered == Apply(w, s).consumed + Unread(Apply(w, s))
  {
    hide CoreOk, CloseOk, LeavingOk, MutexOk, TxOk, RxOk, Body, Send, Ready;
    var w' := Apply(w, s);
    match s
    case WakeUp =>
      if w.events != NO_EVENTS {
        assert Unread(w) == [w.events] && Unread(w') == [];
        assert w'.consumed + [] == w'.consumed;
      }
    case Report(ev) =>
      assert Unread(w') == Unread(w) + [ev];
      Assoc(w.consumed, Unread(w), [ev]);
    case Enter =>
      assert w.inflight == [w.inflight[0]] + w.inflight[1..];
      assert Unread(w') == Unread(w);
    case _ =>
      assert Unread(w') == Unread(w);
  }

  lemma InvStep(w: World, s: Step)
    requires Inv(w) && Enabled(w, s)
    ensures Inv(Apply(w, s))
  {
    CoreStep(w, s);
    HandshakeStep(w, s);
    EventStep(w, s);
    if s.Run? {
      RunCloses(w, s.recvs, s.sends, s.idle);
    } else {
      CloseStep(w, s);
      LeavingStep(w, s);
    }
  }

  /** Every run keeps the invariant. */
  lemma {:induction false} RunsKeepInv(w: World, steps: seq<Step>)
    requires Inv(w)
    ensures Inv(Exec(w, steps))
    decreases |steps|
  {
    if steps != [] {
      if Enabled(w, steps[0]) {
        InvStep(w, steps[0]);
        RunsKeepInv(Apply(w, steps[0]), steps[1..]);
      } else {
        RunsKeepInv(w, steps[1..]);
      }
    }
  }

  lemma StartInv()
    ensures Inv(WORLD_START)
  {
    assert Unsent(CORE_START.tx) == [];
  }

  // ---------- what the invariant means ----------

  /** One-shot handshake: in every reachable state at most one registration, report or callback is under way,
      it implies the arming flag whenever the mutex is free, no report was ever overwritten before an update
      read it, and every report was read once, in order, or is still on its way. */
  lemma OneShotHandshake(steps: seq<Step>)
    ensures var w := Exec(WORLD_START, steps);
            && Tokens(w) <= 1
            && (w.mutex.NoOne? ==> (w.inEpoll <==> Tokens(w) == 1))
            && (w.poller.Entered? ==> w.events == NO_EVENTS) && !w.clobbered
            && w.delivered == w.consumed + Unread(w)
  {
    RunsKeepInv(WORLD_START, steps);
  }

  /** Close machine: the error state is never visible, `on_closed` has run exactly once when the session is
      closed or deleted and never before, and at most two updates ever see the session pre-closed. The second
      one is only needed when a report that closes was read after the session had left the running state. */
  lemma CloseMachine(steps: seq<Step>)
    ensures var w := Exec(WORLD_START, steps);
            && !w.core.status.Error? && !w.core.status.Fresh?
            && w.core.closings == (if w.core.status.Closed? then 1 else 0)
            && (w.deleted ==> w.core.status.Closed?)
            && (w.core.status.PreClosed? ==> w.laps <= 1)
            && (w.core.status.Closed? && w.logic.Idle? ==> w.deleted && w.laps <= 2)
            && ((w.core.status.PreClosed? && w.laps == 1) || (w.core.status.Closed? && w.laps == 2) ==>
                  w.readBefore < |w.consumed| && Closing(w.consumed[|w.consumed| - 1]))
  {
    StartInv();
    hide CoreOk, MutexOk, Unread;
    RunsKeepInv(WORLD_START, steps);
  }

  lemma ExecFirst(w: World, s: Step, rest: seq<Step>)
    ensures Exec(w, [s] + rest) == Exec(Try(w, s), rest)
  {
    assert ([s] + rest)[1..] == rest;
  }

  /** The steps of an update that gets the mutex. */
  function UpdateSteps(recvs: seq<RecvAnswer>, sends: seq<SendAnswer>, idle: bool): seq<Step> {
    [TryLock(false)] + ([WakeUp] + ([Run(recvs, sends, idle)] + ([Register] + ([MarkArmed] + ([SkipArming] + ([Unlock] + []))))))
  }

  /** An update that nothing interrupts: one run of the body on what the readiness word says, and a
      registration exactly when the session is running and not armed. */
  lemma UpdateIsRun(w: World, recvs: seq<RecvAnswer>, sends: seq<SendAnswer>, idle: bool)
    requires w.logic.Idle? && w.mutex.NoOne? && !w.deleted && TxOk(w.core.tx) && RxOk(w.core.rx)
    ensures var w' := Exec(w, UpdateSteps(recvs, sends, idle));
            var c := Body(Ready(w.core, w.events), Closing(w.events), recvs, sends, idle);
            && w'.core == c && w'.events == NO_EVENTS && w'.inEpoll == (w.inEpoll || c.status.Running?)
            && w'.armed == w.armed + (if !w.inEpoll && c.status.Running? then 1 else 0)
            && w'.logic.Check? && w'.mutex.NoOne? && w'.inflight == w.inflight && w'.poller == w.poller && w'.deleted == w.deleted
  {
    var w1 := Try(w, TryLock(false));
    var w2 := Try(w1, WakeUp);
    WokenUp(w);
    var c := Body(w2.core, w2.logic.shouldClose, recvs, sends, idle);
    var w3 := Try(w2, Run(recvs, sends, idle));
    RanBody(w2, recvs, sends, idle);
    Armed(w3);
    var w4 := Try(w3, Register);
    var w5 := Try(w4, MarkArmed);
    var w6 := Try(w5, SkipArming);
    var w7 := Try(w6, Unlock);
    hide Try, Enabled, Apply, Body, Ready, Closing;
    ExecFirst(w, TryLock(false), [WakeUp] + ([Run(recvs, sends, idle)] + ([Register] + ([MarkArmed] + ([SkipArming] + ([Unlock] + []))))));
    ExecFirst(w1, WakeUp, [Run(recvs, sends, idle)] + ([Register] + ([MarkArmed] + ([SkipArming] + ([Unlock] + [])))));
    ExecFirst(w2, Run(recvs, sends, idle), [Register] + ([MarkArmed] + ([SkipArming] + ([Unlock] + []))));
    ExecFirst(w3, Register, [MarkArmed] + ([SkipArming] + ([Unlock] + [])));
    ExecFirst(w4, MarkArmed, [SkipArming] + ([Unlock] + []));
    ExecFirst(w5, SkipArming, [Unlock] + []);
    ExecFirst(w6, Unlock, []);
  }

  lemma WokenUp(w: World)
    requires w.logic.Idle? && w.mutex.NoOne? && !w.deleted
    ensures var w2 := Try(Try(w, TryLock(false)), WakeUp);
            && w2.core == Ready(w.core, w.events) && w2.events == NO_EVENTS && w2.logic == Woken(Closing(w.events))
            && w2.mutex.LogicThread? && w2.inEpoll == w.inEpoll && w2.armed == w.armed
            && w2.inflight == w.inflight && w2.poller == w.poller && w2.deleted == w.deleted
  {
    if w.events == NO_EVENTS {
      assert Ready(w.core, NO_EVENTS) == w.core;
    }
  }

  lemma RanBody(w: World, recvs: seq<RecvAnswer>, sends: seq<SendAnswer>, idle: bool)
    requires w.logic.Woken? && TxOk(w.core.tx) && RxOk(w.core.rx)
    ensures var w3 := Try(w, Run(recvs, sends, idle));
            && w3.core == Body(w.core, w.logic.shouldClose, recvs, sends, idle) && w3.logic.Ran?
            && w3.events == w.events && w3.mutex == w.mutex && w3.inEpoll == w.inEpoll && w3.armed == w.armed
            && w3.inflight == w.inflight && w3.poller == w.poller && w3.deleted == w.deleted
  {
    hide Body, TxOk, RxOk;
  }

  lemma Armed(w: World)
    requires w.logic.Ran?
    ensures var w' := Try(Try(Try(Try(w, Register), MarkArmed), SkipArming), Unlock);
            && w'.core == w.core && w'.events == w.events && w'.inEpoll == (w.inEpoll || w.core.status.Running?)
            && w'.armed == w.armed + (if !w.inEpoll && w.core.status.Running? then 1 else 0)
            && w'.logic.Check? && w'.mutex.NoOne? && w'.inflight == w.inflight && w'.poller == w.poller && w'.deleted == w.deleted
  {
    var w4 := Try(w, Register);
    var w5 := Try(w4, MarkArmed);
    var w6 := Try(w5, SkipArming);
    if MustArm(w) {
      assert w4.logic.Registered? && w5.logic.Marked? && w6 == w5;
    } else {
      assert w4 == w && w5 == w && w6.logic.Marked?;
    }
  }

  lemma {:induction false} ExecAppend(w: World, a: seq<Step>, b: seq<Step>)
    ensures Exec(w, a + b) == Exec(Exec(w, a), b)
    decreases |a|
  {
    hide Enabled, Apply;
    if a == [] {
      assert a + b == b;
    } else {
      assert (a + b)[1..] == a[1..] + b;
      ExecAppend(if Enabled(w, a[0]) then Apply(w, a[0]) else w, a[1..], b);
    }
  }

  lemma OneStep(w: World, a: Step)
    ensures Exec(w, [a]) == Try(w, a)
  {
    hide Enabled, Apply, Try;
    ExecFirst(w, a, []);
    assert [a] + [] == [a];
  }

  lemma TwoSteps(w: World, a: Step, b: Step)
    ensures Exec(w, [a, b]) == Try(Try(w, a), b)
  {
    hide Enabled, Apply, Try;
    ExecFirst(w, a, [b]);
    ExecFirst(Try(w, a), b, []);
    assert [a] + [b] == [a, b] && [b] + [] == [b];
  }

  /** The callback of a report on its way. */
  const CALLBACK: seq<Step> := [Enter, WriteEvents] + [ClearArmed, Leave]

  lemma CallbackRuns(w: World)
    requires w.poller.Waiting? && w.mutex.NoOne? && w.inflight != []
    ensures var w' := Exec(w, CALLBACK);
            && w'.poller.Returned? && w'.mutex.NoOne? && w'.events == w.inflight[0] && !w'.inEpoll
            && w'.inflight == w.inflight[1..] && w'.core == w.core && w'.deleted == w.deleted && w'.logic == w.logic
            && w'.stale == (w.stale || w.deleted) && w'.keyLate == w.keyLate && w'.armed == w.armed
  {
    var w1 := Try(Try(w, Enter), WriteEvents);
    hide Exec;
    TwoSteps(w, Enter, WriteEvents);
    TwoSteps(w1, ClearArmed, Leave);
    ExecAppend(w, [Enter, WriteEvents], [ClearArmed, Leave]);
  }

  lemma StatusStep(w: World, s: Step)
    requires Inv(w) && Enabled(w, s)
    ensures Stage(w.core.status) <= Stage(Apply(w, s).core.status)
  {
    assert TxOk(w.core.tx) && RxOk(w.core.rx);
    hide CoreOk, TxOk, RxOk, Body, SendFrame, Stored, Faithful, HandshakeOk;
    if s.Run? {
      BodyStatus(w.core, w.logic.shouldClose, s.recvs, s.sends, s.idle);
    }
  }

  /** The status only moves forward, so a session that has left the running state never returns to it. */
  lemma {:induction false} StatusMovesForward(w: World, steps: seq<Step>)
    requires Inv(w)
    ensures Stage(w.core.status) <= Stage(Exec(w, steps).core.status)
    decreases |steps|
  {
    if steps != [] {
      if Enabled(w, steps[0]) {
        InvStep(w, steps[0]);
        StatusStep(w, steps[0]);
        StatusMovesForward(Apply(w, steps[0]), steps[1..]);
      } else {
        StatusMovesForward(w, steps[1..]);
      }
    }
  }

  /** Send conservation: what the socket took, what is left of the current block and the queue make up
      exactly the bytes stored, in order, and blocks are kept full but for the last one. */
  lemma SendConservation(steps: seq<Step>)
    ensures var c := Exec(WORLD_START, steps).core;
            && TxOk(c.tx) && QueueOk(c.tx.queue)
            && c.hist.taken + Unsent(c.tx) == c.hist.stored
            && (c.hist.faithful ==> c.hist.taken + Unsent(c.tx) == Frames(c.hist.accepted))
  {
    RunsKeepInv(WORLD_START, steps);
  }

  /** Graceful shutdown: at most one call, only after `Disconnect`, with every byte stored by then taken. */
  lemma ShutdownIsGraceful(steps: seq<Step>)
    ensures var c := Exec(WORLD_START, steps).core;
            && c.hist.shutdowns <= 1
            && (c.hist.shutdowns == 1 ==>
                  c.disconnect && c.hist.mark <= |c.hist.stored| && c.hist.taken == c.hist.stored[..c.hist.mark])
  {
    RunsKeepInv(WORLD_START, steps);
  }

  /** End to end: take any run of a sending and of a receiving session, with any partial writes, blocking or
      interrupted calls and any chunks, the network having delivered some prefix of what the sender's socket
      took. If every `Send` was faithful and of an accepted size, the receiver has pushed exactly the
      payloads that have arrived in full, in order and byte for byte, and has not given the stream up. */
  lemma EndToEnd(sender: seq<Step>, receiver: seq<Step>)
    requires var s, r := Exec(WORLD_START, sender).core.hist, Exec(WORLD_START, receiver).core.hist;
             && s.faithful && (forall p | p in s.accepted :: Sendable(p))
             && r.received <= s.taken
    ensures var s, r := Exec(WORLD_START, sender).core.hist, Exec(WORLD_START, receiver).core;
            && r.rx.pushed == s.accepted[..Arrived(s.accepted, |r.hist.received|)]
            && !Dead(r.rx)
  {
    CoreOfRun(sender);
    CoreOfRun(receiver);
    CoreEndToEnd(Exec(WORLD_START, sender).core, Exec(WORLD_START, receiver).core);
  }

  lemma CoreOfRun(steps: seq<Step>)
    ensures CoreOk(Exec(WORLD_START, steps).core)
  {
    RunsKeepInv(WORLD_START, steps);
  }

  /** ... and once everything stored has been received, that is every payload accepted. */
  lemma AllArrived(ps: seq<seq<byte>>)
    ensures Arrived(ps, |Frames(ps)|) == |ps|
  {
    if ps != [] {
      AllArrived(ps[1..]);
    }
  }
}
