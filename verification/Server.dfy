/** A server as the sessions it has: what the calls of its logic thread, its poller and its listener come to,
    session by session. */
module Servers {
  import opened Bytes
  import opened Framing
  import opened LinuxSession

  /** A session as the state machine sees it, with the fields it shares with the poller thread. */
  datatype View = View(core: Core, events: Events, inEpoll: bool)

  predicate ViewOk(v: View) { TxOk(v.core.tx) && RxOk(v.core.rx) }

  const VIEW_START := View(CORE_START, NO_EVENTS, false)

  /** What one update of a session meets. */
  datatype Args = Args(gotLock: bool, recvs: seq<RecvAnswer>, sends: seq<SendAnswer>, idle: bool)

  function Updated(v: View, a: Args): (r: View)
    requires ViewOk(v)
  {
    if !a.gotLock then v
    else
      var c := Body(Ready(v.core, v.events), Closing(v.events), a.recvs, a.sends, a.idle);
      View(c, NO_EVENTS, v.inEpoll || c.status.Running?)
  }

  /** The driver's pass: every session is updated, in order, and those that are closed then leave. */
  function Driven(vs: seq<View>, args: nat -> Args, n: nat): (r: seq<View>)
    requires forall i | 0 <= i < |vs| :: ViewOk(vs[i])
    ensures |r| <= |vs|
    decreases |vs|
  {
    if vs == [] then []
    else
      var v := Updated(vs[0], args(n));
      (if v.core.status.Closed? then [] else [v]) + Driven(vs[1..], args, n + 1)
  }

  /** Whether the pass deletes a session that has blocks in its queue. */
  predicate Lossy(vs: seq<View>, args: nat -> Args, n: nat)
    requires forall i | 0 <= i < |vs| :: ViewOk(vs[i])
    decreases |vs|
  {
    if vs == [] then false
    else
      var v := Updated(vs[0], args(n));
      (v.core.status.Closed? && v.core.tx.queue != []) || Lossy(vs[1..], args, n + 1)
  }

  /** Calls the logic thread makes from outside, and what the poller thread and the listener do. A call for a
      session that is not there is none. */
  datatype Call =
    | Drive(args: nat -> Args) | Send(i: nat, p: seq<byte>) | Disconnect(i: nat)
    | Poll(i: nat, ev: Events) | Accept | Pop | Release

  /** What a call comes to: each session does what it would do alone. */
  function Called(vs: seq<View>, c: Call): seq<View>
    requires forall i | 0 <= i < |vs| :: ViewOk(vs[i])
  {
    match c
    case Drive(args) => Driven(vs, args, 0)
    case Send(i, p) =>
      if i < |vs| then
        assert ViewOk(vs[i]);
        vs[i := vs[i].(core := LinuxSession.Send(vs[i].core, p, AsWritten))]
      else vs
    case Disconnect(i) => if i < |vs| then vs[i := vs[i].(core := LinuxSession.Disconnect(vs[i].core))] else vs
    case Poll(i, ev) => if i < |vs| then vs[i := vs[i].(events := ev, inEpoll := false)] else vs
    case Accept => vs + [VIEW_START]
    case Pop => vs
    case Release => vs
  }

  function CalledAll(vs: seq<View>, calls: seq<Call>): seq<View>
    requires forall i | 0 <= i < |vs| :: ViewOk(vs[i])
    decreases |calls|
  {
    if calls == [] then vs
    else
      CalledOk(vs, calls[0]);
      CalledAll(Called(vs, calls[0]), calls[1..])
  }

  /** ... and whether any pass among some calls does. */
  predicate LossyAll(vs: seq<View>, calls: seq<Call>)
    requires forall i | 0 <= i < |vs| :: ViewOk(vs[i])
    decreases |calls|
  {
    if calls == [] then false
    else
      CalledOk(vs, calls[0]);
      (calls[0].Drive? && Lossy(vs, calls[0].args, 0)) || LossyAll(Called(vs, calls[0]), calls[1..])
  }

  lemma CalledOk(vs: seq<View>, c: Call)
    requires forall i | 0 <= i < |vs| :: ViewOk(vs[i])
    ensures forall i | 0 <= i < |Called(vs, c)| :: ViewOk(Called(vs, c)[i])
  {
    match c
    case Drive(args) => DrivenOk(vs, args, 0);
    case _ =>
  }

  lemma UpdatedOk(v: View, a: Args)
    requires ViewOk(v)
    ensures ViewOk(Updated(v, a))
  {
  }

  lemma {:induction false} DrivenOk(vs: seq<View>, args: nat -> Args, n: nat)
    requires forall i | 0 <= i < |vs| :: ViewOk(vs[i])
    ensures forall i | 0 <= i < |Driven(vs, args, n)| :: ViewOk(Driven(vs, args, n)[i])
    decreases |vs|
  {
    hide Updated, ViewOk;
    if vs != [] {
      UpdatedOk(vs[0], args(n));
      DrivenOk(vs[1..], args, n + 1);
    }
  }

  lemma DrivenFirst(vs: seq<View>, args: nat -> Args, n: nat)
    requires vs != [] && forall i | 0 <= i < |vs| :: ViewOk(vs[i])
    ensures var v := Updated(vs[0], args(n));
            Driven(vs, args, n) == (if v.core.status.Closed? then [] else [v]) + Driven(vs[1..], args, n + 1)
  {
    hide Updated, ViewOk;
  }

  /** One turn of the driver's loop, on views. */
  lemma DrivenStep(vs: seq<View>, it: nat, args: nat -> Args, n: nat)
    requires (forall i | 0 <= i < |vs| :: ViewOk(vs[i])) && it < |vs|
    ensures var v := Updated(vs[it], args(n));
            var gone := v.core.status.Closed?;
            var vs' := if gone then vs[..it] + vs[it + 1..] else vs[it := v];
            var it' := if gone then it else it + 1;
            (forall i | 0 <= i < |vs'| :: ViewOk(vs'[i])) ==>
              vs[..it] + Driven(vs[it..], args, n) == vs'[..it'] + Driven(vs'[it'..], args, n + 1)
  {
    hide Updated, ViewOk, Driven;
    DrivenFirst(vs[it..], args, n);
    var v := Updated(vs[it], args(n));
    var rest := Driven(vs[it + 1..], args, n + 1);
    assert vs[it..][1..] == vs[it + 1..] && vs[it..][0] == vs[it];
    if v.core.status.Closed? {
      assert (vs[..it] + vs[it + 1..])[it..] == vs[it + 1..] && (vs[..it] + vs[it + 1..])[..it] == vs[..it];
    } else {
      assert vs[it := v][it + 1..] == vs[it + 1..] && vs[it := v][..it + 1] == vs[..it] + [v];
      Assoc(vs[..it], [v], rest);
    }
  }

  lemma LossyStep(vs: seq<View>, it: nat, args: nat -> Args, n: nat)
    requires (forall i | 0 <= i < |vs| :: ViewOk(vs[i])) && it < |vs|
    ensures var v := Updated(vs[it], args(n));
            var gone := v.core.status.Closed?;
            var vs' := if gone then vs[..it] + vs[it + 1..] else vs[it := v];
            var it' := if gone then it else it + 1;
            (forall i | 0 <= i < |vs'| :: ViewOk(vs'[i])) ==>
              Lossy(vs[it..], args, n) == ((gone && v.core.tx.queue != []) || Lossy(vs'[it'..], args, n + 1))
  {
    hide Updated, ViewOk;
    var v := Updated(vs[it], args(n));
    assert vs[it..][1..] == vs[it + 1..] && vs[it..][0] == vs[it];
    if v.core.status.Closed? {
      assert (vs[..it] + vs[it + 1..])[it..] == vs[it + 1..];
    } else {
      assert vs[it := v][it + 1..] == vs[it + 1..];
    }
  }

  // ---------- what every session of a server keeps ----------

  lemma {:induction false} DrivenKeeps(vs: seq<View>, args: nat -> Args, n: nat)
    requires forall i | 0 <= i < |vs| :: CoreOk(vs[i].core)
    ensures (forall i | 0 <= i < |vs| :: ViewOk(vs[i])) && forall i | 0 <= i < |Driven(vs, args, n)| :: CoreOk(Driven(vs, args, n)[i].core)
    decreases |vs|
  {
    assert forall i | 0 <= i < |vs| :: ViewOk(vs[i]);
    if vs != [] {
      UpdatedKeeps(vs[0], args(n));
      hide Updated, CoreOk, ViewOk;
      DrivenKeeps(vs[1..], args, n + 1);
    }
  }

  lemma UpdatedKeeps(v: View, a: Args)
    requires CoreOk(v.core)
    ensures ViewOk(v) && CoreOk(Updated(v, a).core)
  {
    var c := Ready(v.core, v.events);
    assert c.hist == v.core.hist && c.tx == v.core.tx && c.rx == v.core.rx;
    BodyKeeps(c, Closing(v.events), a.recvs, a.sends, a.idle);
  }

  /** In any run of a server every session keeps conservation, graceful shutdown and parsing. */
  lemma {:induction false} ServerKeeps(vs: seq<View>, calls: seq<Call>)
    requires forall i | 0 <= i < |vs| :: CoreOk(vs[i].core)
    ensures (forall i | 0 <= i < |vs| :: ViewOk(vs[i])) && forall i | 0 <= i < |CalledAll(vs, calls)| :: CoreOk(CalledAll(vs, calls)[i].core)
    decreases |calls|
  {
    assert forall i | 0 <= i < |vs| :: ViewOk(vs[i]);
    if calls != [] {
      CallKeeps(vs, calls[0]);
      hide CoreOk, ViewOk, Called;
      ServerKeeps(Called(vs, calls[0]), calls[1..]);
    }
  }

  lemma CallKeeps(vs: seq<View>, c: Call)
    requires forall i | 0 <= i < |vs| :: CoreOk(vs[i].core)
    ensures (forall i | 0 <= i < |vs| :: ViewOk(vs[i])) && forall i | 0 <= i < |Called(vs, c)| :: CoreOk(Called(vs, c)[i].core)
  {
    assert forall i | 0 <= i < |vs| :: ViewOk(vs[i]);
    match c
    case Drive(args) => DrivenKeeps(vs, args, 0);
    case Send(i, p) =>
      if i < |vs| {
        SendKeeps(vs[i].core, p, AsWritten);
      }
    case Disconnect(i) =>
      if i < |vs| {
        var d := LinuxSession.Disconnect(vs[i].core);
        assert d.hist == vs[i].core.hist && d.tx == vs[i].core.tx && d.rx == vs[i].core.rx;
      }
    case Accept => assert Unsent(CORE_START.tx) == [];
    case _ =>
  }

  // ---------- a server that loses a block ----------

  const FAILING: nat -> Args := (n: nat) => Args(true, [RecvFailed], [], false)
  const CLOSING: nat -> Args := (n: nat) => Args(true, [], [], false)

  /** A payload is sent; the socket fails before it is taken, and the next pass deletes the session. */
  const LOSING_CALLS: seq<Call> := [Send(0, [1, 2]), Drive(FAILING), Drive(CLOSING)]

  lemma SentQueued(c: Core)
    requires c == CORE_START
    ensures var c' := LinuxSession.Send(c, [1, 2], AsWritten);
            c'.tx.queue != [] && c'.status == c.status && c'.rx == c.rx && c'.rdReady == c.rdReady && c'.recvOver == c.recvOver
  {
    SendAsWritten([], [1, 2]);
    hide SendFrame;
    assert |Repeated(BLOCK, Le(2, HEADER), HEADER)| > 0;
    assert Flat(c.tx.queue) == [];
  }

  lemma FailedKeepsQueue(v: View)
    requires ViewOk(v) && v.core.status.Running? && v.core.rdReady && !v.core.recvOver && v.core.tx.queue != []
    requires v.events == NO_EVENTS
    ensures var r := Updated(v, FAILING(0)); r.core.status.PreClosed? && r.core.tx == v.core.tx && r.events == NO_EVENTS
  {
    assert RecvLoop(v.core.rx, [RecvFailed]) == Got(v.core.rx, [], Failed);
  }

  lemma ClosedKeepsQueue(v: View)
    requires ViewOk(v) && v.core.status.PreClosed? && v.core.tx.queue != [] && v.events == NO_EVENTS
    ensures var r := Updated(v, CLOSING(0)); r.core.status.Closed? && r.core.tx == v.core.tx
  {
  }

  lemma LossExample()
    ensures ViewOk(VIEW_START) && LossyAll([VIEW_START], LOSING_CALLS)
  {
    var v0 := VIEW_START;
    var v1 := v0.(core := LinuxSession.Send(v0.core, [1, 2], AsWritten));
    SentQueued(v0.core);
    var v2 := Updated(v1, FAILING(0));
    FailedKeepsQueue(v1);
    ClosedKeepsQueue(v2);
    hide Updated, LinuxSession.Send;
    assert Driven([v1], FAILING, 0) == [v2] by {
      assert [v1][1..] == [];
    }
    assert Lossy([v2], CLOSING, 0);
    assert LOSING_CALLS[1..][1..] == [Drive(CLOSING)];
    assert [v0][0 := v1] == [v1];
    assert LossyAll([v2], [Drive(CLOSING)]);
    assert LossyAll([v1], LOSING_CALLS[1..]);
  }
}
