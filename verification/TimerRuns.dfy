/** Two questions about timers over whole runs: how often one fires, and at which ticks. */
module TimerRuns {
  import opened Bytes
  import opened TimerPass

  function Count(xs: seq<nat>, x: nat): nat
  {
    if xs == [] then 0 else (if xs[0] == x then 1 else 0) + Count(xs[1..], x)
  }

  lemma {:induction false} CountAppend(a: seq<nat>, b: seq<nat>, x: nat)
    ensures Count(a + b, x) == Count(a, x) + Count(b, x)
  {
    if a == [] {
      assert a + b == b;
    } else {
      assert (a + b)[1..] == a[1..] + b;
      CountAppend(a[1..], b, x);
    }
  }

  lemma {:induction false} CountIn(xs: seq<nat>, x: nat)
    ensures Count(xs, x) > 0 <==> x in xs
  {
    if xs != [] {
      CountIn(xs[1..], x);
    }
  }

  lemma {:induction false} CountAscending(xs: seq<nat>, x: nat)
    requires Ascending(xs)
    ensures Count(xs, x) <= 1
  {
    if xs != [] {
      CountAscending(xs[1..], x);
      CountIn(xs[1..], x);
    }
  }

  /** One event: what it leaves, and what it fires. */
  function One(m: Manager, e: Event): Turn {
    match e
    case Call(a) => Turn(Do(m, a), [])
    case Tick(now, due, does) => Update(m, now, due, does)
  }

  /** The calls made in one event, by callbacks or from elsewhere. */
  function CallsOf(m: Manager, e: Event): seq<Action> {
    match e
    case Call(a) => [a]
    case Tick(now, due, does) => ActsOf(Update(m, now, due, does).fired, does)
  }

  /** ... and in a run. */
  function Calls(m: Manager, events: seq<Event>): seq<Action>
    decreases |events|
  {
    if events == [] then [] else CallsOf(m, events[0]) + Calls(One(m, events[0]).m, events[1..])
  }

  lemma OneOk(m: Manager, e: Event)
    requires Ok(m) && !m.inProcess
    ensures Ok(One(m, e).m) && !One(m, e).m.inProcess
  {
    hide Ok, Do, Update;
    match e
    case Call(a) => DoOk(m, a);
    case Tick(now, due, does) => UpdateOk(m, now, due, does);
  }

  // ---------- facets of the invariant and of an update ----------

  /** In between updates there is one list, with an identifier for each timer. */
  lemma ListOk(m: Manager)
    requires Ok(m) && !m.inProcess
    ensures All(m) == m.timers && Increasing(m.timers)
    ensures forall t | t in m.timers :: 1 <= t.tid <= m.lastId
  {
    hide Booked, BooksOk;
    assert All(m) == m.timers;
    TidsBound(m);
  }

  /** No other timer of the list has the identifier of a timer. */
  lemma OnlyOne(m: Manager, t: Timer)
    requires Ok(m) && !m.inProcess && t in m.timers
    ensures t.tid <= m.lastId && forall u | u in m.timers && u.tid == t.tid :: u == t
  {
    hide Ok;
    ListOk(m);
  }

  lemma QuietWithout(m: Manager, tid: nat)
    requires Ok(m) && !m.inProcess && tid <= m.lastId && forall t | t in m.timers :: t.tid != tid
    ensures Quiet(m, {tid})
  {
    hide Ok;
    ListOk(m);
    assert forall i | 0 <= i < |m.timers| :: m.timers[i] in m.timers;
  }

  lemma UpdateIds(m: Manager, now: nat, due: (nat, nat) -> bool, does: nat -> seq<Action>)
    requires Ok(m) && !m.inProcess
    ensures var r := Update(m, now, due, does);
            && r.m.lastId == m.lastId + |Made(m.lastId, ActsOf(r.fired, does))|
            && Ascending(r.fired) && forall x | x in r.fired :: Among(x, m.timers) && x <= m.lastId
  {
    hide Ok, Update, Gone, Left, Made, Plain, Ascending;
    UpdateTheorem(m, now, due, does);
    ListOk(m);
    assert forall k | 0 <= k < |m.timers| :: m.timers[k] in m.timers;
  }

  lemma Fires(m: Manager, now: nat, due: (nat, nat) -> bool, does: nat -> seq<Action>, t: Timer)
    requires Ok(m) && !m.inProcess && t in m.timers
    ensures var fired := Update(m, now, due, does).fired;
            t.tid in fired <==> due(t.count, t.interval) && !Gone(t, fired, does)
  {
    hide Ok, Update, Gone, Left, Made, Plain, Ascending;
    UpdateTheorem(m, now, due, does);
  }

  /** Where a timer of the list comes from after a call. */
  lemma CallOrigin(m: Manager, a: Action, t: Timer) returns (k: nat)
    requires !m.inProcess && t in Do(m, a).timers
    ensures k <= |m.timers|
    ensures if k < |m.timers| then t == Hit(m.timers[k], t.canceled) && m.timers[k] in m.timers
            else a.Create? && t == NewTimer(m, a)
  {
    k :| 0 <= k < |Do(m, a).timers| && Do(m, a).timers[k] == t;
  }

  // ---------- how often a timer fires ----------

  /** The timers with an identifier that was given out are all to fire once. */
  predicate Single(m: Manager, tid: nat) {
    tid <= m.lastId && forall t | t in m.timers && t.tid == tid :: t.once
  }

  lemma DoSingle(m: Manager, a: Action, tid: nat)
    requires !m.inProcess && Single(m, tid)
    ensures Single(Do(m, a), tid)
  {
    assert Do(m, a).lastId >= m.lastId;
    hide Do;
    forall t | t in Do(m, a).timers && t.tid == tid
      ensures t.once
    {
      var k := CallOrigin(m, a, t);
    }
  }

  /** After an update a timer that fires once and has fired is gone; one that has not fired still fires once. */
  lemma UpdateSingle(m: Manager, now: nat, due: (nat, nat) -> bool, does: nat -> seq<Action>, tid: nat)
    requires Ok(m) && !m.inProcess && Single(m, tid)
    ensures var r := Update(m, now, due, does);
            && Count(r.fired, tid) <= 1 && (tid in r.fired ==> Quiet(r.m, {tid}))
            && (tid !in r.fired ==> Single(r.m, tid))
  {
    hide Ok, Update, Gone, Count, Quiet, Ascending, Made;
    var r := Update(m, now, due, does);
    UpdateOk(m, now, due, does);
    UpdateIds(m, now, due, does);
    CountAscending(r.fired, tid);
    forall t | t in r.m.timers && t.tid == tid
      ensures tid !in r.fired && t.once
    {
      var k := Origin(m, now, due, does, t);
      if k < |m.timers| {
        assert m.timers[k] in m.timers;
      }
    }
    if tid in r.fired {
      QuietWithout(r.m, tid);
    }
  }

  /** A timer created to fire once fires at most once, whatever happens. */
  lemma {:induction false} SingleFiresOnce(m: Manager, events: seq<Event>, tid: nat)
    requires Ok(m) && !m.inProcess && Single(m, tid)
    ensures Count(History(m, events).fired, tid) <= 1
    decreases |events|
  {
    hide Ok, Do, Update, Single, Quiet;
    if events != [] {
      OneOk(m, events[0]);
      var one := One(m, events[0]);
      CountAppend(one.fired, History(one.m, events[1..]).fired, tid);
      CountIn(History(one.m, events[1..]).fired, tid);
      CountIn(one.fired, tid);
      match events[0]
      case Call(a) =>
        DoSingle(m, a, tid);
        SingleFiresOnce(one.m, events[1..], tid);
      case Tick(now, due, does) =>
        UpdateSingle(m, now, due, does, tid);
        if tid in one.fired {
          NeverAgain(one.m, events[1..], {tid});
        } else {
          SingleFiresOnce(one.m, events[1..], tid);
        }
    }
  }

  lemma {:induction false} MadeAppend(lastId: nat, a: seq<Action>, b: seq<Action>)
    ensures Made(lastId, a + b) == Made(lastId, a) + Made(lastId + |Made(lastId, a)|, b)
    decreases |a|
  {
    if a == [] {
      assert a + b == b;
    } else {
      assert (a + b)[1..] == a[1..] + b;
      MadeAppend(if a[0].Create? then lastId + 1 else lastId, a[1..], b);
    }
  }

  /** The timers an event creates, which it does not fire. */
  lemma OneMakes(m: Manager, e: Event)
    requires Ok(m) && !m.inProcess
    ensures Makes(m, One(m, e), Made(m.lastId, CallsOf(m, e)))
  {
    match e
    case Call(a) => CallMakes(m, a);
    case Tick(now, due, does) => UpdateMakes(m, now, due, does);
  }

  /** A timer is the one of its identifier among those made since `lastId` was the last, if it is so young. */
  predicate Bred(t: Timer, lastId: nat, made: seq<Timer>) {
    t.tid > lastId ==> t.tid - lastId - 1 < |made| && t.once == made[t.tid - lastId - 1].once
  }

  predicate Makes(m: Manager, one: Turn, made: seq<Timer>) {
    && one.m.lastId == m.lastId + |made| && (forall x | x in one.fired :: x <= m.lastId)
    && forall t | t in one.m.timers :: Bred(t, m.lastId, made)
  }

  lemma CallMakes(m: Manager, a: Action)
    requires Ok(m) && !m.inProcess
    ensures Makes(m, Turn(Do(m, a), []), Made(m.lastId, [a]))
  {
    hide Ok, Do, Made;
    ListOk(m);
    MadeOne(m, a);
    forall t | t in Do(m, a).timers
      ensures Bred(t, m.lastId, if a.Create? then [NewTimer(m, a)] else [])
    {
      var k := CallOrigin(m, a, t);
    }
  }

  lemma MadeOne(m: Manager, a: Action)
    ensures Made(m.lastId, [a]) == if a.Create? then [NewTimer(m, a)] else []
    ensures Do(m, a).lastId == m.lastId + |Made(m.lastId, [a])|
  {
    assert [a][1..] == [];
  }

  lemma UpdateMakes(m: Manager, now: nat, due: (nat, nat) -> bool, does: nat -> seq<Action>)
    requires Ok(m) && !m.inProcess
    ensures var r := Update(m, now, due, does); Makes(m, r, Made(m.lastId, ActsOf(r.fired, does)))
  {
    hide Ok, Update, Made, ActsOf, Stays, Among, Ascending;
    var r := Update(m, now, due, does);
    var made := Made(m.lastId, ActsOf(r.fired, does));
    UpdateIds(m, now, due, does);
    forall t | t in r.m.timers
      ensures Bred(t, m.lastId, made)
    {
      var k := Origin(m, now, due, does, t);
      if k < |m.timers| {
        assert m.timers[k] in m.timers;
        ListOk(m);
      }
    }
  }

  /** Every timer that is created in a run to fire once, by a callback or otherwise, fires at most once in it. */
  lemma {:induction false} BornSingle(m: Manager, events: seq<Event>, tid: nat)
    requires Ok(m) && !m.inProcess && tid > m.lastId
    requires var made := Made(m.lastId, Calls(m, events)); tid - m.lastId - 1 < |made| && made[tid - m.lastId - 1].once
    ensures Count(History(m, events).fired, tid) <= 1
    decreases |events|
  {
    hide Ok, Do, Update, CallsOf, Made, Count;
    assert events != [] by { MadeNothing(m.lastId); }
    var one, rest := One(m, events[0]), events[1..];
    OneOk(m, events[0]);
    OneMakes(m, events[0]);
    CountAppend(one.fired, History(one.m, rest).fired, tid);
    CountIn(one.fired, tid);
    MadeAppend(m.lastId, CallsOf(m, events[0]), Calls(one.m, rest));
    if tid <= one.m.lastId {
      forall t | t in one.m.timers && t.tid == tid
        ensures t.once
      {
        assert Bred(t, m.lastId, Made(m.lastId, CallsOf(m, events[0])));
      }
      SingleFiresOnce(one.m, rest, tid);
    } else {
      BornSingle(one.m, rest, tid);
    }
  }

  lemma MadeNothing(lastId: nat)
    ensures Made(lastId, []) == []
  {
  }

  /** A run from the start: every timer ever created, told by its place in the order of creation. */
  lemma OnceFiresOnce(events: seq<Event>, tid: nat)
    requires var made := Made(0, Calls(START, events)); 1 <= tid <= |made| && made[tid - 1].once
    ensures Count(History(START, events).fired, tid) <= 1
  {
    hide Ok, Made, Calls, History, Count;
    StartOk();
    assert 1 <= tid && tid - START.lastId - 1 < |Made(0, Calls(START, events))|;
    BornSingle(START, events, tid);
  }

  /** A callback that does nothing. */
  const NOTHING: nat -> seq<Action> := (x: nat) => []

  /** An update at a tick that is not past a timer fires the timer, and it stays if it is not to fire once. */
  lemma FiresAndStays(m: Manager, t: Timer)
    requires Ok(m) && !m.inProcess && t in m.timers && !t.canceled
    ensures var r := Update(m, t.count, DueAsWritten(t.count), NOTHING);
            Ok(r.m) && !r.m.inProcess && t.tid in r.fired && (!t.once ==> t in r.m.timers)
  {
    hide Ok, Update, Killed;
    var r := Update(m, t.count, DueAsWritten(t.count), NOTHING);
    NothingKills(t);
    UpdateOk(m, t.count, DueAsWritten(t.count), NOTHING);
    Fires(m, t.count, DueAsWritten(t.count), NOTHING, t);
    if !t.once {
      StayerStays(m, t.count, DueAsWritten(t.count), NOTHING, t);
    }
  }

  lemma NothingKills(t: Timer)
    ensures forall x :: !Killed(NOTHING(x), t)
  {
  }

  lemma {:induction false} StayersLeft(ts: seq<Timer>, fired: seq<nat>, now: nat, does: nat -> seq<Action>, t: Timer)
    requires t in ts && Stays(t, fired, does)
    ensures Final(t, fired, now, does) in Left(ts, fired, now, does)
  {
    hide Stays, Final;
    if t != ts[0] {
      StayersLeft(ts[1..], fired, now, does, t);
    }
  }

  lemma StayerStays(m: Manager, now: nat, due: (nat, nat) -> bool, does: nat -> seq<Action>, t: Timer)
    requires Ok(m) && !m.inProcess && t in m.timers && Stays(t, Update(m, now, due, does).fired, does)
    ensures var r := Update(m, now, due, does); Final(t, r.fired, now, does) in r.m.timers
  {
    hide Ok, Update, Stays, Final, Gone, Made, Plain;
    UpdateTheorem(m, now, due, does);
    var r := Update(m, now, due, does);
    StayersLeft(m.timers, r.fired, now, does, t);
    assert Final(t, r.fired, now, does) in r.m.timers[..|Left(m.timers, r.fired, now, does)|];
  }

  /** Two updates at the tick of the timer. */
  function TwoTicks(now: nat): seq<Event> {
    [Tick(now, DueAsWritten(now), NOTHING), Tick(now, DueAsWritten(now), NOTHING)]
  }

  lemma FiresTwice(m: Manager, t: Timer)
    requires Ok(m) && !m.inProcess && t in m.timers && !t.canceled && !t.once
    ensures Count(History(m, TwoTicks(t.count)).fired, t.tid) >= 2
  {
    var e := TwoTicks(t.count);
    FiresAndStays(m, t);
    var r := Update(m, t.count, DueAsWritten(t.count), NOTHING);
    FiresAndStays(r.m, t);
    hide Ok, Update;
    var r' := Update(r.m, t.count, DueAsWritten(t.count), NOTHING);
    assert History(r'.m, e[1..][1..]).fired == [];
    CountIn(r.fired, t.tid);
    CountIn(r'.fired, t.tid);
    CountAppend(r'.fired, [], t.tid);
    CountAppend(r.fired, r'.fired + [], t.tid);
  }

  /** A timer that is there and not cancelled fires at most once in whatever follows exactly if it is to
      fire once. */
  lemma ListedOnce(m: Manager, t: Timer)
    requires Ok(m) && !m.inProcess && t in m.timers && !t.canceled
    ensures t.once <==> forall after :: Count(History(m, after).fired, t.tid) <= 1
  {
    if t.once {
      OnlyOne(m, t);
      forall after
        ensures Count(History(m, after).fired, t.tid) <= 1
      {
        SingleFiresOnce(m, after, t.tid);
      }
    } else {
      FiresTwice(m, t);
    }
  }

  /** A timer created after any run: it fires at most once in every continuation if and only if the low
      sixteen bits of `once` are not all zero. */
  lemma OnceExactly(before: seq<Event>, owner: nat, tick: nat, itv: nat, once: nat)
    ensures var m := Do(History(START, before).m, Create(owner, tick, itv, once));
            once % ONCE_RANGE != 0 <==> forall after :: Count(History(m, after).fired, m.lastId) <= 1
  {
    hide Ok, History, Count;
    var m0 := History(START, before).m;
    StartOk();
    HistoryOk(START, before);
    var a := Create(owner, tick, itv, once);
    DoOk(m0, a);
    var m, t := Do(m0, a), NewTimer(m0, a);
    assert t in m.timers;
    ListedOnce(m, t);
  }

  /** An update of a single timer. */
  lemma OnlyTimer(m: Manager, t: Timer, now: nat, due: (nat, nat) -> bool)
    requires Ok(m) && !m.inProcess && m.timers == [t] && !t.canceled
    ensures var r := Update(m, now, due, NOTHING);
            && r.fired == (if due(t.count, t.interval) then [t.tid] else [])
            && (due(t.count, t.interval) && !t.once ==> r.m.timers == [t.(count := now)])
  {
    var r := Update(m, now, due, NOTHING);
    UpdateTheorem(m, now, due, NOTHING);
    hide Ok, Update;
    assert t in m.timers && forall x :: !Killed(NOTHING(x), t);
    assert !KilledBefore(r.fired, t.tid, NOTHING, t) && !KilledBy(r.fired, NOTHING, t);
    assert forall i | 0 <= i < |r.fired| :: r.fired[i] in r.fired && r.fired[i] == t.tid;
    assert |r.fired| <= 1;
    NothingMade(m.lastId, r.fired);
    assert Left(m.timers, r.fired, now, NOTHING)
        == (if Stays(t, r.fired, NOTHING) then [Final(t, r.fired, now, NOTHING)] else []);
    var n := |Left(m.timers, r.fired, now, NOTHING)|;
    assert r.m.timers == r.m.timers[..n];
  }

  lemma {:induction false} NothingMade(lastId: nat, fired: seq<nat>)
    ensures Made(lastId, ActsOf(fired, NOTHING)) == []
  {
    if fired != [] {
      NothingMade(lastId, fired[1..]);
      assert [] + ActsOf(fired[1..], NOTHING) == ActsOf(fired[1..], NOTHING);
    }
  }

  lemma TickAppend(m: Manager, now: nat, due: (nat, nat) -> bool, does: nat -> seq<Action>, rest: seq<Event>)
    ensures var r, r' := Update(m, now, due, does), History(Update(m, now, due, does).m, rest);
            History(m, [Tick(now, due, does)] + rest) == Turn(r'.m, r.fired + r'.fired)
  {
    assert ([Tick(now, due, does)] + rest)[1..] == rest;
  }

  /** `once` is 0x10000, and the timer fires twice. */
  lemma TwiceExample()
    ensures History(START, [Call(Create(1, 0, 10, 0x10000))] + TwoTicks(0)).fired == [1, 1]
  {
    hide Ok, Update;
    var a := Create(1, 0, 10, 0x10000);
    var m, t := Do(START, a), Timer(1, 1, 0, 10, false, false);
    StartOk();
    DoOk(START, a);
    OnlyTimer(m, t, 0, DueAsWritten(0));
    var r := Update(m, 0, DueAsWritten(0), NOTHING);
    UpdateOk(m, 0, DueAsWritten(0), NOTHING);
    OnlyTimer(r.m, t, 0, DueAsWritten(0));
    TickAppend(r.m, 0, DueAsWritten(0), NOTHING, []);
    TickAppend(m, 0, DueAsWritten(0), NOTHING, [TwoTicks(0)[1]] + []);
    assert TwoTicks(0) == [TwoTicks(0)[0]] + ([TwoTicks(0)[1]] + []);
    assert ([Call(a)] + TwoTicks(0))[1..] == TwoTicks(0);
  }

  lemma StartOk()
    ensures Ok(START)
  {
  }

  // ---------- a cancellation in the middle of an update ----------

  lemma {:induction false} ActsOfAppend(a: seq<nat>, b: seq<nat>, does: nat -> seq<Action>)
    ensures ActsOf(a + b, does) == ActsOf(a, does) + ActsOf(b, does)
    decreases |a|
  {
    if a == [] {
      assert a + b == b;
    } else {
      assert (a + b)[1..] == a[1..] + b;
      ActsOfAppend(a[1..], b, does);
      Assoc(does(a[0]), ActsOf(a[1..], does), ActsOf(b, does));
    }
  }

  /** The calls of an update in which the callback of `x` makes the call `a` after some others. */
  lemma CallsAround(first: seq<nat>, x: nat, later: seq<nat>, before: seq<Action>, a: Action, after: seq<Action>,
                    does: nat -> seq<Action>)
    requires does(x) == before + ([a] + after)
    ensures ActsOf(first + ([x] + later), does) == (ActsOf(first, does) + before) + ([a] + (after + ActsOf(later, does)))
  {
    ActsOfAppend(first, [x] + later, does);
    assert ([x] + later)[1..] == later;
    var p, q, rest := ActsOf(first, does), [a] + after, ActsOf(later, does);
    Assoc(before, q, rest);
    Assoc([a], after, rest);
    Assoc(p, before, [a] + (after + rest));
  }

  /** A timer that is fired later in an update is not killed by the callback of `x`. */
  lemma LaterIsAlive(m: Manager, now: nat, due: (nat, nat) -> bool, does: nat -> seq<Action>,
                     first: seq<nat>, x: nat, later: seq<nat>, t: Timer)
    requires Ok(m) && !m.inProcess && Update(m, now, due, does).fired == first + ([x] + later)
    requires t in m.timers && t.tid in later
    ensures !Killed(does(x), t)
  {
    hide Ok, Update, Killed, Among, Made;
    var fired := Update(m, now, due, does).fired;
    UpdateIds(m, now, due, does);
    Fires(m, now, due, does, t);
    var k :| 0 <= k < |later| && later[k] == t.tid;
    assert fired[|first|] == x && fired[|first| + 1 + k] == t.tid;
  }

  /** A timer of the list after some calls made during a pass. */
  lemma AtCall(m: Manager, acts: seq<Action>, t: Timer)
    requires Ok(m) && !m.inProcess && t in m.timers
    ensures exists i | 0 <= i < |All(Run(m.(inProcess := true), acts))| :: All(Run(m.(inProcess := true), acts))[i] == Hit(t, Killed(acts, t))
  {
    var m1 := m.(inProcess := true);
    assert All(m1) == All(m) == m.timers && Ok(m1);
    RunOk(m1, acts);
    var k :| 0 <= k < |m.timers| && m.timers[k] == t;
    assert All(Run(m1, acts))[k] == Hit(t, Killed(acts, t));
  }

  lemma KilledIn(before: seq<Action>, a: Action, after: seq<Action>, t: Timer)
    requires Kills(a, t)
    ensures Killed(before + ([a] + after), t)
  {
    assert (before + ([a] + after))[|before|] == a;
  }

  lemma KillsHit(a: Action, t: Timer, dead: bool)
    ensures Kills(a, Hit(t, dead)) == Kills(a, t)
  {
  }

  /** A cancellation made by the callback of `x` in the middle of an update: whatever it cancels, old or new,
      is not fired after that in the same update, and is cancelled or gone when the update is over. `first`
      and `later` are the timers fired before and after `x`, `before` and `after` the other calls of its
      callback, and `dead` identifiers all of whose timers the call `a` kills when it is made. */
  lemma CancelledInPass(m: Manager, now: nat, due: (nat, nat) -> bool, does: nat -> seq<Action>,
                        first: seq<nat>, x: nat, later: seq<nat>,
                        before: seq<Action>, a: Action, after: seq<Action>, dead: set<nat>)
    requires Ok(m) && !m.inProcess && !a.Create?
    requires Update(m, now, due, does).fired == first + ([x] + later) && does(x) == before + ([a] + after)
    requires var n := Run(m.(inProcess := true), ActsOf(first, does) + before);
             && (forall id | id in dead :: id <= n.lastId)
             && forall i | 0 <= i < |All(n)| && All(n)[i].tid in dead :: Kills(a, All(n)[i])
    ensures forall y | y in later :: y !in dead
    ensures Quiet(Update(m, now, due, does).m, dead)
  {
    hide Ok, Update, Run, Quiet, Killed, Kills, All, Made;
    var acts := ActsOf(first, does) + before;
    CallsAround(first, x, later, before, a, after, does);
    CancelledCalls(m, now, due, does, acts, a, after + ActsOf(later, does), dead);
    UpdateIds(m, now, due, does);
    forall y | y in later
      ensures y !in dead
    {
      assert y in [x] + later && y in first + ([x] + later);
      var k :| 0 <= k < |m.timers| && m.timers[k].tid == y;
      var t := m.timers[k];
      AtCall(m, acts, t);
      KillsHit(a, t, Killed(acts, t));
      LaterIsAlive(m, now, due, does, first, x, later, t);
      if Kills(a, t) {
        KilledIn(before, a, after, t);
      }
    }
  }

  // ---------- the ticks at which a timer fires ----------

  /** The comparison of elapsed time, which the code turns around. */
  function DueElapsed(now: nat): (nat, nat) -> bool { (count, interval) => now >= count + interval }

  /** As written, an update fires the timers whose interval is not over yet. */
  lemma FiresAsWritten(m: Manager, now: nat, does: nat -> seq<Action>, t: Timer)
    requires Ok(m) && !m.inProcess && t in m.timers
    ensures var fired := Update(m, now, DueAsWritten(now), does).fired;
            t.tid in fired <==> now <= t.count + t.interval && !Gone(t, fired, does)
  {
    Fires(m, now, DueAsWritten(now), does, t);
  }

  /** Going along the list as it is before the update: each timer that no callback run up to then has cancelled
      is due at this very tick. */
  predicate DueNow(ts: seq<Timer>, now: nat, does: nat -> seq<Action>)
    decreases |ts|
  {
    if ts == [] then true
    else if ts[0].canceled then DueNow(ts[1..], now, does)
    else now == ts[0].count + ts[0].interval && DueNow(Strike(ts[1..], does(ts[0].tid)), now, does)
  }

  /** What the two comparisons fire along a pass. */
  function Both(m: Manager, i: nat, now: nat, does: nat -> seq<Action>): (seq<nat>, seq<nat>)
    requires m.inProcess && i <= |m.timers|
  {
    (Pass(m, i, now, DueAsWritten(now), does).fired, Pass(m, i, now, DueElapsed(now), does).fired)
  }

  lemma {:induction false} PassAgrees(m: Manager, i: nat, now: nat, does: nat -> seq<Action>)
    requires Ok(m) && m.inProcess && i <= |m.timers|
    ensures Both(m, i, now, does).0 == Both(m, i, now, does).1 <==> DueNow(m.timers[i..], now, does)
    decreases |m.timers| - i
  {
    hide Ok;
    if i < |m.timers| {
      var t := m.timers[i];
      assert m.timers[i..][0] == t && m.timers[i..][1..] == m.timers[i + 1..];
      if t.canceled || now == t.count + t.interval {
        hide VisitAt, Both;
        var v := VisitAt(m, i, now, DueAsWritten(now), does);
        VisitNow(m, i, now, does);
        PassAgrees(v.m, v.i, now, does);
        var (a, b) := Both(v.m, v.i, now, does);
        assert ([t.tid] + a)[1..] == a && ([t.tid] + b)[1..] == b;
      } else {
        hide Pass;
        FirstDiffers(m, i, now, does);
      }
    }
  }

  /** A timer that is cancelled, or due at this very tick. */
  lemma VisitNow(m: Manager, i: nat, now: nat, does: nat -> seq<Action>)
    requires Ok(m) && m.inProcess && i < |m.timers|
    requires m.timers[i].canceled || now == m.timers[i].count + m.timers[i].interval
    ensures var t, v := m.timers[i], VisitAt(m, i, now, DueAsWritten(now), does);
            var (a, b) := Both(v.m, v.i, now, does);
            && Ok(v.m)
            && Both(m, i, now, does) == (if t.canceled then (a, b) else ([t.tid] + a, [t.tid] + b))
            && v.m.timers[v.i..] == (if t.canceled then m.timers[i + 1..] else Strike(m.timers[i + 1..], does(t.tid)))
  {
    hide Ok, Strike;
    SameVisit(m, i, now, does);
    VisitFacts(m, i, now, DueAsWritten(now), does);
    StrikeNothing(m.timers[i + 1..]);
    hide VisitAt;
  }

  /** Any other is fired by one of the two only, and nothing before it is fired behind it. */
  lemma FirstDiffers(m: Manager, i: nat, now: nat, does: nat -> seq<Action>)
    requires Ok(m) && m.inProcess && i < |m.timers|
    requires !m.timers[i].canceled && now != m.timers[i].count + m.timers[i].interval
    ensures Both(m, i, now, does).0 != Both(m, i, now, does).1
  {
    hide Ok, Strike;
    var x, v, v' := m.timers[i].tid, VisitAt(m, i, now, DueAsWritten(now), does), VisitAt(m, i, now, DueElapsed(now), does);
    var a, b := Pass(v.m, v.i, now, DueAsWritten(now), does).fired, Pass(v'.m, v'.i, now, DueElapsed(now), does).fired;
    FiredAfterVisit(m, i, now, DueAsWritten(now), does);
    FiredAfterVisit(m, i, now, DueElapsed(now), does);
    assert v.fired != v'.fired;
    hide VisitAt;
    assert Both(m, i, now, does) == (FiredOf(v.fired, x, a), FiredOf(v'.fired, x, b));
    Unequal(x, a, b);
  }

  lemma SameVisit(m: Manager, i: nat, now: nat, does: nat -> seq<Action>)
    requires m.inProcess && i < |m.timers|
    requires m.timers[i].canceled || now == m.timers[i].count + m.timers[i].interval
    ensures VisitAt(m, i, now, DueElapsed(now), does) == VisitAt(m, i, now, DueAsWritten(now), does)
  {
  }

  lemma Unequal(x: nat, a: seq<nat>, b: seq<nat>)
    requires (forall y | y in a :: x < y) && (forall y | y in b :: x < y)
    ensures [x] + a != b && a != [x] + b
  {
    assert ([x] + a)[0] == x && ([x] + b)[0] == x;
    assert b != [] ==> b[0] in b;
    assert a != [] ==> a[0] in a;
  }

  /** An update fires what one comparing elapsed time would fire if and only if it comes at the very tick at
      which each timer that it reaches uncancelled is due. */
  lemma ElapsedExactly(m: Manager, now: nat, does: nat -> seq<Action>)
    requires Ok(m) && !m.inProcess
    ensures Update(m, now, DueElapsed(now), does).fired == Update(m, now, DueAsWritten(now), does).fired <==>
            DueNow(m.timers, now, does)
  {
    var m1 := m.(inProcess := true);
    assert All(m1) == All(m) && Ok(m1);
    PassAgrees(m1, 0, now, does);
    assert m1.timers[0..] == m.timers;
  }

  /** A timer with an interval of ten ticks fires after five, and no longer after eleven. */
  lemma EarlyExample()
    ensures var m := Do(START, Create(0, 0, 10, 1));
            && Update(m, 5, DueAsWritten(5), NOTHING).fired == [1] && Update(m, 5, DueElapsed(5), NOTHING).fired == []
            && Update(m, 11, DueAsWritten(11), NOTHING).fired == [] && Update(m, 11, DueElapsed(11), NOTHING).fired == [1]
  {
    hide Ok, Update;
    var a := Create(0, 0, 10, 1);
    var m, t := Do(START, a), Timer(1, 0, 0, 10, true, false);
    StartOk();
    DoOk(START, a);
    OnlyTimer(m, t, 5, DueAsWritten(5));
    OnlyTimer(m, t, 5, DueElapsed(5));
    OnlyTimer(m, t, 11, DueAsWritten(11));
    OnlyTimer(m, t, 11, DueElapsed(11));
  }

  // ---------- a timer whose tick is past ----------

  /** Updates at `now` or later, with the comparison as written. */
  ghost predicate From(events: seq<Event>, now: nat) {
    forall i | 0 <= i < |events| && events[i].Tick? :: events[i].now >= now && events[i].due == DueAsWritten(events[i].now)
  }

  /** One call, or one update after the tick at which the timer was due: it does not fire, and it stays as it
      is unless a call cancels it. */
  lemma OnePast(m: Manager, e: Event, t: Timer)
    requires Ok(m) && !m.inProcess && t in m.timers && !t.canceled
    requires e.Tick? ==> t.count + t.interval < e.now && e.due == DueAsWritten(e.now)
    ensures var one := One(m, e);
            && t.tid !in one.fired
            && (if Killed(CallsOf(m, e), t) then Quiet(one.m, {t.tid}) else t in one.m.timers)
  {
    hide Ok, Do, Update, Killed, Quiet;
    match e
    case Call(a) => CallPast(m, a, t);
    case Tick(now, due, does) => TickPast(m, now, does, t);
  }

  lemma CallPast(m: Manager, a: Action, t: Timer)
    requires Ok(m) && !m.inProcess && t in m.timers && !t.canceled
    ensures if Killed([a], t) then Quiet(Do(m, a), {t.tid}) else t in Do(m, a).timers
  {
    hide Ok, Kills, Do;
    assert Killed([a], t) == Kills(a, t) by {
      assert [a][0] == a;
    }
    ListOk(m);
    if Kills(a, t) {
      CreateKillsNone(a, t);
      OnlyOne(m, t);
      KillQuiets(m, a, {t.tid});
    } else {
      OneOk(m, Call(a));
      DoOk(m, a);
      ListOk(Do(m, a));
      hide All;
      var i :| 0 <= i < |m.timers| && m.timers[i] == t;
      assert Do(m, a).timers[i] == Hit(t, false);
    }
  }

  lemma TickPast(m: Manager, now: nat, does: nat -> seq<Action>, t: Timer)
    requires Ok(m) && !m.inProcess && t in m.timers && !t.canceled && t.count + t.interval < now
    ensures var r := Update(m, now, DueAsWritten(now), does);
            && t.tid !in r.fired
            && (if Killed(ActsOf(r.fired, does), t) then Quiet(r.m, {t.tid}) else t in r.m.timers)
  {
    hide Ok, Update, Killed, Quiet;
    var r := Update(m, now, DueAsWritten(now), does);
    Fires(m, now, DueAsWritten(now), does, t);
    ActsOfKill(r.fired, does, t);
    if Killed(ActsOf(r.fired, does), t) {
      KilledQuiet(m, ActsOf(r.fired, does), t);
      UpdateQuiets(m, now, DueAsWritten(now), does, {t.tid});
    } else {
      assert Stays(t, r.fired, does);
      StayerStays(m, now, DueAsWritten(now), does, t);
    }
  }

  lemma CreateKillsNone(a: Action, t: Timer)
    requires Kills(a, t)
    ensures !a.Create?
  {
  }

  lemma KilledQuiet(m: Manager, acts: seq<Action>, t: Timer)
    requires Ok(m) && !m.inProcess && t in m.timers && Killed(acts, t)
    ensures Quiet(Run(m.(inProcess := true), acts), {t.tid})
  {
    var m1 := m.(inProcess := true);
    assert All(m1) == All(m) == m.timers && Ok(m1);
    OnlyOne(m, t);
    RunOk(m1, acts);
    RunMakes(m1, acts);
  }

  /** Once a tick is past `count + interval` of a timer, the timer never fires again, however long the run: it
      stays in the list just as it is until a call cancels it. */
  lemma {:induction false} PastNeverFires(m: Manager, events: seq<Event>, t: Timer, now: nat)
    requires Ok(m) && !m.inProcess && t in m.timers && !t.canceled
    requires t.count + t.interval < now && From(events, now)
    ensures var r := History(m, events);
            && t.tid !in r.fired
            && (if Killed(Calls(m, events), t) then Quiet(r.m, {t.tid}) else t in r.m.timers)
    decreases |events|
  {
    if events == [] {
      KilledNever(t);
    } else {
      assert events[0].Tick? ==> events[0].now >= now && events[0].due == DueAsWritten(events[0].now);
      assert forall i | 0 <= i < |events[1..]| :: events[1..][i] == events[i + 1];
      hide Ok, Do, Update, Killed, Quiet, CallsOf;
      var one, rest := One(m, events[0]), events[1..];
      OneOk(m, events[0]);
      OnePast(m, events[0], t);
      KilledAppend(CallsOf(m, events[0]), Calls(one.m, rest), t);
      if Killed(CallsOf(m, events[0]), t) {
        NeverAgain(one.m, rest, {t.tid});
      } else {
        PastNeverFires(one.m, rest, t, now);
      }
    }
  }
}
