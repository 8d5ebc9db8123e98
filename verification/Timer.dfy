/** The timer manager and the books of the script timers as they run: lists of timer objects, changed in
    place while a pass goes over them. Every call is proved to do what `TimerPass` says. */
module Timers {
  import opened TimerPass

  class TimerObject {
    const tid: nat
    const owner: nat
    const interval: nat
    const once: bool
    var countTime: nat
    var canceled: bool

    function Value(): Timer
      reads this
    {
      Timer(tid, owner, countTime, interval, once, canceled)
    }

    constructor (t: Timer)
      ensures Value() == t
    {
      tid, owner, interval, once := t.tid, t.owner, t.interval, t.once;
      countTime, canceled := t.count, t.canceled;
    }

    method SetCancel()
      modifies `canceled
      ensures Value() == old(Value()).(canceled := true)
    {
      canceled := true;
    }
  }

  ghost function Values(ts: seq<TimerObject>): (r: seq<Timer>)
    reads ts
    ensures |r| == |ts| && forall i | 0 <= i < |ts| :: r[i] == ts[i].Value()
  {
    seq(|ts|, i requires 0 <= i < |ts| reads ts => ts[i].Value())
  }

  class TimerMgr {
    var timers: seq<TimerObject>
    var added: seq<TimerObject>
    var lastId: nat
    var inProcess: bool
    // the timer set of each script object
    var owned: map<nat, set<nat>>
    ghost var repr: set<TimerObject>

    ghost predicate Valid()
      reads this
    {
      (forall t | t in timers :: t in repr) && (forall t | t in added :: t in repr)
    }

    ghost function State(): Manager
      requires Valid()
      reads this, repr
    {
      Manager(Values(timers), Values(added), lastId, inProcess, owned)
    }

    constructor ()
      ensures Valid() && State() == START && repr == {}
    {
      timers, added, lastId, inProcess, owned := [], [], 0, false, map[];
      repr := {};
    }

    /** `CreateTimer`; `owner` says whose callback it is bound to. */
    method CreateTimer(tick: nat, itv: nat, once: nat, owner: nat) returns (tid: nat)
      requires Valid()
      modifies `timers, `added, `lastId, `repr
      ensures Valid() && fresh(repr - old(repr)) && old(repr) <= repr && tid == old(lastId) + 1
      ensures inProcess ==> timers == old(timers)
      ensures var m, t := old(State()), Timer(tid, owner, tick, itv, once % ONCE_RANGE != 0, false);
              State() == (if inProcess then m.(added := m.added + [t], lastId := tid)
                          else m.(timers := m.timers + [t], lastId := tid))
    {
      lastId := lastId + 1;
      tid := lastId;
      var t := new TimerObject(Timer(tid, owner, tick, itv, once % ONCE_RANGE != 0, false));
      repr := repr + {t};
      if inProcess {
        added := added + [t];
      } else {
        timers := timers + [t];
      }
    }

    /** `GetTimer` finds the only timer with the identifier, in either list. */
    method GetTimer(tid: nat) returns (r: TimerObject?)
      requires Valid() && Increasing(All(State()))
      ensures r == null ==> forall t | t in timers + added :: t.tid != tid
      ensures r != null ==> forall t | t in timers + added :: t.tid == tid <==> t == r
      ensures r != null ==> r in timers + added
    {
      var all := timers + added;
      assert All(State()) == Values(all);
      for i := 0 to |timers|
        invariant forall k | 0 <= k < i :: all[k].tid != tid
      {
        if timers[i].tid == tid {
          Unique(all, i);
          return timers[i];
        }
      }
      for i := 0 to |added|
        invariant forall k | 0 <= k < |timers| + i :: all[k].tid != tid
      {
        if added[i].tid == tid {
          Unique(all, |timers| + i);
          return added[i];
        }
      }
      r := null;
    }

    method CancelTimer(tid: nat)
      requires Valid() && Increasing(All(State()))
      modifies repr
      ensures Valid() && State() == MarkBoth(old(State()), {tid})
    {
      var t := GetTimer(tid);
      assert forall u | u in timers :: u in timers + added;
      assert forall u | u in added :: u in timers + added;
      if t == null {
        NothingToMark(timers, tid);
        NothingToMark(added, tid);
        MarkParts(State(), {tid});
        return;
      }
      MarkParts(State(), {tid});
      ghost var old1, old2 := Values(timers), Values(added);
      t.SetCancel();
      MarkedOne(timers, old1, t, tid);
      MarkedOne(added, old2, t, tid);
    }

    // ---------- calls for script objects ----------

    method OwnerCreate(owner: nat, tick: nat, itv: nat, once: nat) returns (tid: nat)
      requires Valid() && owner != 0
      modifies `timers, `added, `lastId, `owned, `repr
      ensures Valid() && fresh(repr - old(repr)) && old(repr) <= repr && tid == old(lastId) + 1
      ensures State() == Do(old(State()), Create(owner, tick, itv, once)) && (inProcess ==> timers == old(timers))
    {
      tid := CreateTimer(tick, itv, once, owner);
      owned := owned[owner := Book(owned, owner) + {tid}];
    }

    method OwnerCancel(owner: nat, tid: nat)
      requires Valid() && Increasing(All(State()))
      modifies `owned, repr
      ensures Valid() && State() == Do(old(State()), Action.OwnerCancel(owner, tid))
    {
      CancelTimer(tid);
      owned := owned[owner := Book(owned, owner) - {tid}];
    }

    /** `CancelAll`, in whatever order the set is gone through. */
    method CancelAll(owner: nat)
      requires Valid() && Increasing(All(State()))
      modifies `owned, repr
      ensures Valid() && State() == Do(old(State()), OwnerCancelAll(owner))
    {
      hide Increasing, All;
      var rest := Book(owned, owner);
      ghost var m := State();
      MarkNone(m);
      while rest != {}
        invariant Valid() && rest <= Book(m.owned, owner) && owned == m.owned
        invariant State() == MarkBoth(m, Book(m.owned, owner) - rest) && Increasing(All(State()))
        modifies repr
        decreases rest
      {
        var tid :| tid in rest;
        MarkMore(m, Book(m.owned, owner) - rest, tid);
        MarkedIncreasing(State(), {tid});
        CancelTimer(tid);
        rest := rest - {tid};
        assert Book(m.owned, owner) - rest == (Book(m.owned, owner) - (rest + {tid})) + {tid};
      }
      assert Book(m.owned, owner) - {} == Book(m.owned, owner);
      owned := owned[owner := {}];
    }

    /** One call of a callback. */
    method Perform(a: Action)
      requires Valid() && Ok(State())
      modifies this, repr
      ensures Valid() && fresh(repr - old(repr)) && old(repr) <= repr
      ensures State() == Do(old(State()), a) && Ok(State()) && (inProcess ==> timers == old(timers))
    {
      DoOk(State(), a);
      match a
      case Create(owner, tick, itv, once) =>
        if owner == 0 {
          var _ := CreateTimer(tick, itv, once, 0);
        } else {
          var _ := OwnerCreate(owner, tick, itv, once);
        }
      case Cancel(tid) => CancelTimer(tid);
      case OwnerCancel(owner, tid) => OwnerCancel(owner, tid);
      case OwnerCancelAll(owner) => CancelAll(owner);
    }

    /** A callback, as the calls it makes. */
    method RunCallback(acts: seq<Action>)
      requires Valid() && Ok(State())
      modifies this, repr
      ensures Valid() && fresh(repr - old(repr)) && old(repr) <= repr
      ensures State() == Run(old(State()), acts) && Ok(State()) && (inProcess ==> timers == old(timers))
    {
      hide Valid, State, Ok, Do;
      ghost var m := State();
      for k := 0 to |acts|
        invariant Valid() && fresh(repr - old(repr)) && old(repr) <= repr
        invariant Run(m, acts) == Run(State(), acts[k..]) && Ok(State())
        invariant inProcess == old(inProcess) && (inProcess ==> timers == old(timers))
      {
        InProcessOf();
        Perform(acts[k]);
        InProcessOf();
        assert acts[k..][0] == acts[k] && acts[k..][1..] == acts[k + 1..];
      }
    }

    lemma InProcessOf()
      requires Valid()
      ensures State().inProcess == inProcess && |State().timers| == |timers|
      ensures forall i | 0 <= i < |timers| :: State().timers[i] == timers[i].Value() && timers[i] in repr
      ensures Ok(State()) ==> Increasing(All(State()))
    {
    }

    // ---------- the pass ----------

    method EraseAt(i: nat)
      requires Valid() && i < |timers|
      modifies `timers
      ensures Valid() && State() == Erase(old(State()), i)
    {
      timers := timers[..i] + timers[i + 1..];
    }

    /** What follows the callback of the timer at `i`. */
    method Fired(t: TimerObject, i: nat, now: nat) returns (next: nat)
      requires Valid() && Increasing(All(State())) && i < |timers| && t == timers[i]
      modifies `timers, t
      ensures Valid() && State() == After(old(State()), i, now)
      ensures next == if t.once then i else i + 1
    {
      TimerAt(i);
      t.countTime := now;
      if t.once {
        EraseAt(i);
        return i;
      }
      next := i + 1;
    }

    /** The timer at `i` is at no other place. */
    lemma TimerAt(i: nat)
      requires Valid() && Increasing(All(State())) && i < |timers|
      ensures forall k | 0 <= k < |timers| :: timers[k] == timers[i] <==> k == i
      ensures timers[i] !in added
    {
      var all := timers + added;
      assert All(State()) == Values(all);
      forall k | 0 <= k < |all|
        ensures all[k] == all[i] <==> k == i
      {
        if k < i {
          assert Values(all)[k].tid < Values(all)[i].tid;
        } else if i < k {
          assert Values(all)[i].tid < Values(all)[k].tid;
        }
      }
      forall k | 0 <= k < |timers| && timers[k] == timers[i]
        ensures k == i
      {
        assert all[k] == timers[k] && all[i] == timers[i];
      }
      forall k | 0 <= k < |added|
        ensures added[k] != timers[i]
      {
        assert all[|timers| + k] == added[k] && all[i] == timers[i];
      }
    }

    /** One turn of the loop of `Update`. */
    method VisitTimer(i: nat, now: nat, does: nat -> seq<Action>) returns (next: nat, fired: bool)
      requires Valid() && Ok(State()) && inProcess && i < |timers|
      modifies this, repr
      ensures Valid() && fresh(repr - old(repr)) && old(repr) <= repr
      ensures Visit(State(), next, fired) == VisitAt(old(State()), i, now, DueAsWritten(now), does)
    {
      hide Ok, Valid, State;
      InProcessOf();
      var t := timers[i];
      if t.canceled {
        EraseAt(i);
        return i, false;
      }
      if t.countTime + t.interval >= now {
        RunCallback(does(t.tid));
        InProcessOf();
        next := Fired(t, i, now);
        return next, true;
      }
      return i + 1, false;
    }

    /** `Update`. */
    method Update(now: nat, does: nat -> seq<Action>) returns (ghost fired: seq<nat>)
      requires Valid() && Ok(State()) && !inProcess
      modifies this, repr
      ensures Valid() && fresh(repr - old(repr))
      ensures Turn(State(), fired) == TimerPass.Update(old(State()), now, DueAsWritten(now), does) && Ok(State())
    {
      hide Ok, Valid, State, VisitAt;
      InProcessOf();
      UpdateOk(State(), now, DueAsWritten(now), does);
      Begin();
      ghost var m := State();
      InProcessOf();
      fired := [];
      var i: nat := 0;
      while i != |timers|
        invariant Valid() && Ok(State()) && State().inProcess && inProcess && i <= |State().timers| == |timers|
        invariant fresh(repr - old(repr)) && old(repr) <= repr
        invariant Prefixed(fired, Pass(State(), i, now, DueAsWritten(now), does)) == Pass(m, 0, now, DueAsWritten(now), does)
        decreases |timers| - i
      {
        VisitFacts(State(), i, now, DueAsWritten(now), does);
        PassStep(fired, State(), i, now, DueAsWritten(now), does);
        InProcessOf();
        var t := timers[i].tid;
        var next, hit := VisitTimer(i, now, does);
        InProcessOf();
        i := next;
        if hit {
          fired := fired + [t];
        }
      }
      InProcessOf();
      Splice();
    }

    method Begin()
      requires Valid() && Ok(State()) && !inProcess
      modifies `inProcess
      ensures Valid() && State() == old(State()).(inProcess := true) && Ok(State()) && inProcess
    {
      inProcess := true;
    }

    /** Timers created during the pass join the list. */
    method Splice()
      requires Valid()
      modifies `inProcess, `timers, `added
      ensures Valid()
      ensures State() == old(State()).(inProcess := false, timers := old(State()).timers + old(State()).added, added := [])
    {
      inProcess := false;
      if added != [] {
        timers := timers + added;
        added := [];
      }
    }
  }

  lemma NothingToMark(ts: seq<TimerObject>, tid: nat)
    requires forall u | u in ts :: u.tid != tid
    ensures Mark(Values(ts), {tid}) == Values(ts)
  {
  }

  /** Cancelling the object that has an identifier marks the identifier. */
  lemma MarkedOne(ts: seq<TimerObject>, was: seq<Timer>, t: TimerObject, tid: nat)
    requires (forall u | u in ts :: u.tid == tid <==> u == t) && |was| == |ts|
    requires forall k | 0 <= k < |ts| :: ts[k].Value() == (if ts[k] == t then was[k].(canceled := true) else was[k])
    ensures Values(ts) == Mark(was, {tid})
  {
    forall k | 0 <= k < |ts|
      ensures Values(ts)[k] == Mark(was, {tid})[k]
    {
      assert ts[k] in ts && was[k].tid == ts[k].Value().tid;
    }
  }

  lemma MarkParts(m: Manager, tids: set<nat>)
    ensures MarkBoth(m, tids) == m.(timers := Mark(m.timers, tids), added := Mark(m.added, tids))
  {
  }

  lemma Unique(ts: seq<TimerObject>, i: nat)
    requires Increasing(Values(ts)) && i < |ts|
    ensures forall t | t in ts :: t.tid == ts[i].tid <==> t == ts[i]
  {
    forall t | t in ts
      ensures t.tid == ts[i].tid ==> t == ts[i]
    {
      var k :| 0 <= k < |ts| && ts[k] == t;
      assert k < i ==> Values(ts)[k].tid < Values(ts)[i].tid;
      assert i < k ==> Values(ts)[i].tid < Values(ts)[k].tid;
    }
  }

  lemma MarkNone(m: Manager)
    ensures MarkBoth(m, {}) == m
  {
    assert Mark(m.timers, {}) == m.timers && Mark(m.added, {}) == m.added;
  }

  lemma MarkMore(m: Manager, tids: set<nat>, tid: nat)
    ensures MarkBoth(MarkBoth(m, tids), {tid}) == MarkBoth(m, tids + {tid})
  {
    assert Mark(Mark(m.timers, tids), {tid}) == Mark(m.timers, tids + {tid});
    assert Mark(Mark(m.added, tids), {tid}) == Mark(m.added, tids + {tid});
  }

  lemma MarkedIncreasing(m: Manager, tids: set<nat>)
    requires Increasing(All(m))
    ensures Increasing(All(MarkBoth(m, tids)))
  {
    assert forall i | 0 <= i < |All(m)| :: All(MarkBoth(m, tids))[i].tid == All(m)[i].tid;
  }

  /** A pass of which some timers have been fired already. */
  function Prefixed(fired: seq<nat>, r: Turn): Turn { r.(fired := fired + r.fired) }

  lemma PassStep(fired: seq<nat>, m: Manager, i: nat, now: nat, due: (nat, nat) -> bool, does: nat -> seq<Action>)
    requires m.inProcess && i < |m.timers|
    ensures var v := VisitAt(m, i, now, due, does);
            Prefixed(fired, Pass(m, i, now, due, does))
              == Prefixed(if v.fired then fired + [m.timers[i].tid] else fired, Pass(v.m, v.i, now, due, does))
  {
    var v := VisitAt(m, i, now, due, does);
    assert fired + ([m.timers[i].tid] + Pass(v.m, v.i, now, due, does).fired)
        == (fired + [m.timers[i].tid]) + Pass(v.m, v.i, now, due, does).fired;
  }
}
