/** Timers and the objects that own some of them, as values: what each call does, and what a pass over the
    list does while the callbacks it runs create and cancel timers. */
module TimerPass {
  import opened Bytes

  /** A timer. `owner` is the object that created it for a script, or 0 for one created directly. */
  datatype Timer = Timer(tid: nat, owner: nat, count: nat, interval: nat, once: bool, canceled: bool)

  /** The timer manager, with the set of timers each owner has on its books. */
  datatype Manager = Manager(timers: seq<Timer>, added: seq<Timer>, lastId: nat, inProcess: bool,
                             owned: map<nat, set<nat>>)

  const START := Manager([], [], 0, false, map[])

  /** Calls that callbacks and other code make. `once` is cut to 16 bits. */
  datatype Action =
    | Create(owner: nat, tick: nat, itv: nat, once: nat)
    | Cancel(tid: nat)
    | OwnerCancel(owner: nat, tid: nat)
    | OwnerCancelAll(owner: nat)

  const ONCE_RANGE := 0x10000

  function Mark(ts: seq<Timer>, tids: set<nat>): (r: seq<Timer>)
    ensures |r| == |ts|
    ensures forall i | 0 <= i < |ts| :: r[i] == ts[i].(canceled := ts[i].canceled || ts[i].tid in tids)
  {
    seq(|ts|, i requires 0 <= i < |ts| => ts[i].(canceled := ts[i].canceled || ts[i].tid in tids))
  }

  function Book(owned: map<nat, set<nat>>, owner: nat): set<nat> { if owner in owned then owned[owner] else {} }

  function MarkBoth(m: Manager, tids: set<nat>): Manager {
    m.(timers := Mark(m.timers, tids), added := Mark(m.added, tids))
  }

  function Insert(m: Manager, t: Timer): Manager {
    var m1 := if m.inProcess then m.(added := m.added + [t]) else m.(timers := m.timers + [t]);
    if t.owner == 0 then m1.(lastId := t.tid)
    else m1.(lastId := t.tid, owned := m.owned[t.owner := Book(m.owned, t.owner) + {t.tid}])
  }

  function NewTimer(m: Manager, a: Action): Timer
    requires a.Create?
  {
    Timer(m.lastId + 1, a.owner, a.tick, a.itv, a.once % ONCE_RANGE != 0, false)
  }

  function Do(m: Manager, a: Action): (r: Manager)
    ensures r.inProcess == m.inProcess && (m.inProcess ==> |r.timers| == |m.timers|)
    ensures |r.timers| >= |m.timers|
  {
    match a
    case Create(_, _, _, _) => Insert(m, NewTimer(m, a))
    case Cancel(tid) => MarkBoth(m, {tid})
    case OwnerCancel(owner, tid) =>
      MarkBoth(m, {tid}).(owned := m.owned[owner := Book(m.owned, owner) - {tid}])
    case OwnerCancelAll(owner) => MarkBoth(m, Book(m.owned, owner)).(owned := m.owned[owner := {}])
  }

  function Run(m: Manager, acts: seq<Action>): (r: Manager)
    ensures r.inProcess == m.inProcess && (m.inProcess ==> |r.timers| == |m.timers|)
    decreases |acts|
  {
    if acts == [] then m else Run(Do(m, acts[0]), acts[1..])
  }

  /** A pass, or the rest of one: what it leaves and the timers it fired. */
  datatype Turn = Turn(m: Manager, fired: seq<nat>)

  /** The timer at `i` is removed. */
  function Erase(m: Manager, i: nat): Manager
    requires i < |m.timers|
  {
    m.(timers := m.timers[..i] + m.timers[i + 1..])
  }

  /** What is left of the timer at `i` after its callback. */
  function After(m: Manager, i: nat, now: nat): Manager
    requires i < |m.timers|
  {
    if m.timers[i].once then Erase(m, i) else m.(timers := m.timers[i := m.timers[i].(count := now)])
  }

  /** What looking at one timer of the list leads to: the manager, the position of the next timer, and
      whether this one was fired. */
  datatype Visit = Visit(m: Manager, i: nat, fired: bool)

  /** `due` says which ticks and intervals are due, `does` what the callback of each timer does. */
  function VisitAt(m: Manager, i: nat, now: nat, due: (nat, nat) -> bool, does: nat -> seq<Action>): (v: Visit)
    requires m.inProcess && i < |m.timers|
    ensures v.m.inProcess && v.i <= |v.m.timers| && |v.m.timers| - v.i == |m.timers| - i - 1
  {
    var t := m.timers[i];
    if t.canceled then Visit(Erase(m, i), i, false)
    else if due(t.count, t.interval) then
      var m1 := Run(m, does(t.tid));
      Visit(After(m1, i, now), if m1.timers[i].once then i else i + 1, true)
    else Visit(m, i + 1, false)
  }

  /** The pass from position `i` on. */
  function Pass(m: Manager, i: nat, now: nat, due: (nat, nat) -> bool, does: nat -> seq<Action>): (r: Turn)
    requires m.inProcess && i <= |m.timers|
    ensures r.m.inProcess
    decreases |m.timers| - i
  {
    if i == |m.timers| then Turn(m, [])
    else
      var v := VisitAt(m, i, now, due, does);
      var r := Pass(v.m, v.i, now, due, does);
      if v.fired then Turn(r.m, [m.timers[i].tid] + r.fired) else r
  }

  /** `Update`: the pass, and then the timers created during it join the list. */
  function Update(m: Manager, now: nat, due: (nat, nat) -> bool, does: nat -> seq<Action>): Turn {
    var r := Pass(m.(inProcess := true), 0, now, due, does);
    Turn(r.m.(inProcess := false, timers := r.m.timers + r.m.added, added := []), r.fired)
  }

  /** The comparison as it is written. */
  function DueAsWritten(now: nat): (nat, nat) -> bool { (count, interval) => count + interval >= now }

  // ---------- the invariant ----------

  function All(m: Manager): seq<Timer> { m.timers + m.added }

  predicate Increasing(ts: seq<Timer>) {
    forall i, j | 0 <= i < j < |ts| :: ts[i].tid < ts[j].tid
  }

  /** A timer of an owner that is not cancelled is on the owner's books and on no others. */
  predicate Booked(t: Timer, owned: map<nat, set<nat>>, lastId: nat) {
    && 1 <= t.tid <= lastId
    && (t.owner != 0 && !t.canceled ==> t.tid in Book(owned, t.owner))
    && (forall o | o in owned && t.tid in owned[o] :: o == t.owner)
  }

  /** The books only have timers that were created. */
  predicate BooksOk(owned: map<nat, set<nat>>, lastId: nat) {
    forall o | o in owned :: forall x | x in owned[o] :: o != 0 && x <= lastId
  }

  predicate AllBooked(ts: seq<Timer>, owned: map<nat, set<nat>>, lastId: nat) {
    forall i | 0 <= i < |ts| :: Booked(ts[i], owned, lastId)
  }

  /** Identifiers increase along the two lists, and the books are right. */
  predicate Ok(m: Manager) {
    && Increasing(All(m)) && (!m.inProcess ==> m.added == [])
    && AllBooked(All(m), m.owned, m.lastId) && BooksOk(m.owned, m.lastId)
  }

  /** Whether a call cancels a timer that is there. */
  predicate Kills(a: Action, t: Timer) {
    match a
    case Create(_, _, _, _) => false
    case Cancel(tid) => tid == t.tid
    case OwnerCancel(_, tid) => tid == t.tid
    case OwnerCancelAll(owner) => owner != 0 && owner == t.owner
  }

  predicate Killed(acts: seq<Action>, t: Timer) { exists i | 0 <= i < |acts| :: Kills(acts[i], t) }

  /** The calls after the first. */
  lemma KilledSplit(acts: seq<Action>, t: Timer)
    requires acts != []
    ensures Killed(acts, t) == (Kills(acts[0], t) || Killed(acts[1..], t))
  {
    if Killed(acts, t) {
      var i :| 0 <= i < |acts| && Kills(acts[i], t);
      assert i == 0 || Kills(acts[1..][i - 1], t);
    }
    if Killed(acts[1..], t) {
      var i :| 0 <= i < |acts| - 1 && Kills(acts[1..][i], t);
      assert Kills(acts[i + 1], t);
    }
  }

  /** What a call does to a timer that is there. */
  function Hit(t: Timer, dead: bool): Timer { t.(canceled := t.canceled || dead) }

  /** What `Insert` does to the books. */
  function Entered(owned: map<nat, set<nat>>, t: Timer): map<nat, set<nat>> {
    if t.owner == 0 then owned else owned[t.owner := Book(owned, t.owner) + {t.tid}]
  }

  lemma EnteredOk(owned: map<nat, set<nat>>, lastId: nat, t: Timer)
    requires BooksOk(owned, lastId) && t.tid == lastId + 1
    ensures BooksOk(Entered(owned, t), t.tid) && Booked(t, Entered(owned, t), t.tid)
    ensures forall u | Booked(u, owned, lastId) :: Booked(u, Entered(owned, t), t.tid)
  {
  }

  lemma InsertOk(m: Manager, t: Timer)
    requires Ok(m) && t.tid == m.lastId + 1
    ensures Ok(Insert(m, t)) && All(Insert(m, t)) == All(m) + [t]
  {
    var r := Insert(m, t);
    assert All(r) == All(m) + [t] && r.owned == Entered(m.owned, t);
    EnteredOk(m.owned, m.lastId, t);
    hide Booked, BooksOk, Entered;
    assert forall i | 0 <= i < |All(m)| :: Booked(All(m)[i], m.owned, m.lastId);
    assert forall i | 0 <= i < |All(m)| :: All(m)[i].tid <= m.lastId by { TidsBound(m); }
  }

  lemma TidsBound(m: Manager)
    requires Ok(m)
    ensures forall i | 0 <= i < |All(m)| :: 1 <= All(m)[i].tid <= m.lastId
  {
    assert forall i | 0 <= i < |All(m)| :: Booked(All(m)[i], m.owned, m.lastId);
  }

  /** Cancelling timers and taking them off some books. */
  lemma MarkOk(m: Manager, tids: set<nat>, owner: nat, off: set<nat>)
    requires Ok(m) && off <= tids
    ensures var r := MarkBoth(m, tids);
            && Ok(r) && Ok(r.(owned := m.owned[owner := Book(m.owned, owner) - off]))
            && All(r.(owned := m.owned[owner := Book(m.owned, owner) - off])) == All(r)
            && |All(r)| == |All(m)|
            && forall i | 0 <= i < |All(m)| :: All(r)[i] == Hit(All(m)[i], All(m)[i].tid in tids)
  {
    var r := MarkBoth(m, tids);
    assert forall i | 0 <= i < |All(m)| :: All(r)[i] == Hit(All(m)[i], All(m)[i].tid in tids);
    forall i | 0 <= i < |All(m)|
      ensures Booked(All(r)[i], m.owned, m.lastId)
      ensures Booked(All(r)[i], m.owned[owner := Book(m.owned, owner) - off], m.lastId)
    {
      assert Booked(All(m)[i], m.owned, m.lastId);
    }
  }

  lemma OwnersBook(m: Manager, owner: nat, i: nat)
    requires Ok(m) && i < |All(m)|
    ensures var t := All(m)[i];
            Hit(t, t.tid in Book(m.owned, owner)) == Hit(t, owner != 0 && owner == t.owner)
  {
    assert Booked(All(m)[i], m.owned, m.lastId);
  }

  /** Every call keeps the invariant and cancels exactly the timers it kills. */
  lemma DoOk(m: Manager, a: Action)
    requires Ok(m)
    ensures Ok(Do(m, a)) && |All(Do(m, a))| == |All(m)| + (if a.Create? then 1 else 0)
    ensures forall i | 0 <= i < |All(m)| :: All(Do(m, a))[i] == Hit(All(m)[i], Kills(a, All(m)[i]))
  {
    match a
    case Create(_, _, _, _) => InsertOk(m, NewTimer(m, a));
    case Cancel(tid) => MarkOk(m, {tid}, 0, {});
    case OwnerCancel(owner, tid) => MarkOk(m, {tid}, owner, {tid});
    case OwnerCancelAll(owner) =>
      var book := Book(m.owned, owner);
      MarkOk(m, book, owner, book);
      assert book - book == {};
      forall i | 0 <= i < |All(m)|
        ensures All(Do(m, a))[i] == Hit(All(m)[i], Kills(a, All(m)[i]))
      {
        OwnersBook(m, owner, i);
      }
  }

  /** ... and so does every sequence of calls. */
  lemma {:induction false} RunOk(m: Manager, acts: seq<Action>)
    requires Ok(m)
    ensures Ok(Run(m, acts)) && |All(Run(m, acts))| >= |All(m)|
    ensures forall i | 0 <= i < |All(m)| :: All(Run(m, acts))[i] == Hit(All(m)[i], Killed(acts, All(m)[i]))
    decreases |acts|
  {
    hide Ok, Do, Kills, Killed, All;
    if acts == [] {
      forall i | 0 <= i < |All(m)|
        ensures Hit(All(m)[i], Killed(acts, All(m)[i])) == All(m)[i]
      {
        KilledNever(All(m)[i]);
      }
    } else {
      var m1 := Do(m, acts[0]);
      DoOk(m, acts[0]);
      RunOk(m1, acts[1..]);
      forall i | 0 <= i < |All(m)|
        ensures All(Run(m, acts))[i] == Hit(All(m)[i], Killed(acts, All(m)[i]))
      {
        KilledSplit(acts, All(m)[i]);
        KilledHit(acts[1..], All(m)[i], Kills(acts[0], All(m)[i]));
      }
    }
  }

  lemma KilledNever(t: Timer)
    ensures !Killed([], t)
  {
  }

  /** Who is killed does not depend on who was cancelled before. */
  lemma KilledHit(acts: seq<Action>, t: Timer, dead: bool)
    ensures Killed(acts, Hit(t, dead)) == Killed(acts, t)
  {
    assert forall i | 0 <= i < |acts| :: Kills(acts[i], Hit(t, dead)) == Kills(acts[i], t);
  }

  lemma RunTimers(m: Manager, acts: seq<Action>)
    requires Ok(m) && m.inProcess
    ensures forall i | 0 <= i < |m.timers| :: Run(m, acts).timers[i] == Hit(m.timers[i], Killed(acts, m.timers[i]))
  {
    RunOk(m, acts);
    forall i | 0 <= i < |m.timers|
      ensures Run(m, acts).timers[i] == Hit(m.timers[i], Killed(acts, m.timers[i]))
    {
      assert All(m)[i] == m.timers[i] && All(Run(m, acts))[i] == Run(m, acts).timers[i];
    }
  }

  lemma EraseOk(m: Manager, i: nat)
    requires Ok(m) && i < |m.timers|
    ensures Ok(Erase(m, i))
  {
    hide Booked, BooksOk;
    var r := Erase(m, i);
    assert forall k | 0 <= k < |All(r)| :: All(r)[k] == All(m)[if k < i then k else k + 1];
  }

  lemma AfterOk(m: Manager, i: nat, now: nat)
    requires Ok(m) && i < |m.timers|
    ensures Ok(After(m, i, now))
  {
    EraseOk(m, i);
    if !m.timers[i].once {
      var r := After(m, i, now);
      assert forall k | 0 <= k < |All(m)| :: All(r)[k] == (if k == i then All(m)[i].(count := now) else All(m)[k]);
      forall k | 0 <= k < |All(r)|
        ensures Booked(All(r)[k], r.owned, r.lastId)
      {
        assert Booked(All(m)[k], m.owned, m.lastId);
      }
    }
  }

  /** What some calls do to timers that are there. */
  function Strike(ts: seq<Timer>, acts: seq<Action>): (r: seq<Timer>)
    ensures |r| == |ts| && forall i | 0 <= i < |ts| :: r[i] == Hit(ts[i], Killed(acts, ts[i]))
  {
    seq(|ts|, i requires 0 <= i < |ts| => Hit(ts[i], Killed(acts, ts[i])))
  }

  /** What is left of a timer that was looked at. */
  function Kept(t: Timer, fired: bool, now: nat, acts: seq<Action>): seq<Timer> {
    if t.canceled || (fired && t.once) then []
    else [Hit(if fired then t.(count := now) else t, Killed(acts, t))]
  }

  /** The calls made while one timer is looked at, and their effect on the list and on everything else. */
  lemma VisitFacts(m: Manager, i: nat, now: nat, due: (nat, nat) -> bool, does: nat -> seq<Action>)
    requires Ok(m) && m.inProcess && i < |m.timers|
    ensures var t, v := m.timers[i], VisitAt(m, i, now, due, does);
            var acts := if v.fired then does(t.tid) else [];
            && Ok(v.m) && v.fired == (!t.canceled && due(t.count, t.interval))
            && v.m.timers[v.i..] == Strike(m.timers[i + 1..], acts)
            && v.m.timers[..v.i] == Strike(m.timers[..i], acts) + Kept(t, v.fired, now, acts)
            && v.m.added == Run(m, acts).added && v.m.owned == Run(m, acts).owned && v.m.lastId == Run(m, acts).lastId
  {
    hide Ok, Killed, Erase, After;
    var t := m.timers[i];
    if t.canceled {
      EraseOk(m, i);
      EraseFacts(m, i);
      StrikeNothing(m.timers[..i]);
      StrikeNothing(m.timers[i + 1..]);
    } else if due(t.count, t.interval) {
      var m1 := Run(m, does(t.tid));
      RunOk(m, does(t.tid));
      RunTimers(m, does(t.tid));
      AfterOk(m1, i, now);
      AfterFacts(m1, i, now);
      assert m1.timers[..i] == Strike(m.timers[..i], does(t.tid));
      assert m1.timers[i + 1..] == Strike(m.timers[i + 1..], does(t.tid));
    } else {
      StrikeNothing(m.timers[..i]);
      StrikeNothing(m.timers[i + 1..]);
      KilledNever(t);
      assert m.timers[..i + 1] == m.timers[..i] + [t];
    }
  }

  lemma StrikeNothing(ts: seq<Timer>)
    ensures Strike(ts, []) == ts
  {
    forall i | 0 <= i < |ts|
      ensures Strike(ts, [])[i] == ts[i]
    {
      KilledNever(ts[i]);
    }
  }

  lemma EraseFacts(m: Manager, i: nat)
    requires i < |m.timers|
    ensures var r := Erase(m, i);
            && r.inProcess == m.inProcess && r.added == m.added && r.owned == m.owned && r.lastId == m.lastId
            && |r.timers| == |m.timers| - 1
            && r.timers[..i] == m.timers[..i] && r.timers[i..] == m.timers[i + 1..]
  {
  }

  lemma AfterFacts(m: Manager, i: nat, now: nat)
    requires i < |m.timers|
    ensures var r := After(m, i, now);
            && r.inProcess == m.inProcess && r.added == m.added && r.owned == m.owned && r.lastId == m.lastId
            && (if m.timers[i].once then
                  && |r.timers| == |m.timers| - 1
                  && r.timers[..i] == m.timers[..i] && r.timers[i..] == m.timers[i + 1..]
                else
                  && |r.timers| == |m.timers| && r.timers[..i + 1] == m.timers[..i] + [m.timers[i].(count := now)]
                  && r.timers[i + 1..] == m.timers[i + 1..])
  {
  }

  /** A pass keeps the invariant. */
  lemma {:induction false} PassOk(m: Manager, i: nat, now: nat, due: (nat, nat) -> bool, does: nat -> seq<Action>)
    requires Ok(m) && m.inProcess && i <= |m.timers|
    ensures Ok(Pass(m, i, now, due, does).m)
    decreases |m.timers| - i
  {
    hide Ok, VisitAt;
    if i < |m.timers| {
      VisitFacts(m, i, now, due, does);
      var v := VisitAt(m, i, now, due, does);
      PassOk(v.m, v.i, now, due, does);
    }
  }

  // ---------- which timers a pass fires ----------

  /** Whether the callbacks of the timers fired before `bound` kill a timer. */
  predicate KilledBefore(fired: seq<nat>, bound: int, does: nat -> seq<Action>, t: Timer) {
    exists x | x in fired && x < bound :: Killed(does(x), t)
  }

  /** Whether a timer is cancelled when the pass reaches it: it was before, or by a timer fired earlier. */
  predicate Gone(t: Timer, fired: seq<nat>, does: nat -> seq<Action>) {
    t.canceled || KilledBefore(fired, t.tid, does, t)
  }

  predicate Ascending(xs: seq<nat>) { forall i, j | 0 <= i < j < |xs| :: xs[i] < xs[j] }

  predicate Among(x: nat, ts: seq<Timer>) { exists k | 0 <= k < |ts| :: ts[k].tid == x }

  /** What one fired timer adds. */
  lemma KilledBeforeCons(x: nat, fired: seq<nat>, bound: int, does: nat -> seq<Action>, t: Timer)
    ensures KilledBefore([x] + fired, bound, does, t)
              == ((x < bound && Killed(does(x), t)) || KilledBefore(fired, bound, does, t))
  {
    forall y | y in [x] + fired
      ensures y == x || y in fired
    {
    }
    assert x in [x] + fired && forall y | y in fired :: y in [x] + fired;
  }

  lemma KilledBeforeHit(fired: seq<nat>, bound: int, does: nat -> seq<Action>, t: Timer, dead: bool)
    ensures KilledBefore(fired, bound, does, Hit(t, dead)) == KilledBefore(fired, bound, does, t)
  {
    forall x | x in fired
      ensures Killed(does(x), Hit(t, dead)) == Killed(does(x), t)
    {
      KilledHit(does(x), t, dead);
    }
  }

  /** A pass fires timers of the list, in order and each at most once: those that are due and not cancelled
      when it reaches them. */
  lemma {:induction false} PassFires(m: Manager, i: nat, now: nat, due: (nat, nat) -> bool, does: nat -> seq<Action>)
    requires Ok(m) && m.inProcess && i <= |m.timers|
    ensures var rest, fired := m.timers[i..], Pass(m, i, now, due, does).fired;
            && Ascending(fired) && (forall x | x in fired :: Among(x, rest))
            && forall k | 0 <= k < |rest| ::
                 rest[k].tid in fired <==> due(rest[k].count, rest[k].interval) && !Gone(rest[k], fired, does)
    decreases |m.timers| - i
  {
    if i < |m.timers| {
      hide Ok, VisitAt, Killed, KilledBefore, Increasing;
      Ascends(m, i);
      VisitFacts(m, i, now, due, does);
      var v := VisitAt(m, i, now, due, does);
      PassFires(v.m, v.i, now, due, does);
      FiresCons(m.timers[i..], v.m.timers[v.i..], v.fired, Pass(v.m, v.i, now, due, does).fired, due, does);
    }
  }

  lemma Ascends(m: Manager, i: nat)
    requires Ok(m) && i < |m.timers|
    ensures Increasing(m.timers[i..]) && m.timers[i..] == [m.timers[i]] + m.timers[i + 1..]
  {
    assert forall k | 0 <= k < |m.timers| - i :: m.timers[i..][k] == All(m)[i + k];
  }

  /** The timers fired, when one is looked at first and `fired'` are fired of the others. */
  function FiredOf(first: bool, x: nat, fired': seq<nat>): seq<nat> { if first then [x] + fired' else fired' }

  /** What the timer looked at first adds to what is said of the others. */
  lemma FiresCons(rest: seq<Timer>, rest': seq<Timer>, first: bool, fired': seq<nat>,
                  due: (nat, nat) -> bool, does: nat -> seq<Action>)
    requires rest != [] && Increasing(rest)
    requires first == (!rest[0].canceled && due(rest[0].count, rest[0].interval))
    requires rest' == Strike(rest[1..], if first then does(rest[0].tid) else [])
    requires Ascending(fired') && forall x | x in fired' :: Among(x, rest')
    requires forall k | 0 <= k < |rest'| ::
               rest'[k].tid in fired' <==> due(rest'[k].count, rest'[k].interval) && !Gone(rest'[k], fired', does)
    ensures var fired := FiredOf(first, rest[0].tid, fired');
            && Ascending(fired) && (forall x | x in fired :: Among(x, rest))
            && forall k | 0 <= k < |rest| ::
                 rest[k].tid in fired <==> due(rest[k].count, rest[k].interval) && !Gone(rest[k], fired, does)
  {
    var t, fired := rest[0], FiredOf(first, rest[0].tid, fired');
    FiredLater(rest, rest', fired');
    assert forall i | 0 <= i < |fired'| :: fired'[i] in fired';
    assert first ==> Among(t.tid, rest);
    forall k | 0 <= k < |rest|
      ensures rest[k].tid in fired <==> due(rest[k].count, rest[k].interval) && !Gone(rest[k], fired, does)
    {
      hide Among, Killed;
      if k == 0 {
        assert !KilledBefore(fired, t.tid, does, t);
      } else {
        hide Gone, KilledBefore;
        GoneCons(t.tid, first, fired', does, rest[k]);
        assert rest'[k - 1] == Hit(rest[k], Killed(if first then does(t.tid) else [], rest[k]));
        assert rest[k].tid in fired <==> rest[k].tid in fired';
      }
    }
  }

  lemma FiredLater(rest: seq<Timer>, rest': seq<Timer>, fired': seq<nat>)
    requires rest != [] && Increasing(rest) && |rest'| == |rest| - 1
    requires forall k | 0 <= k < |rest'| :: rest'[k].tid == rest[k + 1].tid
    requires forall x | x in fired' :: Among(x, rest')
    ensures forall x | x in fired' :: rest[0].tid < x && Among(x, rest)
  {
    forall x | x in fired'
      ensures rest[0].tid < x && Among(x, rest)
    {
      var k :| 0 <= k < |rest'| && rest'[k].tid == x;
      assert rest[k + 1].tid == x;
    }
  }

  lemma GoneCons(x: nat, first: bool, fired: seq<nat>, does: nat -> seq<Action>, t: Timer)
    requires x < t.tid
    ensures Gone(t, FiredOf(first, x, fired), does)
              == Gone(Hit(t, Killed(if first then does(x) else [], t)), fired, does)
  {
    KilledNever(t);
    KilledBeforeCons(x, fired, t.tid, does, t);
    KilledBeforeHit(fired, t.tid, does, t, Killed(if first then does(x) else [], t));
  }

  // ---------- what a pass leaves ----------

  /** A timer that was there before the pass, as the pass leaves it. */
  function Final(t: Timer, fired: seq<nat>, now: nat, does: nat -> seq<Action>): Timer {
    Hit(if t.tid in fired then t.(count := now) else t, KilledBy(fired, does, t))
  }

  predicate Stays(t: Timer, fired: seq<nat>, does: nat -> seq<Action>) {
    !Gone(t, fired, does) && !(t.tid in fired && t.once)
  }

  /** The timers that stay, in their order. */
  function Left(ts: seq<Timer>, fired: seq<nat>, now: nat, does: nat -> seq<Action>): seq<Timer> {
    if ts == [] then []
    else (if Stays(ts[0], fired, does) then [Final(ts[0], fired, now, does)] else []) + Left(ts[1..], fired, now, does)
  }

  predicate KilledBy(fired: seq<nat>, does: nat -> seq<Action>, t: Timer) {
    exists x | x in fired :: Killed(does(x), t)
  }

  /** A timer the pass has already gone by, at its end. */
  function Touched(ts: seq<Timer>, fired: seq<nat>, does: nat -> seq<Action>): (r: seq<Timer>)
    ensures |r| == |ts| && forall i | 0 <= i < |ts| :: r[i] == Hit(ts[i], KilledBy(fired, does, ts[i]))
  {
    seq(|ts|, i requires 0 <= i < |ts| => Hit(ts[i], KilledBy(fired, does, ts[i])))
  }

  lemma KilledByCons(first: bool, x: nat, fired: seq<nat>, does: nat -> seq<Action>, t: Timer)
    ensures KilledBy(FiredOf(first, x, fired), does, t)
              == (Killed(if first then does(x) else [], t) || KilledBy(fired, does, t))
  {
    KilledNever(t);
    var all := FiredOf(first, x, fired);
    forall y | y in all
      ensures y in fired || (first && y == x)
    {
    }
    assert forall y | y in fired :: y in all;
    assert first ==> x in all;
  }

  lemma KilledByHit(fired: seq<nat>, does: nat -> seq<Action>, t: Timer, u: Timer)
    requires u.tid == t.tid && u.owner == t.owner
    ensures KilledBy(fired, does, u) == KilledBy(fired, does, t)
  {
    forall x | x in fired
      ensures Killed(does(x), u) == Killed(does(x), t)
    {
      assert forall i | 0 <= i < |does(x)| :: Kills(does(x)[i], u) == Kills(does(x)[i], t);
    }
  }

  lemma TouchedStrike(ts: seq<Timer>, first: bool, x: nat, fired: seq<nat>, does: nat -> seq<Action>)
    ensures Touched(Strike(ts, if first then does(x) else []), fired, does) == Touched(ts, FiredOf(first, x, fired), does)
  {
    hide Killed, KilledBy, FiredOf;
    forall i | 0 <= i < |ts|
      ensures Touched(Strike(ts, if first then does(x) else []), fired, does)[i]
                == Touched(ts, FiredOf(first, x, fired), does)[i]
    {
      KilledByCons(first, x, fired, does, ts[i]);
      KilledByHit(fired, does, ts[i], Strike(ts, if first then does(x) else [])[i]);
    }
  }

  /** The timer looked at itself. */
  lemma KeptFinal(t: Timer, first: bool, fired: seq<nat>, now: nat, does: nat -> seq<Action>)
    requires forall x | x in fired :: t.tid < x
    requires first ==> !t.canceled
    ensures var all := FiredOf(first, t.tid, fired);
            Touched(Kept(t, first, now, if first then does(t.tid) else []), fired, does)
              == (if Stays(t, all, does) then [Final(t, all, now, does)] else [])
  {
    var all, acts := FiredOf(first, t.tid, fired), if first then does(t.tid) else [];
    assert forall y | y in all :: y in fired || (first && y == t.tid);
    assert t.tid in all <==> first;
    assert !KilledBefore(all, t.tid, does, t);
    hide Killed, KilledBefore, KilledBy, FiredOf;
    var u := if first then t.(count := now) else t;
    KilledByCons(first, t.tid, fired, does, t);
    KilledByHit(fired, does, t, Hit(u, Killed(acts, t)));
    if Stays(t, all, does) {
      assert Final(t, all, now, does) == Hit(Hit(u, Killed(acts, t)), KilledBy(fired, does, t));
    }
  }

  /** The timers behind it. */
  lemma StaysCons(x: nat, first: bool, fired: seq<nat>, now: nat, does: nat -> seq<Action>, t: Timer)
    requires x < t.tid
    ensures var all, u := FiredOf(first, x, fired), Hit(t, Killed(if first then does(x) else [], t));
            && Stays(t, all, does) == Stays(u, fired, does)
            && Final(t, all, now, does) == Final(u, fired, now, does)
  {
    hide Killed, KilledBefore, KilledBy;
    var u := Hit(t, Killed(if first then does(x) else [], t));
    GoneCons(x, first, fired, does, t);
    KilledByCons(first, x, fired, does, t);
    KilledByHit(fired, does, t, u);
    assert t.tid in FiredOf(first, x, fired) <==> t.tid in fired;
  }

  lemma {:induction false} LeftCons(x: nat, first: bool, ts: seq<Timer>, fired: seq<nat>, now: nat, does: nat -> seq<Action>)
    requires forall k | 0 <= k < |ts| :: x < ts[k].tid
    ensures Left(Strike(ts, if first then does(x) else []), fired, now, does) == Left(ts, FiredOf(first, x, fired), now, does)
  {
    var acts := if first then does(x) else [];
    if ts != [] {
      hide Stays, Final, Killed, FiredOf;
      StaysCons(x, first, fired, now, does, ts[0]);
      LeftCons(x, first, ts[1..], fired, now, does);
      assert Strike(ts, acts)[1..] == Strike(ts[1..], acts);
    }
  }

  lemma LeavesCons(pre: seq<Timer>, rest: seq<Timer>, first: bool, fired: seq<nat>, now: nat, does: nat -> seq<Action>)
    requires rest != [] && (first ==> !rest[0].canceled)
    requires (forall x | x in fired :: rest[0].tid < x) && forall k | 0 <= k < |rest| - 1 :: rest[0].tid < rest[1..][k].tid
    ensures var all, acts := FiredOf(first, rest[0].tid, fired), if first then does(rest[0].tid) else [];
            Touched(Strike(pre, acts) + Kept(rest[0], first, now, acts), fired, does)
            + Left(Strike(rest[1..], acts), fired, now, does)
              == Touched(pre, all, does) + Left(rest, all, now, does)
  {
    hide Killed, KilledBefore, KilledBy, Stays, Final, Touched, FiredOf, Kept, Strike;
    var t := rest[0];
    var all, acts := FiredOf(first, t.tid, fired), if first then does(t.tid) else [];
    KeptFinal(t, first, fired, now, does);
    LeftCons(t.tid, first, rest[1..], fired, now, does);
    TouchedStrike(pre, first, t.tid, fired, does);
    TouchedAppend(Strike(pre, acts), Kept(t, first, now, acts), fired, does);
    Assoc(Touched(pre, all, does), Touched(Kept(t, first, now, acts), fired, does), Left(rest[1..], all, now, does));
  }

  /** Timers fired after the one looked at come later in the list. */
  lemma FiredAfterVisit(m: Manager, i: nat, now: nat, due: (nat, nat) -> bool, does: nat -> seq<Action>)
    requires Ok(m) && m.inProcess && i < |m.timers|
    ensures var v := VisitAt(m, i, now, due, does);
            forall x | x in Pass(v.m, v.i, now, due, does).fired :: m.timers[i].tid < x
  {
    hide Ok, VisitAt, Gone, Kept, Among, Pass, Killed;
    var v := VisitAt(m, i, now, due, does);
    Ascends(m, i);
    VisitFacts(m, i, now, due, does);
    FiredAmong(v.m, v.i, now, due, does);
    FiredLater(m.timers[i..], v.m.timers[v.i..], Pass(v.m, v.i, now, due, does).fired);
  }

  lemma FiredAmong(m: Manager, i: nat, now: nat, due: (nat, nat) -> bool, does: nat -> seq<Action>)
    requires Ok(m) && m.inProcess && i <= |m.timers|
    ensures forall x | x in Pass(m, i, now, due, does).fired :: Among(x, m.timers[i..])
  {
    PassFires(m, i, now, due, does);
  }

  /** A pass leaves the timers gone by before and, in their order, those that stay. */
  lemma {:induction false} PassLeaves(m: Manager, i: nat, now: nat, due: (nat, nat) -> bool, does: nat -> seq<Action>)
    requires Ok(m) && m.inProcess && i <= |m.timers|
    ensures var r := Pass(m, i, now, due, does);
            r.m.timers == Touched(m.timers[..i], r.fired, does) + Left(m.timers[i..], r.fired, now, does)
    decreases |m.timers| - i
  {
    if i == |m.timers| {
      assert Touched(m.timers, [], does) == m.timers;
      assert m.timers[..i] == m.timers;
    } else {
      hide Ok, VisitAt, Killed, KilledBefore, KilledBy, Stays, Final, Touched, Kept, Left, Strike;
      var v := VisitAt(m, i, now, due, does);
      Ascends(m, i);
      VisitFacts(m, i, now, due, does);
      FiredAfterVisit(m, i, now, due, does);
      PassLeaves(v.m, v.i, now, due, does);
      LeavesCons(m.timers[..i], m.timers[i..], v.fired, Pass(v.m, v.i, now, due, does).fired, now, does);
    }
  }

  lemma TouchedAppend(a: seq<Timer>, b: seq<Timer>, fired: seq<nat>, does: nat -> seq<Action>)
    ensures Touched(a + b, fired, does) == Touched(a, fired, does) + Touched(b, fired, does)
  {
  }

  // ---------- timers created during a pass ----------

  /** The calls made by the callbacks of the timers fired, in order. */
  function ActsOf(fired: seq<nat>, does: nat -> seq<Action>): seq<Action> {
    if fired == [] then [] else does(fired[0]) + ActsOf(fired[1..], does)
  }

  /** The timers some calls create when the last identifier given was `lastId`, in order of creation. */
  function Made(lastId: nat, acts: seq<Action>): seq<Timer>
    decreases |acts|
  {
    if acts == [] then []
    else match acts[0]
      case Create(owner, tick, itv, once) =>
        [Timer(lastId + 1, owner, tick, itv, once % ONCE_RANGE != 0, false)] + Made(lastId + 1, acts[1..])
      case _ => Made(lastId, acts[1..])
  }

  /** Timers but for their being cancelled. */
  function Plain(ts: seq<Timer>): (r: seq<Timer>)
    ensures |r| == |ts| && forall i | 0 <= i < |ts| :: r[i] == ts[i].(canceled := false)
  {
    seq(|ts|, i requires 0 <= i < |ts| => ts[i].(canceled := false))
  }

  /** Calls made during a pass put what they create behind what was created before. */
  lemma {:induction false} RunMakes(m: Manager, acts: seq<Action>)
    requires m.inProcess
    ensures Plain(Run(m, acts).added) == Plain(m.added) + Made(m.lastId, acts)
    ensures Run(m, acts).lastId == m.lastId + |Made(m.lastId, acts)|
    decreases |acts|
  {
    if acts != [] {
      var m1 := Do(m, acts[0]);
      RunMakes(m1, acts[1..]);
      if acts[0].Create? {
        var made := Made(m.lastId + 1, acts[1..]);
        assert Plain(m1.added) == Plain(m.added) + [NewTimer(m, acts[0])];
        Assoc(Plain(m.added), [NewTimer(m, acts[0])], made);
      } else {
        assert Plain(m1.added) == Plain(m.added);
      }
    }
  }

  lemma {:induction false} RunAppend(m: Manager, a: seq<Action>, b: seq<Action>)
    ensures Run(m, a + b) == Run(Run(m, a), b)
    decreases |a|
  {
    if a == [] {
      assert a + b == b;
    } else {
      assert (a + b)[1..] == a[1..] + b;
      RunAppend(Do(m, a[0]), a[1..], b);
    }
  }

  /** Agreement on all but the list itself. */
  predicate Alike(m: Manager, n: Manager) {
    m.inProcess && m == n.(timers := m.timers)
  }

  lemma {:induction false} RunAlike(m: Manager, n: Manager, acts: seq<Action>)
    requires Alike(m, n)
    ensures Alike(Run(m, acts), Run(n, acts))
    decreases |acts|
  {
    if acts != [] {
      RunAlike(Do(m, acts[0]), Do(n, acts[0]), acts[1..]);
    }
  }

  /** But for the list, a pass does what the calls of its callbacks do. */
  lemma {:induction false} PassRuns(m: Manager, i: nat, now: nat, due: (nat, nat) -> bool, does: nat -> seq<Action>)
    requires Ok(m) && m.inProcess && i <= |m.timers|
    ensures var r := Pass(m, i, now, due, does); Alike(r.m, Run(m, ActsOf(r.fired, does)))
    decreases |m.timers| - i
  {
    hide Ok, VisitAt, Killed, Kept;
    if i < |m.timers| {
      var v := VisitAt(m, i, now, due, does);
      VisitFacts(m, i, now, due, does);
      PassRuns(v.m, v.i, now, due, does);
      var acts, rest := if v.fired then does(m.timers[i].tid) else [], ActsOf(Pass(v.m, v.i, now, due, does).fired, does);
      RunAlike(v.m, Run(m, acts), rest);
      RunAppend(m, acts, rest);
      assert [] + rest == rest;
      assert ActsOf(Pass(m, i, now, due, does).fired, does) == acts + rest;
    }
  }

  // ---------- an update as a whole ----------

  /** One `Update`, whatever is due and whatever its callbacks create and cancel. It fires timers that were
      there before, in order, each at most once, and exactly those due and not cancelled when they are
      reached. It leaves those that stay, in their old order, followed by the timers created meanwhile in
      the order of their creation. */
  lemma UpdateTheorem(m: Manager, now: nat, due: (nat, nat) -> bool, does: nat -> seq<Action>)
    requires Ok(m) && !m.inProcess
    ensures var r := Update(m, now, due, does);
            var made := Made(m.lastId, ActsOf(r.fired, does));
            var left := Left(m.timers, r.fired, now, does);
            && Ok(r.m) && !r.m.inProcess
            && Ascending(r.fired) && (forall x | x in r.fired :: Among(x, m.timers))
            && (forall t | t in m.timers ::
                  t.tid in r.fired <==> due(t.count, t.interval) && !Gone(t, r.fired, does))
            && r.m.lastId == m.lastId + |made|
            && |r.m.timers| == |left| + |made|
            && r.m.timers[..|left|] == left && Plain(r.m.timers[|left|..]) == made
  {
    var m1 := m.(inProcess := true);
    assert All(m1) == All(m) == m.timers;
    assert Ok(m1);
    UpdateFires(m1, now, due, does);
    UpdateLeaves(m1, now, due, does);
    UpdateOk(m, now, due, does);
  }

  lemma UpdateOk(m: Manager, now: nat, due: (nat, nat) -> bool, does: nat -> seq<Action>)
    requires Ok(m) && !m.inProcess
    ensures Ok(Update(m, now, due, does).m) && !Update(m, now, due, does).m.inProcess
  {
    var m1 := m.(inProcess := true);
    assert All(m1) == All(m);
    assert Ok(m1);
    PassOk(m1, 0, now, due, does);
    var r, p := Update(m, now, due, does), Pass(m1, 0, now, due, does);
    assert All(r.m) == All(p.m);
  }

  lemma UpdateFires(m: Manager, now: nat, due: (nat, nat) -> bool, does: nat -> seq<Action>)
    requires Ok(m) && m.inProcess
    ensures var fired := Pass(m, 0, now, due, does).fired;
            && Ascending(fired) && (forall x | x in fired :: Among(x, m.timers))
            && (forall t | t in m.timers :: t.tid in fired <==> due(t.count, t.interval) && !Gone(t, fired, does))
  {
    hide Ok, Gone, Among;
    PassFires(m, 0, now, due, does);
    assert m.timers[0..] == m.timers;
  }

  lemma UpdateLeaves(m: Manager, now: nat, due: (nat, nat) -> bool, does: nat -> seq<Action>)
    requires Ok(m) && m.inProcess && m.added == []
    ensures var r := Pass(m, 0, now, due, does);
            && r.m.timers == Left(m.timers, r.fired, now, does)
            && Plain(r.m.added) == Made(m.lastId, ActsOf(r.fired, does))
            && r.m.lastId == m.lastId + |Made(m.lastId, ActsOf(r.fired, does))|
  {
    hide Ok, Left, Pass, Made, Touched;
    var r := Pass(m, 0, now, due, does);
    PassLeaves(m, 0, now, due, does);
    PassRuns(m, 0, now, due, does);
    RunMakes(m, ActsOf(r.fired, does));
    assert m.timers[0..] == m.timers && m.timers[..0] == [] && Touched([], r.fired, does) == [];
    assert Plain(m.added) == [];
  }

  // ---------- cancellation over whole runs ----------

  /** The identifiers in `dead` were given out, and no timer that is there and not cancelled has one. */
  predicate Quiet(m: Manager, dead: set<nat>) {
    && (forall id | id in dead :: id <= m.lastId)
    && forall i | 0 <= i < |All(m)| :: All(m)[i].tid in dead ==> All(m)[i].canceled
  }

  lemma DoQuiet(m: Manager, a: Action, dead: set<nat>)
    requires Ok(m) && Quiet(m, dead)
    ensures Quiet(Do(m, a), dead)
  {
    hide Ok;
    DoOk(m, a);
    if a.Create? {
      InsertOk(m, NewTimer(m, a));
    }
  }

  lemma {:induction false} RunQuiet(m: Manager, acts: seq<Action>, dead: set<nat>)
    requires Ok(m) && Quiet(m, dead)
    ensures Quiet(Run(m, acts), dead)
    decreases |acts|
  {
    hide Ok, Quiet, Do;
    if acts != [] {
      DoQuiet(m, acts[0], dead);
      DoOk(m, acts[0]);
      RunQuiet(Do(m, acts[0]), acts[1..], dead);
    }
  }

  /** A call that kills every timer with an identifier makes it quiet. */
  lemma KillQuiets(m: Manager, a: Action, dead: set<nat>)
    requires Ok(m) && !a.Create? && forall id | id in dead :: id <= m.lastId
    requires forall i | 0 <= i < |All(m)| && All(m)[i].tid in dead :: Kills(a, All(m)[i])
    ensures Quiet(Do(m, a), dead)
  {
    hide Ok;
    DoOk(m, a);
  }

  /** What is quiet after the calls of an update is quiet after the update. */
  lemma UpdateQuiets(m: Manager, now: nat, due: (nat, nat) -> bool, does: nat -> seq<Action>, dead: set<nat>)
    requires Ok(m) && !m.inProcess
    requires Quiet(Run(m.(inProcess := true), ActsOf(Update(m, now, due, does).fired, does)), dead)
    ensures Quiet(Update(m, now, due, does).m, dead)
  {
    var m1 := m.(inProcess := true);
    assert All(m1) == All(m) == m.timers;
    assert Ok(m1);
    var p := Pass(m1, 0, now, due, does);
    var acts := ActsOf(p.fired, does);
    var n := Run(m1, acts);
    PassRuns(m1, 0, now, due, does);
    UpdateLeaves(m1, now, due, does);
    RunTimers(m1, acts);
    hide Ok, Gone, KilledBy, Killed, Pass, Run, Kills;
    forall t | t in Left(m.timers, p.fired, now, does)
      ensures t.tid in dead ==> t.canceled
    {
      var k := LeftOf(m.timers, p.fired, now, does, t);
      assert All(n)[k] == n.timers[k] == Hit(m.timers[k], Killed(acts, m.timers[k]));
      ActsOfKill(p.fired, does, m.timers[k]);
      StaysUncancelled(m.timers[k], p.fired, does);
    }
    forall t | t in p.m.added
      ensures t.tid in dead ==> t.canceled
    {
      var k :| 0 <= k < |n.added| && n.added[k] == t;
      assert All(n)[|n.timers| + k] == t;
    }
    var r := Update(m, now, due, does).m;
    assert All(r) == Left(m.timers, p.fired, now, does) + p.m.added;
  }

  lemma StaysUncancelled(t: Timer, fired: seq<nat>, does: nat -> seq<Action>)
    requires Stays(t, fired, does)
    ensures !t.canceled
  {
  }

  /** Where a timer that is left comes from. */
  lemma {:induction false} LeftOf(ts: seq<Timer>, fired: seq<nat>, now: nat, does: nat -> seq<Action>, t: Timer) returns (k: nat)
    requires t in Left(ts, fired, now, does)
    ensures k < |ts| && Stays(ts[k], fired, does) && t == Final(ts[k], fired, now, does)
  {
    hide Stays, Final;
    if t in Left(ts[1..], fired, now, does) {
      k := LeftOf(ts[1..], fired, now, does, t);
      k := k + 1;
    } else {
      k := 0;
    }
  }

  lemma {:induction false} ActsOfKill(fired: seq<nat>, does: nat -> seq<Action>, t: Timer)
    ensures Killed(ActsOf(fired, does), t) == KilledBy(fired, does, t)
  {
    if fired != [] {
      var rest := ActsOf(fired[1..], does);
      ActsOfKill(fired[1..], does, t);
      KilledAppend(does(fired[0]), rest, t);
      KilledByCons(true, fired[0], fired[1..], does, t);
      assert [fired[0]] + fired[1..] == fired;
    }
  }

  lemma KilledAppend(a: seq<Action>, b: seq<Action>, t: Timer)
    ensures Killed(a + b, t) == (Killed(a, t) || Killed(b, t))
  {
    if Killed(a, t) {
      var i :| 0 <= i < |a| && Kills(a[i], t);
      assert Kills((a + b)[i], t);
    }
    if Killed(b, t) {
      var i :| 0 <= i < |b| && Kills(b[i], t);
      assert Kills((a + b)[|a| + i], t);
    }
  }

  /** What is quiet after a call made in the middle of an update stays so until its end. `before`, `a` and
      `after` are the calls of all the callbacks of that update. */
  lemma CancelledCalls(m: Manager, now: nat, due: (nat, nat) -> bool, does: nat -> seq<Action>,
                       before: seq<Action>, a: Action, after: seq<Action>, dead: set<nat>)
    requires Ok(m) && !m.inProcess && !a.Create?
    requires ActsOf(Update(m, now, due, does).fired, does) == before + ([a] + after)
    requires var n := Run(m.(inProcess := true), before);
             && (forall id | id in dead :: id <= n.lastId)
             && forall i | 0 <= i < |All(n)| && All(n)[i].tid in dead :: Kills(a, All(n)[i])
    ensures Quiet(Update(m, now, due, does).m, dead)
  {
    var m1 := m.(inProcess := true);
    assert All(m1) == All(m) && Ok(m1);
    hide Ok, Update, Quiet, Do, All;
    RunOk(m1, before);
    var n := Run(m1, before);
    KillQuiets(n, a, dead);
    DoOk(n, a);
    RunQuiet(Do(n, a), after, dead);
    RunAppend(m1, before, [a] + after);
    assert ([a] + after)[1..] == after;
    UpdateQuiets(m, now, due, does, dead);
  }

  lemma {:induction false} MadeLater(lastId: nat, acts: seq<Action>, k: nat)
    requires k < |Made(lastId, acts)|
    ensures Made(lastId, acts)[k].tid == lastId + 1 + k
    decreases |acts|
  {
    if acts[0].Create? {
      if k > 0 {
        MadeLater(lastId + 1, acts[1..], k - 1);
      }
    } else {
      MadeLater(lastId, acts[1..], k);
    }
  }

  /** Where a timer of the list comes from after an update: it was there and stays (`k`), or was created
      meanwhile (`k - |m.timers|` in the order of creation). */
  lemma Origin(m: Manager, now: nat, due: (nat, nat) -> bool, does: nat -> seq<Action>, t: Timer) returns (k: nat)
    requires Ok(m) && !m.inProcess && t in Update(m, now, due, does).m.timers
    ensures var r := Update(m, now, due, does);
            var made := Made(m.lastId, ActsOf(r.fired, does));
            && k < |m.timers| + |made|
            && (if k < |m.timers| then Stays(m.timers[k], r.fired, does) && t == Final(m.timers[k], r.fired, now, does)
                else t.(canceled := false) == made[k - |m.timers|] && t.tid == m.lastId + 1 + k - |m.timers|)
  {
    UpdateTheorem(m, now, due, does);
    hide Ok, Update, Stays, Final, Gone;
    var r := Update(m, now, due, does);
    var left, made := Left(m.timers, r.fired, now, does), Made(m.lastId, ActsOf(r.fired, does));
    var i :| 0 <= i < |r.m.timers| && r.m.timers[i] == t;
    if i < |left| {
      assert left[i] == t;
      k := LeftOf(m.timers, r.fired, now, does, t);
    } else {
      MadeLater(m.lastId, ActsOf(r.fired, does), i - |left|);
      assert Plain(r.m.timers[|left|..])[i - |left|] == t.(canceled := false);
      k := |m.timers| + (i - |left|);
    }
  }

  /** An update fires no timer that is quiet, and frees those that are there. */
  lemma UpdateSilent(m: Manager, now: nat, due: (nat, nat) -> bool, does: nat -> seq<Action>, dead: set<nat>)
    requires Ok(m) && !m.inProcess && Quiet(m, dead)
    ensures var r := Update(m, now, due, does);
            && (forall x | x in r.fired :: x !in dead)
            && Quiet(r.m, dead) && (forall t | t in r.m.timers :: t.tid !in dead)
  {
    var m1 := m.(inProcess := true);
    assert All(m1) == All(m) == m.timers && Ok(m1);
    var r := Update(m, now, due, does);
    UpdateTheorem(m, now, due, does);
    RunQuiet(m1, ActsOf(r.fired, does), dead);
    UpdateQuiets(m, now, due, does, dead);
    hide Ok, Update, KilledBy, KilledBefore, All;
    assert forall k | 0 <= k < |m.timers| :: All(m)[k] == m.timers[k] && m.timers[k] in m.timers;
    forall t | t in r.m.timers
      ensures t.tid !in dead
    {
      var k := Origin(m, now, due, does, t);
    }
  }

  /** What happens between callbacks: calls from elsewhere, and updates. */
  datatype Event = Call(a: Action) | Tick(now: nat, due: (nat, nat) -> bool, does: nat -> seq<Action>)

  /** A run, with all the timers it fired. */
  function History(m: Manager, events: seq<Event>): Turn
    decreases |events|
  {
    if events == [] then Turn(m, [])
    else
      var one := match events[0]
                 case Call(a) => Turn(Do(m, a), [])
                 case Tick(now, due, does) => Update(m, now, due, does);
      var r := History(one.m, events[1..]);
      Turn(r.m, one.fired + r.fired)
  }

  /** Every run keeps the invariant, and in between updates nothing is in process. */
  lemma {:induction false} HistoryOk(m: Manager, events: seq<Event>)
    requires Ok(m) && !m.inProcess
    ensures Ok(History(m, events).m) && !History(m, events).m.inProcess
    decreases |events|
  {
    hide Ok, Do, Update;
    if events != [] {
      match events[0]
      case Call(a) =>
        DoOk(m, a);
        HistoryOk(Do(m, a), events[1..]);
      case Tick(now, due, does) =>
        UpdateTheorem(m, now, due, does);
        HistoryOk(Update(m, now, due, does).m, events[1..]);
    }
  }

  /** No firing of a quiet timer ever starts again. */
  lemma {:induction false} NeverAgain(m: Manager, events: seq<Event>, dead: set<nat>)
    requires Ok(m) && !m.inProcess && Quiet(m, dead)
    ensures forall x | x in History(m, events).fired :: x !in dead
    ensures Quiet(History(m, events).m, dead)
    decreases |events|
  {
    hide Ok, Do, Update, Quiet;
    if events != [] {
      match events[0]
      case Call(a) =>
        DoOk(m, a);
        DoQuiet(m, a, dead);
        NeverAgain(Do(m, a), events[1..], dead);
      case Tick(now, due, does) =>
        UpdateOk(m, now, due, does);
        UpdateSilent(m, now, due, does, dead);
        var r := Update(m, now, due, does);
        NeverAgain(r.m, events[1..], dead);
    }
  }

  /** After `CancelTimer` for a timer that was ever created, whatever happened before, it never fires again
      and the next full update frees it. */
  lemma CancelIsFinal(before: seq<Event>, tid: nat, after: seq<Event>)
    requires tid <= History(START, before).m.lastId
    ensures var m := Do(History(START, before).m, Cancel(tid));
            && tid !in History(m, after).fired
            && forall now: nat, due, does, t | t in Update(History(m, after).m, now, due, does).m.timers :: t.tid != tid
  {
    var m0 := History(START, before).m;
    HistoryOk(START, before);
    DoOk(m0, Cancel(tid));
    KillQuiets(m0, Cancel(tid), {tid});
    var m := Do(m0, Cancel(tid));
    NeverAgain(m, after, {tid});
    HistoryOk(m, after);
    forall now: nat, due, does, t | t in Update(History(m, after).m, now, due, does).m.timers
      ensures t.tid != tid
    {
      UpdateSilent(History(m, after).m, now, due, does, {tid});
    }
  }

  /** After `CancelAll` of an owner no timer it had created ever fires again. */
  lemma CancelAllIsFinal(before: seq<Event>, owner: nat, tid: nat, after: seq<Event>)
    requires owner != 0
    requires var m := History(START, before).m;
             tid <= m.lastId && forall t | t in m.timers && t.tid == tid :: t.owner == owner
    ensures tid !in History(Do(History(START, before).m, OwnerCancelAll(owner)), after).fired
  {
    var m0 := History(START, before).m;
    HistoryOk(START, before);
    DoOk(m0, OwnerCancelAll(owner));
    assert All(m0) == m0.timers;
    KillQuiets(m0, OwnerCancelAll(owner), {tid});
    NeverAgain(Do(m0, OwnerCancelAll(owner)), after, {tid});
  }
}
