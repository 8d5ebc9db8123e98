/** The order in which the pool works: the second callbacks run in the order in which their tasks were handed
    over, with one thread in the order in which they were pushed; and nothing is left undone. */
module AsyncOrder {
  import opened Bytes
  import opened AsyncWorld
  import opened AsyncTasks

  /** The tasks with a second callback. */
  function WithOver(ts: seq<Task>): seq<Task> {
    if ts == [] then [] else (if ts[0].hasOver then [ts[0]] else []) + WithOver(ts[1..])
  }

  function WithoutOver(ts: seq<Task>): seq<Task> {
    if ts == [] then [] else (if ts[0].hasOver then [] else [ts[0]]) + WithoutOver(ts[1..])
  }

  lemma {:induction false} WithOverAppend(a: seq<Task>, b: seq<Task>)
    ensures WithOver(a + b) == WithOver(a) + WithOver(b)
  {
    if a == [] {
      assert a + b == b;
    } else {
      WithOverAppend(a[1..], b);
      assert (a + b)[1..] == a[1..] + b;
    }
  }

  // ---------- told from the steps alone ----------

  /** What a step asks to be pushed: `PushTask` works as long as there is a pool. */
  function Asks(w: World, s: Step): seq<bool> { if s.Push? && !w.destroyed then [s.hasOver] else [] }

  /** What the steps of a run ask to be pushed, in order: for each task whether it has a second callback. */
  function Asked(w: World, steps: seq<Step>): seq<bool>
    decreases |steps|
  {
    if steps == [] then [] else Asks(w, steps[0]) + Asked(Try(w, steps[0]), steps[1..])
  }

  /** What a step hands over: the task of a worker that is through with it, if it has a second callback and
      `Update` does not hold the lock. */
  function Hands(w: World, s: Step): seq<Task> {
    if s.HandOver? && s.i < |w.workers| && !w.destroyed && w.logic.Outside?
       && w.workers[s.i].Done? && w.workers[s.i].task.hasOver
    then [w.workers[s.i].task] else []
  }

  /** What the steps of a run hand over, in order. */
  function Handed(w: World, steps: seq<Step>): seq<Task>
    decreases |steps|
  {
    if steps == [] then [] else Hands(w, steps[0]) + Handed(Try(w, steps[0]), steps[1..])
  }

  // ---------- pushed ----------

  /** Tasks numbered from `at`, one for each that was asked for. */
  function Numbered(at: nat, asked: seq<bool>): seq<Task>
    decreases |asked|
  {
    if asked == [] then [] else [Task(at, asked[0])] + Numbered(at + 1, asked[1..])
  }

  /** Whatever the threads do, the tasks pushed are those asked for. */
  lemma {:induction false} PushedAsAsked(w: World, steps: seq<Step>)
    ensures Exec(w, steps).pushed == w.pushed + Numbered(|w.pushed|, Asked(w, steps))
    decreases |steps|
  {
    if steps != [] {
      var s, w' := steps[0], Try(w, steps[0]);
      assert w'.pushed == w.pushed + Numbered(|w.pushed|, Asks(w, s));
      PushedAsAsked(w', steps[1..]);
      var rest := Asked(w', steps[1..]);
      if Asks(w, s) == [] {
        assert Asked(w, steps) == rest;
      } else {
        assert Asked(w, steps)[1..] == rest && |w'.pushed| == |w.pushed| + 1;
        Assoc(w.pushed, [Task(|w.pushed|, s.hasOver)], Numbered(|w'.pushed|, rest));
      }
    }
  }

  // ---------- handed over and completed ----------

  /** What was handed over is, in this order, what `Update` has freed, what waits for it, and what the
      destructor found; and the second callback has run for what was freed and the one about to be. */
  predicate InOrder(w: World, handed: seq<Task>) {
    && handed == w.freedOver + Waiting(w) + w.leftOver
    && w.completed == w.freedOver + (if w.logic.AfterOver? && w.logic.k < |w.over| then [w.over[w.logic.k]] else [])
  }

  lemma OrderHandOver(w: World, i: nat, handed: seq<Task>)
    requires ShapeOk(w) && InOrder(w, handed) && Enabled(w, HandOver(i))
    ensures InOrder(Apply(w, HandOver(i)), handed + Hands(w, HandOver(i)))
  {
    var h := Hands(w, HandOver(i));
    if h == [] {
      assert handed + h == handed;
    } else {
      assert w.leftOver == [] && Waiting(w) == w.over && handed == w.freedOver + w.over;
      Assoc(w.freedOver, w.over, h);
    }
  }

  lemma OrderFree(w: World, handed: seq<Task>)
    requires ShapeOk(w) && InOrder(w, handed) && Enabled(w, FreeOver)
    ensures InOrder(Apply(w, FreeOver), handed)
  {
    var t, w' := w.over[w.logic.k], Apply(w, FreeOver);
    assert Waiting(w) == [t] + Waiting(w');
    Assoc(w.freedOver, [t], Waiting(w'));
  }

  lemma OrderUpdate(w: World, s: Step, handed: seq<Task>)
    requires ShapeOk(w) && InOrder(w, handed) && Enabled(w, s) && (s.BeginUpdate? || s.RunOver? || s.EndUpdate?)
    ensures InOrder(Apply(w, s), handed)
  {
    var w' := Apply(w, s);
    match s
    case BeginUpdate => assert Waiting(w') == w.over;
    case RunOver => assert Waiting(w') == Waiting(w);
    case EndUpdate => assert Waiting(w) == [] == Waiting(w');
    case _ =>
  }

  lemma OrderEnd(w: World, handed: seq<Task>)
    requires ShapeOk(w) && InOrder(w, handed) && Enabled(w, Destroy)
    ensures InOrder(Apply(w, Destroy), handed)
  {
  }

  /** Only some steps touch the list of completed tasks. */
  lemma OrderOther(w: World, s: Step)
    requires Enabled(w, s)
    requires s.Push? || s.LookRunning? || s.Fetch? || s.StartTask? || s.EndTask? || s.Stop?
    ensures var w' := Apply(w, s);
            && w'.over == w.over && w'.freedOver == w.freedOver && w'.leftOver == w.leftOver
            && w'.completed == w.completed && w'.logic == w.logic && Hands(w, s) == []
  {
  }

  lemma OrderStep(w: World, s: Step, handed: seq<Task>)
    requires ShapeOk(w) && InOrder(w, handed) && Enabled(w, s)
    ensures InOrder(Apply(w, s), handed + Hands(w, s))
  {
    hide ShapeOk, Apply, Enabled;
    if !s.HandOver? {
      assert handed + Hands(w, s) == handed;
    }
    match s
    case HandOver(i) => OrderHandOver(w, i, handed);
    case FreeOver => OrderFree(w, handed);
    case BeginUpdate => OrderUpdate(w, s, handed);
    case RunOver => OrderUpdate(w, s, handed);
    case EndUpdate => OrderUpdate(w, s, handed);
    case Destroy => OrderEnd(w, handed);
    case _ => OrderOther(w, s);
  }

  lemma {:induction false} OrderRun(w: World, steps: seq<Step>, handed: seq<Task>)
    requires ShapeOk(w) && InOrder(w, handed)
    ensures ShapeOk(Exec(w, steps)) && InOrder(Exec(w, steps), handed + Handed(w, steps))
    decreases |steps|
  {
    hide ShapeOk, InOrder, Apply, Enabled, Hands;
    if steps == [] {
      assert handed + Handed(w, steps) == handed;
    } else {
      var s, w' := steps[0], Try(w, steps[0]);
      HandsEnabled(w, s);
      if Enabled(w, s) {
        ShapeStep(w, s);
        OrderStep(w, s, handed);
      } else {
        assert handed + Hands(w, s) == handed;
      }
      OrderRun(w', steps[1..], handed + Hands(w, s));
      Assoc(handed, Hands(w, s), Handed(w', steps[1..]));
    }
  }

  lemma HandsEnabled(w: World, s: Step)
    ensures Hands(w, s) != [] ==> Enabled(w, s)
  {
  }

  lemma OrderMeans(w: World, handed: seq<Task>)
    requires ShapeOk(w) && InOrder(w, handed)
    ensures w.completed <= handed && (w.logic.Outside? ==> w.completed + w.over + w.leftOver == handed)
  {
    if w.logic.AfterOver? {
      assert Waiting(w) == [w.over[w.logic.k]] + w.over[w.logic.k + 1..];
    }
  }

  /** In every run the second callbacks run in the order in which the tasks were handed over: those run so far
      are the first of those handed over, and outside `Update` exactly the ones in the list are to come. */
  lemma CompletedInOrder(n: nat, steps: seq<Step>)
    ensures var w, handed := Exec(Start(n), steps), Handed(Start(n), steps);
            && w.completed <= handed
            && (w.logic.Outside? ==> w.completed + w.over + w.leftOver == handed)
  {
    hide Exec, Handed;
    OrderRun(Start(n), steps, []);
    var handed := Handed(Start(n), steps);
    assert [] + handed == handed;
    OrderMeans(Exec(Start(n), steps), handed);
  }

  // ---------- one thread ----------

  /** The task a worker holds. */
  function Holds(at: Worker): seq<Task> { if at.Got? || at.InTask? || at.Done? then [at.task] else [] }

  /** The only worker has handed over what it has taken, but for what it holds. */
  predicate OneByOne(w: World, handed: seq<Task>) {
    |w.workers| == 1 && WithOver(w.taken) == handed + WithOver(Holds(w.workers[0]))
  }

  lemma OneFetch(w: World, i: nat, handed: seq<Task>)
    requires OneByOne(w, handed) && Enabled(w, Fetch(i))
    ensures OneByOne(Apply(w, Fetch(i)), handed)
  {
    var w' := Apply(w, Fetch(i));
    assert i == 0 && Holds(w.workers[0]) == [];
    if w.queued != [] {
      WithOverAppend(w.taken, [w.queued[0]]);
      assert w'.workers[0] == Got(w.queued[0]);
    }
  }

  lemma OneHandOver(w: World, i: nat, handed: seq<Task>)
    requires OneByOne(w, handed) && Enabled(w, HandOver(i))
    ensures OneByOne(Apply(w, HandOver(i)), handed + Hands(w, HandOver(i)))
  {
    var w' := Apply(w, HandOver(i));
    assert i == 0 && w'.workers[0] == Looping && w'.taken == w.taken;
    assert Hands(w, HandOver(i)) == WithOver([w.workers[0].task]);
  }

  /** Only some steps change what workers hold or have taken. */
  lemma OneOther(w: World, s: Step, i: nat)
    requires i < |w.workers| && Enabled(w, s) && !s.Fetch? && !s.HandOver?
    ensures var w' := Apply(w, s);
            |w'.workers| == |w.workers| && Holds(w'.workers[i]) == Holds(w.workers[i]) && w'.taken == w.taken
  {
  }

  lemma OneStep(w: World, s: Step, handed: seq<Task>)
    requires OneByOne(w, handed) && Enabled(w, s)
    ensures OneByOne(Apply(w, s), handed + Hands(w, s))
  {
    hide Apply, Enabled, WithOver, Holds;
    if !s.HandOver? {
      assert handed + Hands(w, s) == handed;
    }
    match s
    case Fetch(i) => OneFetch(w, i, handed);
    case HandOver(i) => OneHandOver(w, i, handed);
    case _ => OneOther(w, s, 0);
  }

  lemma {:induction false} OneRun(w: World, steps: seq<Step>, handed: seq<Task>)
    requires OneByOne(w, handed)
    ensures OneByOne(Exec(w, steps), handed + Handed(w, steps))
    decreases |steps|
  {
    hide OneByOne, Apply, Enabled, Hands;
    if steps == [] {
      assert handed + Handed(w, steps) == handed;
    } else {
      var s, w' := steps[0], Try(w, steps[0]);
      HandsEnabled(w, s);
      if Enabled(w, s) {
        OneStep(w, s, handed);
      } else {
        assert handed + Hands(w, s) == handed;
      }
      OneRun(w', steps[1..], handed + Hands(w, s));
      Assoc(handed, Hands(w, s), Handed(w', steps[1..]));
    }
  }

  /** With one thread the second callbacks run in the order in which the tasks were pushed. */
  lemma OneThreadInOrder(steps: seq<Step>)
    ensures Exec(Start(1), steps).completed <= WithOver(Numbered(0, Asked(Start(1), steps)))
  {
    var w, handed := Exec(Start(1), steps), Handed(Start(1), steps);
    CompletedInOrder(1, steps);
    OneRun(Start(1), steps, []);
    assert [] + handed == handed;
    FirstInFirstTaken(1, steps);
    WithOverAppend(w.taken, w.pushed[|w.taken|..]);
    assert w.taken + w.pushed[|w.taken|..] == w.pushed;
    PushedAsAsked(Start(1), steps);
    assert w.pushed == Numbered(0, Asked(Start(1), steps));
  }

  // ---------- nothing is left undone ----------

  /** What a pool does for its queue when worker `i` takes as many turns as there are tasks and `Update` is
      called then. */
  function Turns(w: World, i: nat, n: nat): World
    decreases n
  {
    if n == 0 then w else Turns(Turn(w, i), i, n - 1)
  }

  /** One turn of a free worker of a running pool runs the first task and hands it over or frees it. */
  lemma TurnExactly(w: World, i: nat)
    requires AtWork(w, i) && w.workers[i].Looping? && w.running && w.logic.Outside? && w.queued != []
    ensures var t := w.queued[0];
            Turn(w, i) == w.(queued := w.queued[1..], taken := w.taken + [t], started := w.started + [t],
                             finished := w.finished + [t], over := w.over + WithOver([t]),
                             freedPlain := w.freedPlain + WithoutOver([t]))
  {
    TurnCases(w, i);
    assert w.workers[i := Looping] == w.workers;
  }

  lemma {:induction false} TurnsExactly(w: World, i: nat)
    requires AtWork(w, i) && w.workers[i].Looping? && w.running && w.logic.Outside?
    ensures var q := w.queued;
            Turns(w, i, |q|) == w.(queued := [], taken := w.taken + q, started := w.started + q,
                                   finished := w.finished + q, over := w.over + WithOver(q),
                                   freedPlain := w.freedPlain + WithoutOver(q))
    decreases |w.queued|
  {
    hide Turn;
    if w.queued != [] {
      var t, rest := w.queued[0], w.queued[1..];
      assert w.queued == [t] + rest;
      TurnExactly(w, i);
      TurnsExactly(Turn(w, i), i);
      Assoc(w.taken, [t], rest);
      Assoc(w.started, [t], rest);
      Assoc(w.finished, [t], rest);
      Assoc(w.over, WithOver([t]), WithOver(rest));
      Assoc(w.freedPlain, WithoutOver([t]), WithoutOver(rest));
    }
  }

  /** Any free worker of a running pool gets through the whole queue, and an `Update` then completes it: all
      first callbacks have run, all second ones, and all of it is freed. */
  lemma QueueGetsDone(w: World, i: nat)
    requires AtWork(w, i) && w.workers[i].Looping? && w.running && w.logic.Outside?
    ensures var w', q := Turns(w, i, |w.queued|), w.queued;
            var r := Exec(w', UpdateSteps(|w'.over|));
            && r.queued == [] && r.over == [] && r.finished == w.finished + q
            && r.completed == w.completed + (w.over + WithOver(q)) && r.freedOver == w.freedOver + (w.over + WithOver(q))
            && r.freedPlain == w.freedPlain + WithoutOver(q)
  {
    TurnsExactly(w, i);
    UpdateIsRun(Turns(w, i, |w.queued|));
  }

  /** A worker that looks after `Release` has begun leaves its loop, and takes no further task. */
  lemma StoppedExits(w: World, i: nat)
    requires AtWork(w, i) && w.workers[i].Looping? && !w.running && w.logic.Outside?
    ensures Turn(w, i) == w.(workers := w.workers[i := Exited])
  {
    TurnCases(w, i);
  }

  /** Steps in pairs. */
  function Pair(w: World, a: Step, b: Step): World { Try(Try(w, a), b) }

  lemma ExecPair(w: World, a: Step, b: Step, rest: seq<Step>)
    ensures Exec(w, [a, b] + rest) == Exec(Pair(w, a, b), rest)
  {
    ExecTwo(w, a, b, rest);
  }

  /** A free worker takes the first task. */
  lemma Takes(w: World, i: nat)
    requires AtWork(w, i) && w.workers[i].Looping? && w.running && w.queued != []
    ensures Pair(w, LookRunning(i), Fetch(i))
              == w.(workers := w.workers[i := Got(w.queued[0])], queued := w.queued[1..], taken := w.taken + [w.queued[0]])
  {
    assert w.workers[i := Fetching][i := Got(w.queued[0])] == w.workers[i := Got(w.queued[0])];
  }

  lemma BothTake(a: Task, b: Task)
    requires a == Task(0, true) && b == Task(1, true)
    ensures var w := Pair(Pair(Pair(Start(2), Push(true), Push(true)), LookRunning(0), Fetch(0)), LookRunning(1), Fetch(1));
            w.workers == [Got(a), Got(b)] && w.logic.Outside? && !w.destroyed && w.over == [] && w.completed == []
  {
    var w1 := Pair(Start(2), Push(true), Push(true));
    assert w1 == Start(2).(queued := [a, b], pushed := [a, b]);
    hide Pair;
    Takes(w1, 0);
    Takes(Pair(w1, LookRunning(0), Fetch(0)), 1);
  }

  lemma SecondHandsOver(w: World, a: Task, b: Task)
    requires w.workers == [Got(a), Got(b)] && w.logic.Outside? && !w.destroyed && b.hasOver
    ensures Pair(Pair(w, StartTask(1), EndTask(1)), HandOver(1), StartTask(0))
              == w.(workers := [InTask(a), Looping], over := w.over + [b], started := w.started + [b] + [a],
                    finished := w.finished + [b])
  {
    var w1 := Pair(w, StartTask(1), EndTask(1));
    assert w1.workers == [Got(a), Done(b)];
    var w2 := Pair(w1, HandOver(1), StartTask(0));
    assert w2.workers == [InTask(a), Looping];
  }

  lemma FirstHandsOver(w: World, a: Task)
    requires w.workers == [InTask(a), Looping] && w.logic.Outside? && !w.destroyed && a.hasOver
    ensures var w' := Pair(w, EndTask(0), HandOver(0));
            w'.over == w.over + [a] && w'.completed == w.completed && w'.logic.Outside? && !w'.destroyed
  {
  }

  /** Two threads can complete tasks in another order than they were pushed in. */
  lemma OvertakingExample()
    ensures exists steps :: Exec(Start(2), steps).completed == [Task(1, true), Task(0, true)]
  {
    hide Exec, Pair, UpdateSteps;
    var a, b := Task(0, true), Task(1, true);
    BothTake(a, b);
    var w1 := Pair(Start(2), Push(true), Push(true));
    var w2 := Pair(w1, LookRunning(0), Fetch(0));
    var w3 := Pair(w2, LookRunning(1), Fetch(1));
    SecondHandsOver(w3, a, b);
    var w4 := Pair(w3, StartTask(1), EndTask(1));
    var w5 := Pair(w4, HandOver(1), StartTask(0));
    FirstHandsOver(w5, a);
    var w6 := Pair(w5, EndTask(0), HandOver(0));
    UpdateIsRun(w6);
    var s6 := [EndTask(0), HandOver(0)] + UpdateSteps(2);
    var s5 := [HandOver(1), StartTask(0)] + s6;
    var s4 := [StartTask(1), EndTask(1)] + s5;
    var s3 := [LookRunning(1), Fetch(1)] + s4;
    var s2 := [LookRunning(0), Fetch(0)] + s3;
    ExecPair(w5, EndTask(0), HandOver(0), UpdateSteps(2));
    ExecPair(w4, HandOver(1), StartTask(0), s6);
    ExecPair(w3, StartTask(1), EndTask(1), s5);
    ExecPair(w2, LookRunning(1), Fetch(1), s4);
    ExecPair(w1, LookRunning(0), Fetch(0), s3);
    ExecPair(Start(2), Push(true), Push(true), s2);
  }
}
