/** The pool of worker threads with its two locked lists: every interleaving of threads that push tasks,
    workers that run them, the logic thread that completes them, and the end of the pool. */
module AsyncWorld {
  import opened Bytes

  /** A task with its two callbacks; the second one may be missing. `id` counts the tasks pushed. */
  datatype Task = Task(id: nat, hasOver: bool)

  /** Where a worker is in its loop. */
  datatype Worker = Looping | Fetching | Got(task: Task) | InTask(task: Task) | Done(task: Task) | Exited

  /** Where the logic thread is: outside `Update`, or holding the lock of the list of completed tasks, about
      to run the completion callback of the task at `k`, or about to free it. */
  datatype Logic = Outside | AtTask(k: nat) | AfterOver(k: nat)

  /** History: tasks pushed and taken from the queue; callbacks started, finished and completions run; tasks
      freed by workers, by `Update` and by the destructor. */
  datatype World = World(
    queued: seq<Task>, over: seq<Task>, workers: seq<Worker>, logic: Logic, running: bool, destroyed: bool,
    pushed: seq<Task>, taken: seq<Task>, started: seq<Task>, finished: seq<Task>, completed: seq<Task>,
    freedPlain: seq<Task>, freedOver: seq<Task>, leftQueued: seq<Task>, leftOver: seq<Task>)

  /** The counter of the loop in `Init` after some turns; it has eight bits. */
  function Counter(turns: nat): nat { turns % 0x100 }

  /** `Init` gets to its end if and only if it is to start fewer than 256 threads. */
  lemma InitReturns(n: nat)
    ensures (exists turns: nat :: Counter(turns) >= n) <==> n < 0x100
  {
    if n < 0x100 {
      assert Counter(n) == n;
    }
  }

  /** The pool right after `Init` with `n` threads. */
  function Start(n: nat): World {
    World([], [], seq(n, _ => Looping), Outside, true, false, [], [], [], [], [], [], [], [], [])
  }

  datatype Step =
    | Push(hasOver: bool)
    // worker `i`
    | LookRunning(i: nat) | Fetch(i: nat) | StartTask(i: nat) | EndTask(i: nat) | HandOver(i: nat)
    // the logic thread
    | BeginUpdate | RunOver | FreeOver | EndUpdate | Stop | Destroy

  predicate AtWork(w: World, i: nat) { i < |w.workers| && !w.destroyed }

  predicate Enabled(w: World, s: Step) {
    match s
    case Push(_) => !w.destroyed
    case LookRunning(i) => AtWork(w, i) && w.workers[i].Looping?
    case Fetch(i) => AtWork(w, i) && w.workers[i].Fetching?
    case StartTask(i) => AtWork(w, i) && w.workers[i].Got?
    case EndTask(i) => AtWork(w, i) && w.workers[i].InTask?
    case HandOver(i) => AtWork(w, i) && w.workers[i].Done? && (w.workers[i].task.hasOver ==> w.logic.Outside?)
    case BeginUpdate => w.logic.Outside? && !w.destroyed
    case RunOver => w.logic.AtTask? && w.logic.k < |w.over|
    case FreeOver => w.logic.AfterOver? && w.logic.k < |w.over|
    case EndUpdate => w.logic.AtTask? && w.logic.k == |w.over|
    case Stop => w.logic.Outside? && !w.destroyed
    // the threads were joined
    case Destroy =>
      w.logic.Outside? && !w.running && !w.destroyed && forall i | 0 <= i < |w.workers| :: w.workers[i].Exited?
  }

  function Go(w: World, i: nat, at: Worker): World
    requires i < |w.workers|
  {
    w.(workers := w.workers[i := at])
  }

  function Apply(w: World, s: Step): World
    requires Enabled(w, s)
  {
    match s
    case Push(hasOver) =>
      var t := Task(|w.pushed|, hasOver);
      w.(queued := w.queued + [t], pushed := w.pushed + [t])
    case LookRunning(i) => Go(w, i, if w.running then Fetching else Exited)
    case Fetch(i) =>
      if w.queued == [] then Go(w, i, Looping)
      else Go(w, i, Got(w.queued[0])).(queued := w.queued[1..], taken := w.taken + [w.queued[0]])
    case StartTask(i) => Go(w, i, InTask(w.workers[i].task)).(started := w.started + [w.workers[i].task])
    case EndTask(i) => Go(w, i, Done(w.workers[i].task)).(finished := w.finished + [w.workers[i].task])
    case HandOver(i) =>
      var t := w.workers[i].task;
      if t.hasOver then Go(w, i, Looping).(over := w.over + [t])
      else Go(w, i, Looping).(freedPlain := w.freedPlain + [t])
    case BeginUpdate => w.(logic := AtTask(0))
    case RunOver => w.(completed := w.completed + [w.over[w.logic.k]], logic := AfterOver(w.logic.k))
    case FreeOver => w.(freedOver := w.freedOver + [w.over[w.logic.k]], logic := AtTask(w.logic.k + 1))
    case EndUpdate => w.(over := [], logic := Outside)
    case Stop => w.(running := false)
    case Destroy => w.(destroyed := true, queued := [], over := [], leftQueued := w.queued, leftOver := w.over)
  }

  /** A step, skipped where it is not possible. */
  function Try(w: World, s: Step): World { if Enabled(w, s) then Apply(w, s) else w }

  /** A run. */
  function Exec(w: World, steps: seq<Step>): World
    decreases |steps|
  {
    if steps == [] then w else Exec(Try(w, steps[0]), steps[1..])
  }

  // ---------- the invariant ----------

  datatype Stage = Before | During | Behind

  /** How often a task occurs in a list. */
  function Times(ts: seq<Task>, t: Task): nat { multiset(ts)[t] }

  lemma TimesAppend(a: seq<Task>, b: seq<Task>, t: Task)
    ensures Times(a + b, t) == Times(a, t) + Times(b, t)
  {
  }

  lemma TimesOne(u: Task, t: Task)
    ensures Times([u], t) == (if u == t then 1 else 0) && Times([], t) == 0
  {
  }

  lemma TimesLast(a: seq<Task>, u: Task, t: Task)
    ensures Times(a + [u], t) == Times(a, t) + (if u == t then 1 else 0)
  {
    TimesAppend(a, [u], t);
    TimesOne(u, t);
  }

  lemma TimesFirst(a: seq<Task>, t: Task)
    requires a != []
    ensures Times(a, t) == (if a[0] == t then 1 else 0) + Times(a[1..], t)
  {
    assert a == [a[0]] + a[1..];
    TimesAppend([a[0]], a[1..], t);
    TimesOne(a[0], t);
  }

  /** Whether a worker holds a task at a stage. */
  function One(at: Worker, s: Stage, t: Task): nat {
    match s
    case Before => if at.Got? && at.task == t then 1 else 0
    case During => if at.InTask? && at.task == t then 1 else 0
    case Behind => if at.Done? && at.task == t then 1 else 0
  }

  /** How many workers hold a task at a stage. */
  function Held(ws: seq<Worker>, s: Stage, t: Task): nat {
    if ws == [] then 0 else One(ws[0], s, t) + Held(ws[1..], s, t)
  }

  lemma {:induction false} HeldUpdate(ws: seq<Worker>, i: nat, at: Worker, s: Stage, t: Task)
    requires i < |ws|
    ensures Held(ws[i := at], s, t) + One(ws[i], s, t) == Held(ws, s, t) + One(at, s, t)
  {
    if i > 0 {
      HeldUpdate(ws[1..], i - 1, at, s, t);
      assert ws[i := at][1..] == ws[1..][i - 1 := at] && ws[i := at][0] == ws[0];
    } else {
      assert ws[i := at][1..] == ws[1..];
    }
  }

  lemma {:induction false} HeldNone(ws: seq<Worker>, s: Stage, t: Task)
    requires forall i | 0 <= i < |ws| :: !ws[i].Got? && !ws[i].InTask? && !ws[i].Done?
    ensures Held(ws, s, t) == 0
  {
    if ws != [] {
      HeldNone(ws[1..], s, t);
    }
  }

  /** The completed tasks not freed yet. */
  function Waiting(w: World): seq<Task> {
    if w.logic.Outside? || w.logic.k > |w.over| then w.over else w.over[w.logic.k..]
  }

  /** How often a task was freed, by whomever. */
  function Freed(w: World, t: Task): nat {
    Times(w.freedPlain, t) + Times(w.freedOver, t) + Times(w.leftQueued, t) + Times(w.leftOver, t)
  }

  /** Everything pushed is in one place for each time it was pushed. */
  predicate Placed(w: World, t: Task) {
    Times(w.pushed, t) ==
      Times(w.queued, t) + Held(w.workers, Before, t) + Held(w.workers, During, t) + Held(w.workers, Behind, t)
      + Times(Waiting(w), t) + Freed(w, t)
  }

  /** The first callback was started for what left the queue and a worker has begun on, it has finished for
      what a worker is through with, and the second one was run for what `Update` has freed or is about to
      free. */
  predicate CalledOk(w: World, t: Task) {
    var through := Held(w.workers, Behind, t) + Times(Waiting(w), t)
                   + Times(w.freedPlain, t) + Times(w.freedOver, t) + Times(w.leftOver, t);
    && Times(w.started, t) == Held(w.workers, During, t) + through
    && Times(w.finished, t) == through
    && Times(w.completed, t) == Times(w.freedOver, t) + CompletingNow(w, t)
  }

  function CompletingNow(w: World, t: Task): nat {
    if w.logic.AfterOver? && w.logic.k < |w.over| && w.over[w.logic.k] == t then 1 else 0
  }

  /** Only tasks with a second callback are handed over. */
  predicate KindOk(w: World) {
    && (forall u | u in w.over :: u.hasOver) && (forall u | u in w.freedOver :: u.hasOver)
    && (forall u | u in w.leftOver :: u.hasOver) && (forall u | u in w.freedPlain :: !u.hasOver)
  }

  predicate ShapeOk(w: World) {
    && (forall i | 0 <= i < |w.pushed| :: w.pushed[i].id == i)
    && (w.logic.AtTask? ==> w.logic.k <= |w.over|) && (w.logic.AfterOver? ==> w.logic.k < |w.over|)
    && w.taken + (if w.destroyed then w.leftQueued else w.queued) == w.pushed
    && (!w.destroyed ==> w.leftQueued == [] && w.leftOver == [])
    && (w.destroyed ==>
          && w.queued == [] && w.over == [] && w.logic.Outside?
          && forall i | 0 <= i < |w.workers| :: w.workers[i].Exited?)
  }

  /** What is kept of a task `t`, whichever it is. */
  predicate Inv(w: World, t: Task) {
    Placed(w, t) && CalledOk(w, t) && KindOk(w) && ShapeOk(w)
  }

  lemma KindStep(w: World, s: Step)
    requires ShapeOk(w) && KindOk(w) && Enabled(w, s)
    ensures KindOk(Apply(w, s))
  {
  }

  lemma ShapeStep(w: World, s: Step)
    requires ShapeOk(w) && Enabled(w, s)
    ensures ShapeOk(Apply(w, s))
  {
    match s
    case Push(hasOver) => Assoc(w.taken, w.queued, [Task(|w.pushed|, hasOver)]);
    case Fetch(i) =>
      if w.queued != [] {
        assert w.queued == [w.queued[0]] + w.queued[1..];
        Assoc(w.taken, [w.queued[0]], w.queued[1..]);
      }
    case _ =>
  }

  /** A step of worker `i` moves at most one task. */
  lemma WorkerMoves(w: World, i: nat, at: Worker, t: Task)
    requires i < |w.workers|
    ensures var ws := Go(w, i, at).workers;
            && Held(ws, Before, t) + One(w.workers[i], Before, t) == Held(w.workers, Before, t) + One(at, Before, t)
            && Held(ws, During, t) + One(w.workers[i], During, t) == Held(w.workers, During, t) + One(at, During, t)
            && Held(ws, Behind, t) + One(w.workers[i], Behind, t) == Held(w.workers, Behind, t) + One(at, Behind, t)
  {
    HeldUpdate(w.workers, i, at, Before, t);
    HeldUpdate(w.workers, i, at, During, t);
    HeldUpdate(w.workers, i, at, Behind, t);
  }

  /** Both counts of a task. */
  predicate CountsOk(w: World, t: Task) { Placed(w, t) && CalledOk(w, t) }

  lemma WorkerCounts(w: World, s: Step, t: Task)
    requires Inv(w, t) && Enabled(w, s) && (s.LookRunning? || s.Fetch? || s.StartTask? || s.EndTask?)
    ensures CountsOk(Apply(w, s), t)
  {
    hide Times, Held, KindOk, ShapeOk;
    var w' := Apply(w, s);
    WorkerMoves(w, s.i, w'.workers[s.i], t);
    assert Waiting(w') == Waiting(w);
    match s
    case Fetch(i) =>
      if w.queued != [] {
        TimesFirst(w.queued, t);
      }
    case StartTask(i) => TimesLast(w.started, w.workers[i].task, t);
    case EndTask(i) => TimesLast(w.finished, w.workers[i].task, t);
    case _ =>
  }

  lemma HandOverCounts(w: World, i: nat, t: Task)
    requires Inv(w, t) && Enabled(w, HandOver(i))
    ensures CountsOk(Apply(w, HandOver(i)), t)
  {
    hide Times, Held, KindOk, ShapeOk;
    WorkerMoves(w, i, Looping, t);
    TimesLast(w.over, w.workers[i].task, t);
    TimesLast(w.freedPlain, w.workers[i].task, t);
  }

  lemma OtherCounts(w: World, s: Step, t: Task)
    requires Inv(w, t) && Enabled(w, s) && (s.Push? || s.Stop? || s.Destroy?)
    ensures CountsOk(Apply(w, s), t)
  {
    hide Times, Held, KindOk;
    var w' := Apply(w, s);
    match s
    case Push(hasOver) =>
      TimesLast(w.queued, Task(|w.pushed|, hasOver), t);
      TimesLast(w.pushed, Task(|w.pushed|, hasOver), t);
    case Destroy => TimesOne(t, t);
    case _ =>
  }

  lemma UpdateCounts(w: World, s: Step, t: Task)
    requires Inv(w, t) && Enabled(w, s) && (s.BeginUpdate? || s.RunOver? || s.FreeOver? || s.EndUpdate?)
    ensures CountsOk(Apply(w, s), t)
  {
    hide Times, Held, KindOk;
    var w' := Apply(w, s);
    match s
    case BeginUpdate => assert Waiting(w') == w.over;
    case RunOver => TimesLast(w.completed, w.over[w.logic.k], t);
    case FreeOver =>
      TimesFirst(Waiting(w), t);
      TimesLast(w.freedOver, w.over[w.logic.k], t);
      assert Waiting(w') == Waiting(w)[1..];
    case EndUpdate => assert Waiting(w) == [];
    case _ =>
  }

  lemma CountStep(w: World, s: Step, t: Task)
    requires Inv(w, t) && Enabled(w, s)
    ensures CountsOk(Apply(w, s), t)
  {
    hide Inv, Apply, CountsOk;
    match s
    case LookRunning(i) => WorkerCounts(w, s, t);
    case Fetch(i) => WorkerCounts(w, s, t);
    case StartTask(i) => WorkerCounts(w, s, t);
    case EndTask(i) => WorkerCounts(w, s, t);
    case HandOver(i) => HandOverCounts(w, i, t);
    case BeginUpdate => UpdateCounts(w, s, t);
    case RunOver => UpdateCounts(w, s, t);
    case FreeOver => UpdateCounts(w, s, t);
    case EndUpdate => UpdateCounts(w, s, t);
    case _ => OtherCounts(w, s, t);
  }

  lemma InvStep(w: World, s: Step, t: Task)
    requires Inv(w, t) && Enabled(w, s)
    ensures Inv(Apply(w, s), t)
  {
    hide ShapeOk, KindOk, Placed, CalledOk, Apply;
    ShapeStep(w, s);
    KindStep(w, s);
    CountStep(w, s, t);
  }

  /** Every run keeps the invariant. */
  lemma {:induction false} RunsKeepInv(w: World, steps: seq<Step>, t: Task)
    requires Inv(w, t)
    ensures Inv(Exec(w, steps), t)
    decreases |steps|
  {
    hide Inv, Apply;
    if steps != [] {
      if Enabled(w, steps[0]) {
        InvStep(w, steps[0], t);
        RunsKeepInv(Apply(w, steps[0]), steps[1..], t);
      } else {
        RunsKeepInv(w, steps[1..], t);
      }
    }
  }

  lemma RunInv(n: nat, steps: seq<Step>, t: Task)
    ensures Inv(Exec(Start(n), steps), t)
  {
    HeldNone(Start(n).workers, Before, t);
    HeldNone(Start(n).workers, During, t);
    HeldNone(Start(n).workers, Behind, t);
    RunsKeepInv(Start(n), steps, t);
  }

  lemma {:induction false} PushedOnce(ts: seq<Task>, t: Task)
    requires forall i | 0 <= i < |ts| :: ts[i].id == i
    ensures Times(ts, t) == (if t in ts then 1 else 0)
  {
    if |ts| > 0 {
      var init := ts[..|ts| - 1];
      assert ts == init + [ts[|ts| - 1]];
      PushedOnce(init, t);
      TimesLast(init, ts[|ts| - 1], t);
    }
  }

  // ---------- what the invariant means ----------

  /** Exactly once: in every reachable state of a pool of `n` threads, a task pushed is in exactly one place
      (queued, with one worker, completed or freed), is freed at most once, its first callback is started
      and finished at most once and in this order, and its second one, if it has one, runs at most once
      and only after the first has finished. */
  lemma ExactlyOnce(n: nat, steps: seq<Step>, t: Task)
    ensures var w := Exec(Start(n), steps);
            && Times(w.queued, t) + Held(w.workers, Before, t) + Held(w.workers, During, t) + Held(w.workers, Behind, t)
               + Times(Waiting(w), t) + Freed(w, t) == (if t in w.pushed then 1 else 0)
            && Times(w.completed, t) <= Times(w.finished, t) <= Times(w.started, t) <= 1
            && (!t.hasOver ==> Times(w.completed, t) == 0)
  {
    RunInv(n, steps, t);
    var w := Exec(Start(n), steps);
    PushedOnce(w.pushed, t);
    if CompletingNow(w, t) == 1 {
      assert Waiting(w)[0] == t;
    }
  }

  /** What was freed before the end had its callbacks run to their end. */
  lemma FreedIsDone(n: nat, steps: seq<Step>, t: Task)
    ensures var w := Exec(Start(n), steps);
            t in w.freedPlain || t in w.freedOver ==> t in w.finished && (t.hasOver ==> t in w.completed)
  {
    RunInv(n, steps, t);
    var w := Exec(Start(n), steps);
    Present(w.freedPlain, t);
    Present(w.freedOver, t);
    Present(w.finished, t);
    Present(w.completed, t);
  }

  lemma Present(ts: seq<Task>, t: Task)
    ensures t in ts <==> Times(ts, t) > 0
  {
    assert t in ts <==> t in multiset(ts);
  }

  /** The destructor frees exactly what is left: afterwards every task ever pushed was freed exactly once,
      and a first callback that was started has finished. */
  lemma AllFreedAtTheEnd(n: nat, steps: seq<Step>, t: Task)
    ensures var w := Exec(Start(n), steps);
            w.destroyed ==> Freed(w, t) == (if t in w.pushed then 1 else 0) && Times(w.started, t) == Times(w.finished, t)
  {
    RunInv(n, steps, t);
    var w := Exec(Start(n), steps);
    PushedOnce(w.pushed, t);
    if w.destroyed {
      HeldNone(w.workers, Before, t);
      HeldNone(w.workers, During, t);
      HeldNone(w.workers, Behind, t);
    }
  }

  /** Tasks are taken in the order in which they were pushed. */
  lemma FirstInFirstTaken(n: nat, steps: seq<Step>)
    ensures var w := Exec(Start(n), steps); w.taken <= w.pushed
  {
    RunInv(n, steps, Task(0, false));
  }
}
