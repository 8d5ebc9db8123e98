/** The task pool as it runs. Each stretch of code that a lock or a single thread makes indivisible is a
    method that does one step of `AsyncWorld`; the loop of a worker and `Update`, when nothing interrupts
    them, do their steps in a row. */
module AsyncTasks {
  import opened Bytes
  import opened AsyncWorld

  /** The steps of one turn of worker `i`. */
  function Turn(w: World, i: nat): World {
    Try(Try(Try(Try(Try(w, LookRunning(i)), Fetch(i)), StartTask(i)), EndTask(i)), HandOver(i))
  }

  /** What a turn that nothing interrupts comes to. */
  lemma TurnCases(w: World, i: nat)
    requires Enabled(w, LookRunning(i)) && w.logic.Outside?
    ensures var w1 := Apply(w, LookRunning(i));
            if !w.running then Turn(w, i) == w1
            else
              && Enabled(w1, Fetch(i))
              && var w2 := Apply(w1, Fetch(i));
                 if w.queued == [] then Turn(w, i) == w2
                 else
                   && Enabled(w2, StartTask(i)) && Enabled(Apply(w2, StartTask(i)), EndTask(i))
                   && var w3 := Apply(Apply(w2, StartTask(i)), EndTask(i));
                      Enabled(w3, HandOver(i)) && Turn(w, i) == Apply(w3, HandOver(i))
  {
    var w1 := Apply(w, LookRunning(i));
    if w.running {
      var w2 := Apply(w1, Fetch(i));
      if w.queued != [] {
        var w3 := Apply(Apply(w2, StartTask(i)), EndTask(i));
        assert w3.workers[i] == Done(w.queued[0]);
      }
    }
  }

  /** The steps of `Update` for `n` completed tasks. */
  function Rounds(n: nat): seq<Step> { if n == 0 then [EndUpdate] else [RunOver, FreeOver] + Rounds(n - 1) }

  function UpdateSteps(n: nat): seq<Step> { [BeginUpdate] + Rounds(n) }

  /** What `Update` comes to: every completed task has its second callback run and is freed, in order. */
  function Updated(w: World): World {
    w.(completed := w.completed + w.over, freedOver := w.freedOver + w.over, over := [])
  }

  /** ... when the tasks before `k` have been dealt with already. */
  function Rest(w: World, k: nat): World
    requires k <= |w.over|
  {
    w.(completed := w.completed + w.over[k..], freedOver := w.freedOver + w.over[k..], over := [], logic := Outside)
  }

  lemma ExecTwo(w: World, a: Step, b: Step, rest: seq<Step>)
    ensures Exec(w, [a, b] + rest) == Exec(Try(Try(w, a), b), rest)
  {
    hide Enabled, Apply, Try;
    var steps := [a, b] + rest;
    assert steps[0] == a && steps[1..][0] == b && steps[1..][1..] == rest;
    assert Exec(w, steps) == Exec(Try(w, a), steps[1..]) by { ExecFirst(w, steps); }
    ExecFirst(Try(w, a), steps[1..]);
  }

  lemma ExecFirst(w: World, steps: seq<Step>)
    requires steps != []
    ensures Exec(w, steps) == Exec(Try(w, steps[0]), steps[1..])
  {
  }

  lemma RoundOnce(w: World, k: nat)
    requires k < |w.over| && w.logic == AtTask(k)
    ensures Try(Try(w, RunOver), FreeOver)
              == w.(completed := w.completed + [w.over[k]], freedOver := w.freedOver + [w.over[k]], logic := AtTask(k + 1))
  {
  }

  lemma {:induction false} RoundsRun(w: World, k: nat)
    requires k <= |w.over| && w.logic == AtTask(k)
    ensures Exec(w, Rounds(|w.over| - k)) == Rest(w, k)
    decreases |w.over| - k
  {
    if k == |w.over| {
      ExecFirst(w, [EndUpdate]);
      assert w.over[k..] == [];
    } else {
      hide Enabled, Apply, Try;
      var t := w.over[k];
      RoundOnce(w, k);
      var w' := Try(Try(w, RunOver), FreeOver);
      ExecTwo(w, RunOver, FreeOver, Rounds(|w.over| - k - 1));
      RoundsRun(w', k + 1);
      assert w.over[k..] == [t] + w.over[k + 1..];
      Assoc(w.completed, [t], w.over[k + 1..]);
      Assoc(w.freedOver, [t], w.over[k + 1..]);
    }
  }

  lemma UpdateIsRun(w: World)
    requires w.logic.Outside? && !w.destroyed
    ensures Exec(w, UpdateSteps(|w.over|)) == Updated(w)
  {
    assert UpdateSteps(|w.over|)[1..] == Rounds(|w.over|);
    ExecFirst(w, UpdateSteps(|w.over|));
    RoundsRun(w.(logic := AtTask(0)), 0);
    assert w.over[0..] == w.over;
  }

  lemma EndOf(w: World)
    requires Enabled(w, Destroy)
    ensures Apply(w, Destroy) == w.(destroyed := true, queued := [], over := [], leftQueued := w.queued, leftOver := w.over)
  {
  }

  class AsyncTask {
    var lstTask: seq<Task>
    var lstOver: seq<Task>
    var running: bool
    // stands for the address the next task object gets
    var nextId: nat
    // where the threads are, and the history
    ghost var workers: seq<Worker>
    ghost var destroyed: bool
    ghost var pushed: seq<Task>
    ghost var taken: seq<Task>
    ghost var started: seq<Task>
    ghost var finished: seq<Task>
    ghost var completed: seq<Task>
    ghost var freedPlain: seq<Task>
    ghost var freedOver: seq<Task>
    ghost var leftQueued: seq<Task>
    ghost var leftOver: seq<Task>

    ghost predicate Valid()
      reads this
    {
      nextId == |pushed|
    }

    /** The pool as the state machine sees it while the logic thread is outside `Update`. */
    ghost function State(): World
      reads this
    {
      World(lstTask, lstOver, workers, Outside, running, destroyed, pushed, taken, started, finished, completed,
            freedPlain, freedOver, leftQueued, leftOver)
    }

    constructor Init(n: nat)
      ensures Valid() && State() == Start(n)
    {
      lstTask, lstOver, running, nextId := [], [], true, 0;
      workers, destroyed := seq(n, _ => Looping), false;
      pushed, taken, started, finished, completed := [], [], [], [], [];
      freedPlain, freedOver, leftQueued, leftOver := [], [], [], [];
    }

    method PushTask(hasOver: bool)
      requires Valid() && !destroyed
      modifies this
      ensures Valid() && State() == Apply(old(State()), Push(hasOver))
    {
      var t := Task(nextId, hasOver);
      nextId := nextId + 1;
      lstTask := lstTask + [t];
      pushed := pushed + [t];
    }

    /** The loop condition of worker `i`. */
    method Go(i: nat) returns (again: bool)
      requires Valid() && Enabled(State(), LookRunning(i))
      modifies `workers
      ensures Valid() && State() == Apply(old(State()), LookRunning(i)) && again == running
    {
      again := running;
      workers := workers[i := if running then Fetching else Exited];
    }

    /** The section of worker `i` under the lock of the queue. */
    method TakeTask(i: nat) returns (t: Option<Task>)
      requires Valid() && Enabled(State(), Fetch(i))
      modifies `lstTask, `workers, `taken
      ensures Valid() && State() == Apply(old(State()), Fetch(i))
      ensures workers[i] == (if t.None? then Looping else Got(t.value))
    {
      t := None;
      workers := workers[i := Looping];
      if lstTask != [] {
        t := Some(lstTask[0]);
        lstTask := lstTask[1..];
        workers, taken := workers[i := Got(t.value)], taken + [t.value];
      }
    }

    /** The first callback: it starts and it ends. */
    method RunTask(i: nat, t: Task)
      requires Valid() && !destroyed && i < |workers| && workers[i] == Got(t)
      modifies `workers, `started, `finished
      ensures Valid() && State() == Apply(Apply(old(State()), StartTask(i)), EndTask(i))
    {
      workers, started := workers[i := InTask(t)], started + [t];
      workers, finished := workers[i := Done(t)], finished + [t];
    }

    /** A task with a second callback is handed over under the lock of the other list, one without is freed. */
    method HandOverTask(i: nat, t: Task)
      requires Valid() && !destroyed && i < |workers| && workers[i] == Done(t)
      modifies `lstOver, `workers, `freedPlain
      ensures Valid() && State() == Apply(old(State()), HandOver(i))
    {
      if t.hasOver {
        lstOver := lstOver + [t];
      } else {
        freedPlain := freedPlain + [t];
      }
      workers := workers[i := Looping];
    }

    /** One turn of the loop of worker `i`. */
    method WorkerTurn(i: nat) returns (again: bool)
      requires Valid() && Enabled(State(), LookRunning(i))
      modifies this
      ensures Valid() && State() == Turn(old(State()), i) && again == running
    {
      hide Turn, Try;
      TurnCases(State(), i);
      again := Go(i);
      if again {
        var t := TakeTask(i);
        if t.Some? {
          RunTask(i, t.value);
          HandOverTask(i, t.value);
        }
      }
    }

    /** `Update`. */
    method Update()
      requires Valid() && !destroyed
      modifies `lstOver, `completed, `freedOver
      ensures Valid() && State() == Exec(old(State()), UpdateSteps(|old(lstOver)|))
    {
      UpdateIsRun(State());
      if lstOver != [] {
        ghost var c, f := completed, freedOver;
        for k := 0 to |lstOver|
          invariant completed == c + lstOver[..k] && freedOver == f + lstOver[..k]
          modifies `completed, `freedOver
        {
          assert lstOver[..k + 1] == lstOver[..k] + [lstOver[k]];
          Assoc(c, lstOver[..k], [lstOver[k]]);
          Assoc(f, lstOver[..k], [lstOver[k]]);
          // the second callback runs, then the task is freed
          completed := completed + [lstOver[k]];
          freedOver := freedOver + [lstOver[k]];
        }
        assert lstOver[..|lstOver|] == lstOver;
        lstOver := [];
      }
    }

    /** `Release` up to the joining of the threads. */
    method Release()
      requires Valid() && !destroyed
      modifies `running
      ensures Valid() && State() == Apply(old(State()), Stop)
    {
      running := false;
    }

    /** The destructor, once the threads were joined. */
    method Destroy()
      requires Valid() && Enabled(State(), Step.Destroy)
      modifies `lstTask, `lstOver, `leftQueued, `leftOver, `destroyed
      ensures Valid() && State() == Apply(old(State()), Step.Destroy)
    {
      EndOf(State());
      hide Enabled, Apply;
      leftQueued := FreeAll(lstTask);
      leftOver := FreeAll(lstOver);
      lstTask, lstOver := [], [];
      destroyed := true;
    }

    /** Every task of a list is freed. */
    method FreeAll(ts: seq<Task>) returns (ghost freed: seq<Task>)
      ensures freed == ts
    {
      freed := [];
      for k := 0 to |ts|
        invariant freed == ts[..k]
      {
        freed := freed + [ts[k]];
      }
    }
  }
}
