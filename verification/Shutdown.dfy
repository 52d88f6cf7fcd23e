/**
 The shutdown latch: an atomic flag plus a `Notify`. Every load, store, subscribe
 and notify is one step; any number of waiters and triggers are interleaved.

 `notified` counts `notify_waiters` calls. A `Notified` future remembers the count
 at its creation and is ready as soon as the count has moved on: it sees every call
 made after it was created and none made before.
 */
module Shutdown {
  // The body of `shutdown_signal`, followed for `await_shutdown_then_drain` by the
  // bounded drain of the task.
  datatype Stage =
    | Fresh
    | Checked
    | Subscribed(seen: nat)
    | Awaiting(seen: nat)
    | Signalled
    | Draining
    | Drained
    | TimedOut

  datatype TriggerStage = Stored | Notified

  datatype World = World(flag: bool, notified: nat, waiters: map<nat, Stage>, triggers: map<nat, TriggerStage>)

  datatype Event =
    | Call(a: nat)
    | FirstLoad(a: nat)
    | Subscribe(a: nat)
    | SecondLoad(a: nat)
    | Wake(a: nat)
    | StartDrain(a: nat)
    | TaskDone(a: nat)
    | WindowElapsed(a: nat)
    | Store(t: nat)
    | Notify(t: nat)

  predicate Waiting(w: World, a: nat) {
    a in w.waiters
  }

  predicate Enabled(w: World, e: Event) {
    match e
    case Call(a) => a !in w.waiters
    case FirstLoad(a) => Waiting(w, a) && w.waiters[a].Fresh?
    case Subscribe(a) => Waiting(w, a) && w.waiters[a].Checked?
    case SecondLoad(a) => Waiting(w, a) && w.waiters[a].Subscribed?
    case Wake(a) => Waiting(w, a) && w.waiters[a].Awaiting? && w.waiters[a].seen < w.notified
    case StartDrain(a) => Waiting(w, a) && w.waiters[a].Signalled?
    case TaskDone(a) => Waiting(w, a) && w.waiters[a].Draining?
    case WindowElapsed(a) => Waiting(w, a) && w.waiters[a].Draining?
    case Store(t) => t !in w.triggers
    case Notify(t) => t in w.triggers && w.triggers[t].Stored?
  }

  function Move(w: World, a: nat, stage: Stage): World {
    w.(waiters := w.waiters[a := stage])
  }

  function Apply(w: World, e: Event): World
    requires Enabled(w, e)
  {
    match e
    case Call(a) => Move(w, a, Fresh)
    case FirstLoad(a) => Move(w, a, if w.flag then Signalled else Checked)
    case Subscribe(a) => Move(w, a, Subscribed(w.notified))
    case SecondLoad(a) => Move(w, a, if w.flag then Signalled else Awaiting(w.waiters[a].seen))
    case Wake(a) => Move(w, a, Signalled)
    case StartDrain(a) => Move(w, a, Draining)
    case TaskDone(a) => Move(w, a, Drained)
    case WindowElapsed(a) => Move(w, a, TimedOut)
    case Store(t) => w.(flag := true, triggers := w.triggers[t := Stored])
    case Notify(t) => w.(notified := w.notified + 1, triggers := w.triggers[t := Notified])
  }

  predicate Admits(w: World, run: seq<Event>)
    decreases |run|
  {
    run == [] || (Enabled(w, run[0]) && Admits(Apply(w, run[0]), run[1..]))
  }

  function Exec(w: World, run: seq<Event>): World
    requires Admits(w, run)
    decreases |run|
  {
    if run == [] then w else Exec(Apply(w, run[0]), run[1..])
  }

  const Initial := World(false, 0, map[], map[])

  predicate Settled(stage: Stage) {
    stage.Signalled? || stage.Draining? || stage.Drained? || stage.TimedOut?
  }

  // Some trigger has set the flag and still owes its notification.
  ghost predicate NotifyPending(w: World) {
    exists t :: t in w.triggers && w.triggers[t].Stored?
  }

  ghost predicate WaiterOk(w: World, a: nat)
    requires Waiting(w, a)
  {
    var stage := w.waiters[a];
    && (stage.Subscribed? || stage.Awaiting? ==> stage.seen <= w.notified)
    && (stage.Awaiting? && stage.seen == w.notified && w.flag ==> NotifyPending(w))
    && (Settled(stage) ==> w.flag)
  }

  ghost predicate Inv(w: World) {
    && (!w.flag ==> w.notified == 0 && w.triggers == map[])
    && forall a <- w.waiters :: WaiterOk(w, a)
  }

  lemma StepKeepsWaiter(w: World, e: Event, a: nat)
    requires Inv(w) && Enabled(w, e) && Waiting(Apply(w, e), a)
    ensures WaiterOk(Apply(w, e), a)
  {
    var w' := Apply(w, e);
    if Waiting(w, a) {
      assert WaiterOk(w, a);
    }
    if e.Store? {
      assert e.t in w'.triggers && w'.triggers[e.t].Stored?;
    } else if !e.Notify? && NotifyPending(w) {
      var t :| t in w.triggers && w.triggers[t].Stored?;
      assert t in w'.triggers && w'.triggers[t].Stored?;
    }
  }

  lemma {:induction false} RunKeepsInv(w: World, run: seq<Event>)
    requires Inv(w) && Admits(w, run)
    ensures Inv(Exec(w, run)) && (w.flag ==> Exec(w, run).flag)
    decreases |run|
  {
    if run != [] {
      var w' := Apply(w, run[0]);
      forall a <- w'.waiters ensures WaiterOk(w', a) {
        StepKeepsWaiter(w, run[0], a);
      }
      RunKeepsInv(w', run[1..]);
    }
  }

  // No lost wake-up: once the flag is set and no trigger owes a notification, every
  // waiter that has reached its await can be woken.
  lemma NoLostWakeup(run: seq<Event>, a: nat)
    requires Admits(Initial, run)
    requires var w := Exec(Initial, run); w.flag && !NotifyPending(w) && Waiting(w, a) && w.waiters[a].Awaiting?
    ensures Enabled(Exec(Initial, run), Wake(a))
  {
    RunKeepsInv(Initial, run);
    assert WaiterOk(Exec(Initial, run), a);
  }

  // The converse: nobody returns from `shutdown_signal`, and so nobody starts or
  // overruns the drain window, before a trigger has set the flag.
  lemma NoEarlyReturn(run: seq<Event>, a: nat)
    requires Admits(Initial, run) && Waiting(Exec(Initial, run), a)
    ensures Settled(Exec(Initial, run).waiters[a]) ==> Exec(Initial, run).flag
  {
    RunKeepsInv(Initial, run);
    assert WaiterOk(Exec(Initial, run), a);
  }

  // A drain reports that its task finished exactly when the task did, and that it ran out
  // of time exactly when the window elapsed first.
  lemma DrainReportsWhatHappened(run: seq<Event>, a: nat)
    requires Admits(Initial, run)
    ensures var w := Exec(Initial, run);
            && (Waiting(w, a) && w.waiters[a].Drained? <==> TaskDone(a) in run)
            && (Waiting(w, a) && w.waiters[a].TimedOut? <==> WindowElapsed(a) in run)
  {
    RunReports(Initial, run, a);
  }

  lemma {:induction false} RunReports(w: World, run: seq<Event>, a: nat)
    requires Admits(w, run)
    ensures var w' := Exec(w, run);
            && (Waiting(w', a) && w'.waiters[a].Drained? <==>
                  (Waiting(w, a) && w.waiters[a].Drained?) || TaskDone(a) in run)
            && (Waiting(w', a) && w'.waiters[a].TimedOut? <==>
                  (Waiting(w, a) && w.waiters[a].TimedOut?) || WindowElapsed(a) in run)
    decreases |run|
  {
    if run != [] {
      RunReports(Apply(w, run[0]), run[1..], a);
      assert forall e :: e in run <==> e == run[0] || e in run[1..];
    }
  }

  // From then on every waiter is at most two of its own steps from returning.
  lemma WaiterReturns(run: seq<Event>, a: nat) returns (more: seq<Event>)
    requires Admits(Initial, run)
    requires var w := Exec(Initial, run); w.flag && !NotifyPending(w) && Waiting(w, a) && !Settled(w.waiters[a])
    ensures |more| <= 2 && (forall e <- more :: !e.Store? && !e.Notify? && e.a == a)
    ensures var w := Exec(Initial, run);
            Admits(w, more) && Waiting(Exec(w, more), a) && Exec(w, more).waiters[a].Signalled?
  {
    var w := Exec(Initial, run);
    match w.waiters[a]
    case Fresh => more := OneStep(w, FirstLoad(a));
    case Checked =>
      more := OneStep(Apply(w, Subscribe(a)), SecondLoad(a));
      var all := [Subscribe(a)] + more;
      assert all[1..] == more;
      more := all;
    case Subscribed(_) => more := OneStep(w, SecondLoad(a));
    case Awaiting(_) =>
      NoLostWakeup(run, a);
      more := OneStep(w, Wake(a));
  }

  lemma {:induction false} ExecAppend(w: World, run: seq<Event>, e: Event)
    requires Admits(w, run) && Enabled(Exec(w, run), e)
    ensures Admits(w, run + [e]) && Exec(w, run + [e]) == Apply(Exec(w, run), e)
    decreases |run|
  {
    hide Apply, Enabled;
    if run == [] {
      assert run + [e] == [e] && [e][1..] == [];
    } else {
      assert (run + [e])[1..] == run[1..] + [e];
      ExecAppend(Apply(w, run[0]), run[1..], e);
    }
  }

  // A caller that comes before the trigger: it awaits, is woken by the notification, and
  // its drain ends with its task or with the window.
  lemma WaitAndDrain(a: nat, t: nat, inTime: bool) returns (run: seq<Event>)
    ensures Admits(Initial, run)
    ensures Exec(Initial, run) ==
            World(true, 1, map[a := if inTime then Drained else TimedOut], map[t := Notified])
  {
    run := [];
    var i := 0;
    while i < 9
      invariant 0 <= i <= 9 && Admits(Initial, run) && Exec(Initial, run) == WaitState(a, t, inTime, i)
    {
      hide Apply, Enabled, WaitState, WaitEvent;
      WaitStep(a, t, inTime, i);
      ExecAppend(Initial, run, WaitEvent(a, t, inTime, i));
      run, i := run + [WaitEvent(a, t, inTime, i)], i + 1;
    }
  }

  function WaitEvent(a: nat, t: nat, inTime: bool, i: nat): Event {
    match i
    case 0 => Call(a)
    case 1 => FirstLoad(a)
    case 2 => Subscribe(a)
    case 3 => SecondLoad(a)
    case 4 => Store(t)
    case 5 => Notify(t)
    case 6 => Wake(a)
    case 7 => StartDrain(a)
    case _ => if inTime then TaskDone(a) else WindowElapsed(a)
  }

  // Where that run stands after `i` steps.
  function WaitState(a: nat, t: nat, inTime: bool, i: nat): World {
    var stage :=
      if i <= 1 then Fresh
      else if i == 2 then Checked
      else if i == 3 then Subscribed(0)
      else if i <= 6 then Awaiting(0)
      else if i == 7 then Signalled
      else if i == 8 then Draining
      else if inTime then Drained
      else TimedOut;
    World(i > 4, if i > 5 then 1 else 0, if i == 0 then map[] else map[a := stage],
          if i <= 4 then map[] else map[t := if i == 5 then Stored else Notified])
  }

  lemma WaitStep(a: nat, t: nat, inTime: bool, i: nat)
    requires i < 9
    ensures Enabled(WaitState(a, t, inTime, i), WaitEvent(a, t, inTime, i))
    ensures Apply(WaitState(a, t, inTime, i), WaitEvent(a, t, inTime, i)) == WaitState(a, t, inTime, i + 1)
  {
  }

  lemma OneStep(w: World, e: Event) returns (run: seq<Event>)
    requires Enabled(w, e)
    ensures run == [e] && Admits(w, run) && Exec(w, run) == Apply(w, e)
  {
    run := [e];
    assert run[1..] == [];
  }
}
