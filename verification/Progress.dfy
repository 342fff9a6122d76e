/** A drain always has a step to take and takes only so many: the barrier neither blocks for ever nor loops. */
module Progress {
  import opened Queue
  import opened Delivery
  import opened Worker
  import opened Exclusion

  /** Steps of the draining loop and its goroutines, as opposed to those of their environment. */
  predicate OfDrain(l: Label) {
    match l
    case Acquire | Spawn | Reply(_, _) | Note(_, _) | Write(_, _, _) | Release(_) | Fill => true
    case _ => false
  }

  function StepsLeft(k: Task): nat {
    match k.stage
    case Ready => 4
    case Replied(_) => 3
    case Noted(_) => 2
    case Written => 1
  }

  function TaskSteps(tasks: map<nat, Task>, below: nat): nat {
    if below == 0 then 0
    else TaskSteps(tasks, below - 1) + if below - 1 in tasks then StepsLeft(tasks[below - 1]) else 0
  }

  function LoopSteps(s: State): int {
    match s.phase
    case Idle(_) => 0
    case Acquiring(rest) => 6 * |rest| + Cap(s)
    case Holding(rest) => 6 * |rest| - 1 + Cap(s)
    case Filling(n) => Cap(s) - n
  }

  /** An upper bound on the drain steps still to come. */
  function Remaining(s: State): int {
    LoopSteps(s) + TaskSteps(s.tasks, s.nextTask)
  }

  lemma {:induction false} TaskStepsChange(a: map<nat, Task>, b: map<nat, Task>, t: nat, below: nat)
    requires forall u :: u < below && u != t ==> (u in a <==> u in b) && (u in a ==> a[u] == b[u])
    ensures TaskSteps(b, below) == TaskSteps(a, below) +
      if t < below then (if t in b then StepsLeft(b[t]) else 0) - (if t in a then StepsLeft(a[t]) else 0) else 0
    decreases below
  {
    if below > 0 {
      TaskStepsChange(a, b, t, below - 1);
    }
  }

  lemma {:induction false} TaskStepsEmpty(below: nat)
    ensures TaskSteps(map[], below) == 0
    decreases below
  {
    if below > 0 {
      TaskStepsEmpty(below - 1);
    }
  }

  lemma RemainingNonNegative(s: State)
    requires Sound(s) && Accounted(s)
    ensures Remaining(s) >= 0
    ensures s.phase.Acquiring? || s.phase.Holding? || s.phase.Filling? ==> Remaining(s) > 0
  {
  }

  lemma TaskConsumes(s: State, t: nat, stage: Stage)
    requires Accounted(s) && t in s.tasks
    requires StepsLeft(s.tasks[t].(stage := stage)) < StepsLeft(s.tasks[t])
    ensures TaskSteps(Advance(s, t, stage), s.nextTask) < TaskSteps(s.tasks, s.nextTask)
  {
    TaskStepsChange(s.tasks, Advance(s, t, stage), t, s.nextTask);
  }

  /** Every drain step uses up at least one of the steps remaining. */
  lemma StepConsumes(s: State, l: Label)
    requires Sound(s) && Accounted(s) && Enabled(s, l) && OfDrain(l)
    ensures Remaining(Next(s, l)) <= Remaining(s) - 1
  {
    match l
    case Acquire =>
    case Fill =>
    case Spawn => TaskStepsChange(s.tasks, Spawning(s).tasks, s.nextTask, s.nextTask);
    case Reply(t, wire) => TaskConsumes(s, t, Replied(wire));
    case Note(t, _) => TaskConsumes(s, t, Noted(s.tasks[t].stage.wire));
    case Write(t, _, _) => TaskConsumes(s, t, Written);
    case Release(t) => TaskStepsChange(s.tasks, s.tasks - {t}, t, s.nextTask);
  }

  /** What sessions do meanwhile does not prolong a drain. */
  lemma SessionsAreFree(s: State, l: Label)
    requires Sound(s) && Enabled(s, l) && (l.Arrive? || l.Inline?)
    ensures Remaining(Next(s, l)) == Remaining(s)
  {
  }

  /** A drain in progress can always take a step: some goroutine can if the loop cannot. */
  lemma NeverStuck(s: State) returns (l: Label)
    requires Inv(s) && !s.cancelled && !s.phase.Idle?
    ensures OfDrain(l) && Enabled(s, l)
  {
    if s.phase.Holding? {
      l := Spawn;
    } else if s.tokens < Cap(s) {
      l := if s.phase.Acquiring? then Acquire else Fill;
    } else {
      assert |Current(s)| > 0;
      var t := Member(Current(s));
      var k := s.tasks[t];
      l := match k.stage
        case Ready => if k.job.route in s.settings.routes then Reply(t, TransportError("")) else Write(t, 0, true)
        case Replied(_) => Note(t, true)
        case Noted(_) => Write(t, 0, true)
        case Written => Release(t);
    }
  }

  predicate DuringDrain(l: Label) {
    OfDrain(l) || l.Arrive? || l.Inline?
  }

  function DrainSteps(ls: seq<Label>): nat {
    if ls == [] then 0 else (if OfDrain(ls[0]) then 1 else 0) + DrainSteps(ls[1..])
  }

  /** However the loop, its goroutines and arrivals interleave, a drain ends within the bound. */
  lemma {:induction false} DrainIsBounded(s: State, ls: seq<Label>)
    requires Inv(s) && Runnable(s, ls) && forall i :: 0 <= i < |ls| ==> DuringDrain(ls[i])
    ensures DrainSteps(ls) + Remaining(After(s, ls)) <= Remaining(s)
    ensures Remaining(After(s, ls)) >= 0
    decreases ls
  {
    if ls == [] {
      RemainingNonNegative(s);
    } else {
      InvStep(s, ls[0]);
      if OfDrain(ls[0]) { StepConsumes(s, ls[0]); } else { SessionsAreFree(s, ls[0]); }
      DrainIsBounded(Next(s, ls[0]), ls[1..]);
    }
  }

  /** From any point of a drain, some continuation of at most `Remaining` steps completes it with nothing in flight. */
  lemma DrainCanFinish(s: State) returns (ls: seq<Label>)
    requires Inv(s) && !s.cancelled
    ensures Runnable(s, ls) && |ls| <= Remaining(s) && forall i :: 0 <= i < |ls| ==> OfDrain(ls[i])
    ensures After(s, ls).phase.Idle? && After(s, ls).tasks == map[]
    decreases Remaining(s)
  {
    RemainingNonNegative(s);
    if s.phase.Idle? {
      ls := [];
    } else {
      var l := NeverStuck(s);
      StepConsumes(s, l);
      InvStep(s, l);
      RemainingNonNegative(Next(s, l));
      var rest := DrainCanFinish(Next(s, l));
      ls := [l] + rest;
      assert ls[1..] == rest;
    }
  }
}
