/**
 What a run of the readiness protocol leaves of a shard, told by its steps alone:
 which reasons it holds, how far its life has come and whether its gate is open
 (src/admin/admin_state.cc).
 */
module ReadinessRuns {
  import opened Units
  import opened AdminState
  import opened ReadinessProtocol

  // ----- the reasons held -----

  /** Reason b was reported on shard k and has not been released since. */
  ghost predicate Outstanding(steps: seq<Step>, k: nat, b: nat) {
    exists j :: 0 <= j < |steps| && steps[j] == Report(k, b, true) && NotReleased(steps[j + 1..], k, b)
  }

  ghost predicate NotReleased(steps: seq<Step>, k: nat, b: nat) {
    Report(k, b, false) !in steps
  }

  /** The shard a step changes, if it changes any. */
  ghost function Whom(step: Step): nat {
    match step
    case Report(i, _, _) => i
    case AnswerStatement(i, _) => i
    case DeliverBroadcast(_, i) => i
    case DeliverSettled(_, i) => i
    case DeliverDrain(i) => i
    case Observe(i) => i
    case Stop(i) => i
    case _ => 0
  }

  /** And what becomes of it. */
  ghost function Became(s: System, step: Step): Shard
    requires Shape(s) && Enabled(s, step)
  {
    var sh := s.shards[Whom(step)];
    match step
    case Report(i, reason, hold) => sh.Reported(i, reason, hold).0
    case AnswerStatement(i, c) => sh.Answered(i, s.calls[i][c].st.sequence).0
    case DeliverBroadcast(f, _) => sh.Heard(s.flights[f].update)
    case DeliverSettled(o, _) => sh.Heard(s.starts[o].settled).MarkedStarted()
    case BeginShutdown => sh.ShuttingDown()
    case DeliverDrain(_) => sh.ShuttingDown()
    case Observe(_) => sh.(observed := Some((sh.Ready(), sh.view)))
    case Stop(_) => sh.StoppedNow()
    case _ => sh
  }

  lemma StepChanges(s: System, step: Step)
    requires Shape(s) && Enabled(s, step)
    ensures Do(s, step).shards == s.shards[Whom(step) := Became(s, step)]
  {
    match step
    case Report(_, _, _) =>
    case AnswerStatement(_, _) =>
    case DeliverBroadcast(_, _) =>
    case DeliverSettled(_, _) =>
    case BeginShutdown =>
    case DeliverDrain(_) =>
    case Observe(_) =>
    case Stop(_) =>
    case _ => ShardsKept(s, step);
  }

  /** One step: a report of the reason decides, and any other step leaves it. */
  lemma StepHeld(s: System, step: Step, k: nat, b: nat)
    requires Shape(s) && Enabled(s, step) && k < |s.shards|
    ensures |Do(s, step).shards| == |s.shards|
    ensures b in Do(s, step).shards[k].held <==>
      step == Report(k, b, true) || (b in s.shards[k].held && step != Report(k, b, false))
  {
    StepChanges(s, step);
  }

  /** A step before a run. */
  lemma OutstandingStep(steps: seq<Step>, k: nat, b: nat)
    requires steps != []
    ensures Outstanding(steps, k, b) <==>
      Outstanding(steps[1..], k, b) || (steps[0] == Report(k, b, true) && NotReleased(steps[1..], k, b))
  {
    var rest := steps[1..];
    if j :| 0 <= j < |steps| && steps[j] == Report(k, b, true) && NotReleased(steps[j + 1..], k, b) {
      if j > 0 {
        assert rest[j - 1] == steps[j] && rest[j - 1 + 1..] == steps[j + 1..];
      }
    }
    if j :| 0 <= j < |rest| && rest[j] == Report(k, b, true) && NotReleased(rest[j + 1..], k, b) {
      assert steps[j + 1] == rest[j] && steps[j + 1 + 1..] == rest[j + 1..];
    }
  }

  lemma {:induction false} RunHeld(s: System, steps: seq<Step>, k: nat, b: nat)
    requires Shape(s) && Runs(s, steps) && k < |s.shards|
    ensures |Exec(s, steps).shards| == |s.shards|
    ensures b in Exec(s, steps).shards[k].held <==>
      Outstanding(steps, k, b) || (b in s.shards[k].held && NotReleased(steps, k, b))
    decreases |steps|
  {
    if steps != [] {
      var s1, rest := Do(s, steps[0]), steps[1..];
      StepHeld(s, steps[0], k, b);
      RunHeld(s1, rest, k, b);
      OutstandingStep(steps, k, b);
      assert steps == [steps[0]] + rest;
    }
  }

  lemma ShardsStay(s: System, steps: seq<Step>)
    requires Shape(s) && Runs(s, steps)
    ensures |Exec(s, steps).shards| == |s.shards|
  {
    RunHeld(s, steps, 0, 0);
  }

  /** In every reachable state a shard holds exactly the reasons reported on it and not released since. */
  lemma HeldExactly(n: nat, steps: seq<Step>, k: nat, b: nat)
    requires n > 0 && Runs(Init(n), steps) && k < n
    ensures |Exec(Init(n), steps).shards| == n
    ensures b in Exec(Init(n), steps).shards[k].held <==> Outstanding(steps, k, b)
  {
    RunHeld(Init(n), steps, k, b);
  }

  // ----- how far a shard's life has come -----

  ghost function Rank(l: Lifecycle): nat {
    match l case Live => 0 case Started => 1 case Draining => 2 case Stopped => 3
  }

  /** How far a step takes shard i, if it is not further already. */
  ghost function Calls(step: Step, i: nat): nat {
    if step == Stop(i) then 3
    else if step == DeliverDrain(i) || (step == BeginShutdown && i == 0) then 2
    else if step.DeliverSettled? && step.shard == i then 1
    else 0
  }

  /** This far, and the gate as it was unless the shard stopped. */
  ghost predicate Came(sh: Shard, calls: nat, sh': Shard) {
    Rank(sh'.lifecycle) == Max(Rank(sh.lifecycle), calls) && (sh'.closed <==> sh.closed || calls == 3)
  }

  lemma NotCalled(step: Step, i: nat)
    requires i != Whom(step)
    ensures Calls(step, i) == 0
  {
  }

  lemma BecameIs(s: System, step: Step)
    requires Shape(s) && Enabled(s, step)
    ensures Came(s.shards[Whom(step)], Calls(step, Whom(step)), Became(s, step))
  {
  }

  lemma StepLifecycle(s: System, step: Step, i: nat)
    requires Shape(s) && Enabled(s, step) && i < |s.shards|
    ensures |Do(s, step).shards| == |s.shards|
    ensures Came(s.shards[i], Calls(step, i), Do(s, step).shards[i])
  {
    StepChanges(s, step);
    if i == Whom(step) {
      BecameIs(s, step);
    } else {
      NotCalled(step, i);
    }
  }

  /** How far the steps take shard i: as far as any one of them does. */
  ghost function Furthest(steps: seq<Step>, i: nat): (r: nat)
    ensures forall j :: 0 <= j < |steps| ==> Calls(steps[j], i) <= r
    ensures r == 0 || exists j :: 0 <= j < |steps| && Calls(steps[j], i) == r
  {
    if steps == [] then 0
    else
      var first, rest := Calls(steps[0], i), Furthest(steps[1..], i);
      assert forall j :: 0 < j < |steps| ==> steps[j] == steps[1..][j - 1];
      assert forall j :: 0 <= j < |steps[1..]| ==> steps[1..][j] == steps[j + 1];
      Max(first, rest)
  }

  lemma {:induction false} RunLifecycle(s: System, steps: seq<Step>, i: nat)
    requires Shape(s) && Runs(s, steps) && i < |s.shards|
    ensures |Exec(s, steps).shards| == |s.shards|
    ensures Came(s.shards[i], Furthest(steps, i), Exec(s, steps).shards[i])
    decreases |steps|
  {
    if steps != [] {
      StepLifecycle(s, steps[0], i);
      RunLifecycle(Do(s, steps[0]), steps[1..], i);
    }
  }

  /** A start has handed shard i its set. */
  ghost predicate HandedStart(steps: seq<Step>, i: nat) {
    exists j :: 0 <= j < |steps| && steps[j].DeliverSettled? && steps[j].shard == i
  }

  /** Shard i has heard a shutdown; shard 0 hears it as it begins. */
  ghost predicate HeardShutdown(steps: seq<Step>, i: nat) {
    DeliverDrain(i) in steps || (i == 0 && BeginShutdown in steps)
  }

  /** The stage the steps call for: the last of those any of them does. */
  ghost function Stage(steps: seq<Step>, i: nat): Lifecycle {
    if Stop(i) in steps then Stopped
    else if HeardShutdown(steps, i) then Draining
    else if HandedStart(steps, i) then Started
    else Live
  }

  lemma FurthestStage(steps: seq<Step>, i: nat)
    ensures Furthest(steps, i) == Rank(Stage(steps, i))
  {
    var r := Furthest(steps, i);
    if r > 0 {
      var j :| 0 <= j < |steps| && Calls(steps[j], i) == r;
      assert steps[j] in steps;
    }
  }

  /** In every reachable state a shard is in the last stage any step has called for, whatever order the steps came
      in, and its gate is closed exactly once it has stopped. */
  lemma LifecycleExactly(n: nat, steps: seq<Step>, i: nat)
    requires n > 0 && Runs(Init(n), steps) && i < n
    ensures |Exec(Init(n), steps).shards| == n
    ensures var sh := Exec(Init(n), steps).shards[i];
      sh.lifecycle == Stage(steps, i) && (sh.closed <==> Stop(i) in steps)
  {
    RunLifecycle(Init(n), steps, i);
    FurthestStage(steps, i);
  }

  // ----- what a start has handed out -----

  /** Start o has handed shard i its set. */
  ghost predicate HandedBy(s: System, o: nat, i: nat) {
    o < |s.starts| && s.starts[o].Handing? && i !in s.starts[o].pending
  }

  lemma StartsStay(s: System, step: Step)
    requires Shape(s) && Enabled(s, step)
    requires !step.BeginStart? && !step.Sample? && !step.Settle? && !step.DeliverSettled?
    ensures Do(s, step).starts == s.starts
  {
  }

  lemma StepHands(s: System, step: Step, o: nat, i: nat)
    requires Shape(s) && Enabled(s, step) && i < |s.shards|
    ensures |Do(s, step).starts| == |s.starts| + if step.BeginStart? then 1 else 0
    ensures HandedBy(Do(s, step), o, i) <==> step == DeliverSettled(o, i) || HandedBy(s, o, i)
  {
    if !step.BeginStart? && !step.Sample? && !step.Settle? && !step.DeliverSettled? {
      StartsStay(s, step);
    }
  }

  lemma {:induction false} RunHands(s: System, steps: seq<Step>, o: nat, i: nat)
    requires Shape(s) && Runs(s, steps) && i < |s.shards|
    ensures HandedBy(Exec(s, steps), o, i) <==> DeliverSettled(o, i) in steps || HandedBy(s, o, i)
    ensures |Exec(s, steps).starts| >= |s.starts|
    ensures |Exec(s, steps).starts| > |s.starts| <==> BeginStart in steps
    decreases |steps|
  {
    if steps != [] {
      StepHands(s, steps[0], o, i);
      StepHeld(s, steps[0], i, 0);
      RunHands(Do(s, steps[0]), steps[1..], o, i);
      assert steps == [steps[0]] + steps[1..];
    }
  }

  // ----- a stopped shard sends nothing -----

  lemma StepSendsNothing(s: System, step: Step, k: nat)
    requires Shape(s) && Enabled(s, step) && k < |s.shards| && s.shards[k].closed
    ensures |Do(s, step).calls| == |s.calls| && |Do(s, step).calls[k]| <= |s.calls[k]|
    ensures k == 0 ==> |Do(s, step).flights| <= |s.flights|
  {
  }

  /** Once its gate is closed a shard sends no statement, and the owner's shard no broadcast: what was in flight can
      only come to its end. */
  lemma {:induction false} StoppedSendsNothing(s: System, steps: seq<Step>, k: nat)
    requires Shape(s) && Runs(s, steps) && k < |s.shards| && s.shards[k].closed
    ensures |Exec(s, steps).calls| == |s.calls| && |Exec(s, steps).calls[k]| <= |s.calls[k]|
    ensures k == 0 ==> |Exec(s, steps).flights| <= |s.flights|
    decreases |steps|
  {
    if steps != [] {
      StepSendsNothing(s, steps[0], k);
      StepLifecycle(s, steps[0], k);
      StoppedSendsNothing(Do(s, steps[0]), steps[1..], k);
    }
  }
}
