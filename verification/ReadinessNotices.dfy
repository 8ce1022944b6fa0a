/**
 What the observer of a shard is told (src/admin/admin_state.cc).
 */
module ReadinessNotices {
  import opened Units
  import opened Readiness
  import opened AdminState
  import opened ReadinessProtocol
  import opened ReadinessRuns

  ghost function Current(sh: Shard): (bool, Reasons) {
    (sh.Ready(), sh.view)
  }

  /** The states a shard goes through in a step: one, or two where a start's set and its mark arrive together. */
  ghost function Passed(s: System, step: Step, i: nat): seq<Shard>
    requires Shape(s) && Enabled(s, step) && i < |s.shards| == |Do(s, step).shards|
  {
    if step.DeliverSettled? && step.shard == i then
      [s.shards[i].Heard(s.starts[step.start].settled), Do(s, step).shards[i]]
    else [Do(s, step).shards[i]]
  }

  /** The states it goes through in a run. */
  ghost function Path(s: System, steps: seq<Step>, i: nat): seq<Shard>
    requires Shape(s) && Runs(s, steps) && i < |s.shards|
    decreases |steps|
  {
    if steps == [] then []
    else
      ShardsRemain(s, steps[0]);
      Passed(s, steps[0], i) + Path(Do(s, steps[0]), steps[1..], i)
  }

  /** What an observer should be told who has seen `was`: each state that differs from the one before. */
  ghost function Changes(was: (bool, Reasons), path: seq<Shard>): seq<(bool, Reasons)>
    decreases |path|
  {
    if path == [] then []
    else if Current(path[0]) == was then Changes(was, path[1..])
    else [Current(path[0])] + Changes(Current(path[0]), path[1..])
  }

  /** What has been seen by the end of it. */
  ghost function Seen(was: (bool, Reasons), path: seq<Shard>): (bool, Reasons) {
    if path == [] then was else Current(path[|path| - 1])
  }

  lemma {:induction false} ChangesOn(was: (bool, Reasons), a: seq<Shard>, b: seq<Shard>)
    ensures Changes(was, a + b) == Changes(was, a) + Changes(Seen(was, a), b)
    decreases |a|
  {
    if a == [] {
      assert a + b == b;
    } else {
      assert (a + b)[1..] == a[1..] + b;
      ChangesOn(Current(a[0]), a[1..], b);
    }
  }

  /** An observer that is up to date stays so, and has been told the changes along the path and nothing else. */
  ghost predicate KeptUp(sh: Shard, path: seq<Shard>, sh': Shard) {
    && Seen(Current(sh), path) == Current(sh')
    && (sh.observed == Some(Current(sh)) ==>
          sh'.observed == Some(Current(sh')) && sh'.notices == sh.notices + Changes(Current(sh), path))
  }

  lemma KeptUpOn(a: Shard, p: seq<Shard>, b: Shard, q: seq<Shard>, c: Shard)
    requires KeptUp(a, p, b) && KeptUp(b, q, c)
    ensures KeptUp(a, p + q, c)
  {
    ChangesOn(Current(a), p, q);
  }

  lemma NotifiedKeepsUp(sh: Shard, changed: Shard)
    requires changed.observed == sh.observed && changed.notices == sh.notices
    ensures KeptUp(sh, [changed.Notified()], changed.Notified())
  {
    assert [changed.Notified()][1..] == [];
  }

  lemma HeardKeepsUp(sh: Shard, update: Broadcast)
    ensures KeptUp(sh, [sh.Heard(update)], sh.Heard(update))
  {
    if update.version > sh.viewVersion {
      NotifiedKeepsUp(sh, sh.(view := update.reasons, viewVersion := update.version));
    } else {
      UnnoticedKeepsUp(sh, sh);
    }
  }

  lemma LifecycleKeepsUp(sh: Shard)
    ensures KeptUp(sh, [sh.MarkedStarted()], sh.MarkedStarted())
    ensures KeptUp(sh, [sh.ShuttingDown()], sh.ShuttingDown())
  {
    NotifiedKeepsUp(sh, if sh.lifecycle == Live then sh.(lifecycle := Started) else sh);
    NotifiedKeepsUp(sh, if sh.lifecycle == Live || sh.lifecycle == Started then sh.(lifecycle := Draining) else sh);
  }

  /** Nothing an observer is told about has changed. */
  ghost predicate Unnoticed(sh: Shard, sh': Shard) {
    sh'.observed == sh.observed && sh'.notices == sh.notices && sh'.view == sh.view && sh'.lifecycle == sh.lifecycle
  }

  lemma UnnoticedKeepsUp(sh: Shard, sh': Shard)
    requires Unnoticed(sh, sh')
    ensures KeptUp(sh, [sh'], sh')
  {
    assert [sh'][1..] == [];
  }

  lemma SettledKeepsUp(sh: Shard, settled: Broadcast)
    ensures KeptUp(sh, [sh.Heard(settled), sh.Heard(settled).MarkedStarted()], sh.Heard(settled).MarkedStarted())
  {
    var heard := sh.Heard(settled);
    HeardKeepsUp(sh, settled);
    LifecycleKeepsUp(heard);
    KeptUpOn(sh, [heard], heard, [heard.MarkedStarted()], heard.MarkedStarted());
    assert [heard] + [heard.MarkedStarted()] == [heard, heard.MarkedStarted()];
  }

  predicate Telling(step: Step) {
    step.DeliverBroadcast? || step.DeliverSettled? || step.BeginShutdown? || step.DeliverDrain?
  }

  /** Steps never lose a shard. */
  lemma ShardsRemain(s: System, step: Step)
    requires Shape(s) && Enabled(s, step)
    ensures |Do(s, step).shards| == |s.shards|
  {
    if !Telling(step) && !step.Report? && !step.AnswerStatement? && !step.Observe? && !step.Stop? {
      ShardsKept(s, step);
    }
  }

  lemma OtherUnnoticed(s: System, step: Step, i: nat)
    requires Shape(s) && Enabled(s, step) && i < |s.shards| && step != Observe(i) && step != Stop(i) && !Telling(step)
    ensures i < |Do(s, step).shards| && Unnoticed(s.shards[i], Do(s, step).shards[i])
  {
    match step
    case Report(_, _, _) =>
    case AnswerStatement(_, _) =>
    case Observe(_) =>
    case Stop(_) =>
    case _ => ShardsKept(s, step);
  }

  lemma StepKeepsUp(s: System, step: Step, i: nat)
    requires Shape(s) && Enabled(s, step) && i < |s.shards| && step != Observe(i) && step != Stop(i)
    ensures |Do(s, step).shards| == |s.shards| && KeptUp(s.shards[i], Passed(s, step, i), Do(s, step).shards[i])
  {
    ShardsRemain(s, step);
    var sh := s.shards[i];
    if !Telling(step) {
      OtherUnnoticed(s, step, i);
      UnnoticedKeepsUp(sh, Do(s, step).shards[i]);
    } else if step.DeliverSettled? && step.shard == i {
      SettledKeepsUp(sh, s.starts[step.start].settled);
    } else if Do(s, step).shards[i] == sh {
      UnnoticedKeepsUp(sh, sh);
    } else if step.DeliverBroadcast? {
      HeardKeepsUp(sh, s.flights[step.flight].update);
    } else {
      LifecycleKeepsUp(sh);
    }
  }

  /** Over any run in which a shard is neither observed anew nor stopped, an observer that was up to date is told
      exactly the changes of readiness and reasons the shard goes through, in order, and is up to date. */
  lemma {:induction false} RunKeepsUp(s: System, steps: seq<Step>, i: nat)
    requires Shape(s) && Runs(s, steps) && i < |s.shards|
    requires Observe(i) !in steps && Stop(i) !in steps
    ensures i < |Exec(s, steps).shards| && KeptUp(s.shards[i], Path(s, steps, i), Exec(s, steps).shards[i])
    decreases |steps|
  {
    if steps == [] {
      assert s.shards[i].notices + [] == s.shards[i].notices;
    } else {
      var s1 := Do(s, steps[0]);
      StepKeepsUp(s, steps[0], i);
      RunKeepsUp(s1, steps[1..], i);
      KeptUpOn(s.shards[i], Passed(s, steps[0], i), s1.shards[i],
               Path(s1, steps[1..], i), Exec(s1, steps[1..]).shards[i]);
    }
  }

  /** From the moment it is set, whatever came before, an observer is told exactly the changes that follow. */
  lemma ObserverIsTold(s: System, i: nat, steps: seq<Step>)
    requires Shape(s) && i < |s.shards| && Runs(Do(s, Observe(i)), steps)
    requires Observe(i) !in steps && Stop(i) !in steps
    ensures var s1 := Do(s, Observe(i)); var s' := Exec(s1, steps);
      && i < |s1.shards| && i < |s'.shards|
      && s'.shards[i].notices == s.shards[i].notices + Changes(Current(s.shards[i]), Path(s1, steps, i))
  {
    RunKeepsUp(Do(s, Observe(i)), steps, i);
  }

  lemma StepIsSilent(s: System, step: Step, i: nat)
    requires Shape(s) && Enabled(s, step) && i < |s.shards| && step != Observe(i) && s.shards[i].observed.None?
    ensures |Do(s, step).shards| == |s.shards|
    ensures var sh := Do(s, step).shards[i]; sh.observed.None? && sh.notices == s.shards[i].notices
  {
    StepChanges(s, step);
  }

  lemma {:induction false} RunIsSilent(s: System, steps: seq<Step>, i: nat)
    requires Shape(s) && Runs(s, steps) && i < |s.shards| && Observe(i) !in steps && s.shards[i].observed.None?
    ensures i < |Exec(s, steps).shards| && Exec(s, steps).shards[i].notices == s.shards[i].notices
    decreases |steps|
  {
    if steps != [] {
      StepIsSilent(s, steps[0], i);
      RunIsSilent(Do(s, steps[0]), steps[1..], i);
    }
  }

  /** And once its shard has stopped it is told nothing more. */
  lemma StoppedIsSilent(s: System, i: nat, steps: seq<Step>)
    requires Shape(s) && i < |s.shards| && Runs(Do(s, Stop(i)), steps) && Observe(i) !in steps
    ensures var s' := Exec(Do(s, Stop(i)), steps); i < |s'.shards| && s'.shards[i].notices == s.shards[i].notices
  {
    RunIsSilent(Do(s, Stop(i)), steps, i);
  }
}
