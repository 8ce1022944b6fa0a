/**
 When a shard is ready, told by what was asked of the broker: the reasons
 reported and released, the starts and the shutdowns
 (src/admin/admin_state.cc, src/admin/admin_server.cc).
 */
module ReadinessVerdict {
  import opened Readiness
  import opened ReadinessProtocol
  import opened ReadinessRuns
  import opened ReadinessTheorems
  import opened ReadinessConvergence

  /** In every reachable state a shard is ready exactly when a start has handed it its set, it has neither heard a
      shutdown nor stopped, and the set it last heard is empty. */
  lemma ReadyExactly(n: nat, steps: seq<Step>, i: nat)
    requires n > 0 && Runs(Init(n), steps) && i < n
    ensures |Exec(Init(n), steps).shards| == n
    ensures var sh := Exec(Init(n), steps).shards[i];
      sh.Ready() <==> HandedStart(steps, i) && !HeardShutdown(steps, i) && Stop(i) !in steps && sh.view == {}
  {
    LifecycleExactly(n, steps, i);
  }

  /** Shard by shard, nothing reported is unreleased. */
  ghost predicate AllReleased(n: nat, steps: seq<Step>) {
    forall k, b :: 0 <= k < n && 0 <= b < REASON_BITS ==> !Outstanding(steps, k, b)
  }

  ghost predicate NoStop(steps: seq<Step>) {
    forall j :: 0 <= j < |steps| ==> !steps[j].Stop?
  }

  lemma NeverStopped(n: nat, steps: seq<Step>)
    requires n > 0 && Runs(Init(n), steps) && NoStop(steps)
    ensures Open(Exec(Init(n), steps))
  {
    var s := Exec(Init(n), steps);
    ShardsStay(Init(n), steps);
    forall i | 0 <= i < |s.shards| ensures !s.shards[i].closed {
      LifecycleExactly(n, steps, i);
    }
  }

  /** At rest, with no shard stopped, every view is the set of the reasons reported and not released. */
  lemma ViewAtRest(n: nat, steps: seq<Step>, i: nat, b: nat)
    requires n > 0 && Runs(Init(n), steps) && NoStop(steps) && Quiet(Exec(Init(n), steps)) && i < n
    ensures |Exec(Init(n), steps).shards| == n
    ensures b in Exec(Init(n), steps).shards[i].view <==> exists k :: 0 <= k < n && Outstanding(steps, k, b)
  {
    var s := Exec(Init(n), steps);
    ShardsStay(Init(n), steps);
    NeverStopped(n, steps);
    ReachableQuietAgrees(n, steps);
    assert b in s.shards[i].view <==> exists k :: 0 <= k < |s.shards| && b in s.shards[k].held;
    forall k | 0 <= k < n ensures b in s.shards[k].held <==> Outstanding(steps, k, b) {
      HeldExactly(n, steps, k, b);
    }
  }

  lemma EmptyAtRest(n: nat, steps: seq<Step>, i: nat)
    requires n > 0 && Runs(Init(n), steps) && NoStop(steps) && Quiet(Exec(Init(n), steps)) && i < n
    ensures |Exec(Init(n), steps).shards| == n
    ensures Exec(Init(n), steps).shards[i].view == {} <==> AllReleased(n, steps)
  {
    ShardsStay(Init(n), steps);
    var view := Exec(Init(n), steps).shards[i].view;
    forall b: nat ensures b in view <==> exists k :: 0 <= k < n && Outstanding(steps, k, b) {
      ViewAtRest(n, steps, i, b);
    }
    if view != {} {
      var b :| b in view;
      var k :| 0 <= k < n && Outstanding(steps, k, b);
    } else {
      forall k, b | 0 <= k < n && 0 <= b < REASON_BITS ensures !Outstanding(steps, k, b) {
        assert b !in view;
      }
    }
  }

  // ----- starts and shutdowns go all the way -----

  lemma {:induction false} NoStartHandsNothing(s: System, steps: seq<Step>, i: nat)
    requires Shape(s) && Runs(s, steps) && s.starts == [] && BeginStart !in steps
    ensures !HandedStart(steps, i)
    decreases |steps|
  {
    if steps != [] {
      StepHands(s, steps[0], 0, 0);
      NoStartHandsNothing(Do(s, steps[0]), steps[1..], i);
      assert forall j :: 0 < j < |steps| ==> steps[j] == steps[1..][j - 1];
    }
  }

  /** At rest a start that was begun has handed every shard its set. */
  lemma StartReachesAll(n: nat, steps: seq<Step>, i: nat)
    requires n > 0 && Runs(Init(n), steps) && AtRest(Exec(Init(n), steps)) && i < n
    ensures HandedStart(steps, i) <==> BeginStart in steps
  {
    var s := Exec(Init(n), steps);
    RunHands(Init(n), steps, 0, i);
    if BeginStart in steps {
      assert s.starts[0].Handing? && HandedBy(s, 0, i);
    } else {
      NoStartHandsNothing(Init(n), steps, i);
    }
  }

  lemma StepDraining(s: System, step: Step, i: nat)
    requires Shape(s) && Enabled(s, step) && i < |s.shards|
    ensures i in Do(s, step).drains <==> step == BeginShutdown || (i in s.drains && step != DeliverDrain(i))
  {
  }

  lemma {:induction false} RunDraining(s: System, steps: seq<Step>, i: nat)
    requires Shape(s) && Runs(s, steps) && i < |s.shards|
    requires i in s.drains || BeginShutdown in steps
    ensures i in Exec(s, steps).drains || DeliverDrain(i) in steps
    decreases |steps|
  {
    if steps != [] {
      var s1 := Do(s, steps[0]);
      StepDraining(s, steps[0], i);
      StepHeld(s, steps[0], i, 0);
      assert steps == [steps[0]] + steps[1..];
      if i in s1.drains || BeginShutdown in steps[1..] {
        RunDraining(s1, steps[1..], i);
      }
    }
  }

  lemma {:induction false} NoShutdownDrainsNothing(s: System, steps: seq<Step>, i: nat)
    requires Shape(s) && Runs(s, steps) && i < |s.shards| && i !in s.drains && BeginShutdown !in steps
    ensures !HeardShutdown(steps, i)
    decreases |steps|
  {
    if steps != [] {
      StepDraining(s, steps[0], i);
      StepHeld(s, steps[0], i, 0);
      NoShutdownDrainsNothing(Do(s, steps[0]), steps[1..], i);
      assert steps == [steps[0]] + steps[1..];
    }
  }

  /** At rest a shutdown that was begun has been heard by every shard. */
  lemma ShutdownReachesAll(n: nat, steps: seq<Step>, i: nat)
    requires n > 0 && Runs(Init(n), steps) && AtRest(Exec(Init(n), steps)) && i < n
    ensures HeardShutdown(steps, i) <==> BeginShutdown in steps
  {
    if BeginShutdown in steps {
      RunDraining(Init(n), steps, i);
    } else {
      NoShutdownDrainsNothing(Init(n), steps, i);
    }
  }

  /** At rest, with no shard stopped, all shards give one verdict, and it is the one the requests call for: ready
      exactly when a start was begun, no shutdown was, and no reason reported anywhere is unreleased. */
  lemma VerdictAtRest(n: nat, steps: seq<Step>, i: nat)
    requires n > 0 && Runs(Init(n), steps) && NoStop(steps) && AtRest(Exec(Init(n), steps)) && i < n
    ensures |Exec(Init(n), steps).shards| == n
    ensures Exec(Init(n), steps).shards[i].Ready() <==>
      BeginStart in steps && BeginShutdown !in steps && AllReleased(n, steps)
  {
    ReadyExactly(n, steps, i);
    EmptyAtRest(n, steps, i);
    StartReachesAll(n, steps, i);
    ShutdownReachesAll(n, steps, i);
  }
}
