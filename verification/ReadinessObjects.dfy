/**
 The objects of every shard, driven through any schedule of the protocol: what
 they hold is what the protocol says, so its theorems are theirs
 (src/admin/admin_state.cc, src/admin/admin_server.cc).
 */
module ReadinessObjects {
  import opened Units
  import opened Readiness
  import opened AdminState
  import opened ReadinessProtocol
  import opened ReadinessRuns
  import opened ReadinessTheorems
  import opened ReadinessConvergence
  import opened ReadinessVerdict

  /** What is between the shards: calls, broadcasts, starts and drains on their way. */
  datatype Net = Net(calls: seq<seq<Call>>, flights: seq<Flight>, starts: seq<Start>, draining: bool, drains: set<nat>)

  ghost predicate Distinct(objs: seq<AdminState>) {
    forall i, j :: 0 <= i < j < |objs| ==> objs[i] != objs[j]
  }

  /** Each object is its shard of the system, and the first alone has the owner. */
  ghost predicate ShardsMirror(objs: seq<AdminState>, shards: seq<Shard>)
    reads objs
  {
    && |objs| == |shards| && Distinct(objs)
    && forall i :: 0 <= i < |objs| ==>
         objs[i].shard == i && objs[i].Value() == shards[i] && (objs[i].owner != null <==> i == 0)
  }

  ghost predicate OwnerMirrors(first: AdminState, owner: Owner, broadcasting: bool)
    requires first.owner != null
    reads first, first.owner, first.owner.holders
  {
    first.owner.Valid() && first.owner.Value() == owner && first.broadcastInFlight == broadcasting
  }

  ghost function Owned(objs: seq<AdminState>): set<object> {
    if objs == [] || objs[0].owner == null then {} else {objs[0].owner, objs[0].owner.holders}
  }

  ghost predicate Mirrors(objs: seq<AdminState>, net: Net, s: System)
    reads objs, Owned(objs)
  {
    && Shape(s) && ShardsMirror(objs, s.shards) && OwnerMirrors(objs[0], s.owner, s.broadcasting)
    && net == Net(s.calls, s.flights, s.starts, s.draining, s.drains)
  }

  /** One object has changed, or none. */
  twostate lemma Turned(objs: seq<AdminState>, new shards: seq<Shard>, new i: nat)
    requires old(ShardsMirror(objs, shards)) && i < |objs|
    requires forall j :: 0 <= j < |objs| && j != i ==> unchanged(objs[j])
    ensures ShardsMirror(objs, shards[i := objs[i].Value()])
  {
  }

  /** No shard has changed: the owner's affairs are not among what they show. */
  twostate lemma Same(objs: seq<AdminState>, new shards: seq<Shard>)
    requires old(ShardsMirror(objs, shards))
    requires forall j :: 0 <= j < |objs| ==> objs[j].Value() == old(objs[j].Value())
    ensures ShardsMirror(objs, shards)
  {
  }

  method Another(i: nat, shards: nat) returns (obj: AdminState)
    ensures fresh(obj) && obj.shard == i && obj.Value() == NewShard().(lifecycle := Live)
    ensures !obj.broadcastInFlight && (obj.owner != null <==> i == 0)
    ensures obj.owner != null ==>
      fresh(obj.owner) && fresh(obj.owner.holders) && obj.owner.Valid() && obj.owner.Value() == NewOwner(shards)
  {
    obj := new AdminState(i, shards);
    obj.ListenerStarted();
  }

  method Create(shards: nat) returns (objs: seq<AdminState>, net: Net)
    requires shards > 0
    ensures fresh(objs) && fresh(Owned(objs)) && Mirrors(objs, net, Init(shards))
  {
    var first := Another(0, shards);
    objs := [first];
    while |objs| < shards
      invariant 1 <= |objs| <= shards && objs[0] == first && fresh(objs) && fresh(Owned(objs))
      invariant ShardsMirror(objs, Init(shards).shards[..|objs|])
      invariant OwnerMirrors(first, Init(shards).owner, false)
    {
      var next := Another(|objs|, shards);
      objs := objs + [next];
    }
    assert Init(shards).shards[..shards] == Init(shards).shards;
    net := Net(seq(shards, _ => []), [], [], false, {});
  }

  /** Report, and the answer to a statement. */
  method SayOne(objs: seq<AdminState>, net: Net, step: Step, ghost s: System) returns (next: Net)
    requires Mirrors(objs, net, s) && Enabled(s, step) && (step.Report? || step.AnswerStatement?)
    modifies objs[step.shard]
    ensures Mirrors(objs, next, Do(s, step))
  {
    var i := step.shard;
    var sent;
    var calls := net.calls[i];
    if step.Report? {
      sent := objs[i].Report(step.reason, step.hold);
    } else {
      sent := objs[i].StatementAnswered(calls[step.call].st.sequence);
      calls := calls[..step.call] + calls[step.call + 1..];
    }
    Turned(objs, s.shards, i);
    next := net.(calls := net.calls[i := WithCall(calls, sent)]);
  }

  function WithUpdate(net: Net, sent: Option<Broadcast>, shards: nat): Net {
    if sent.None? then net else net.(flights := net.flights + [Flight(sent.value, Below(shards))])
  }

  /** A statement reaches the owner. */
  method StateToOwner(objs: seq<AdminState>, net: Net, step: Step, ghost s: System) returns (next: Net)
    requires Mirrors(objs, net, s) && Enabled(s, step) && step.DeliverStatement?
    modifies objs[0], Owned(objs)
    ensures Mirrors(objs, next, Do(s, step))
  {
    var i, c := step.shard, step.call;
    var call := net.calls[i][c];
    var sent := objs[0].ApplyStatement(call.st.shard, call.st.reasons, call.st.sequence);
    next := WithUpdate(net.(calls := net.calls[i := net.calls[i][c := call.(delivered := true)]]), sent, |objs|);
    ShardsKept(s, step);
    Same(objs, s.shards);
  }

  /** Every shard has answered a broadcast. */
  method EndBroadcast(objs: seq<AdminState>, net: Net, step: Step, ghost s: System) returns (next: Net)
    requires Mirrors(objs, net, s) && Enabled(s, step) && step.AnswerBroadcast?
    modifies objs[0]
    ensures Mirrors(objs, next, Do(s, step))
  {
    var f := step.flight;
    var sent := objs[0].BroadcastAnswered(net.flights[f].update.version);
    next := WithUpdate(net.(flights := net.flights[..f] + net.flights[f + 1..]), sent, |objs|);
  }

  /** One shard hears a broadcast. */
  method HearOne(objs: seq<AdminState>, net: Net, step: Step, ghost s: System) returns (next: Net)
    requires Mirrors(objs, net, s) && Enabled(s, step) && step.DeliverBroadcast?
    modifies objs[step.shard]
    ensures Mirrors(objs, next, Do(s, step))
  {
    var i := step.shard;
    var flight := net.flights[step.flight];
    objs[i].ApplyReasons(flight.update.reasons, flight.update.version);
    next := net.(flights := net.flights[step.flight := flight.(pending := flight.pending - {i})]);
    Turned(objs, s.shards, i);
  }

  /** One shard is handed a settled set. */
  method StartOne(objs: seq<AdminState>, net: Net, step: Step, ghost s: System) returns (next: Net)
    requires Mirrors(objs, net, s) && Enabled(s, step) && step.DeliverSettled?
    modifies objs[step.shard]
    ensures Mirrors(objs, next, Do(s, step))
  {
    var i := step.shard;
    var start := net.starts[step.start];
    objs[i].ApplyReasons(start.settled.reasons, start.settled.version);
    objs[i].MarkStarted();
    Turned(objs, s.shards, i);
    assert Do(s, step).shards == s.shards[i := objs[i].Value()];
    next := net.(starts := net.starts[step.start := start.(pending := start.pending - {i})]);
  }

  /** A shard drains, is observed or stops. */
  method TurnOne(objs: seq<AdminState>, net: Net, step: Step, ghost s: System) returns (next: Net)
    requires Mirrors(objs, net, s) && Enabled(s, step) && (step.DeliverDrain? || step.Observe? || step.Stop?)
    modifies objs[step.shard]
    ensures Mirrors(objs, next, Do(s, step))
  {
    next := net;
    var i := step.shard;
    if step.DeliverDrain? {
      objs[i].BeginShutdown();
      next := net.(drains := net.drains - {i});
    } else if step.Observe? {
      objs[i].ObserveReadiness();
    } else {
      objs[i].Stop();
    }
    Turned(objs, s.shards, i);
  }

  /** The server begins to shut down: shard 0 first, the others when they hear. */
  method ShutDown(objs: seq<AdminState>, net: Net, step: Step, ghost s: System) returns (next: Net)
    requires Mirrors(objs, net, s) && Enabled(s, step) && step.BeginShutdown?
    modifies objs[0]
    ensures Mirrors(objs, next, Do(s, step))
  {
    objs[0].BeginShutdown();
    Turned(objs, s.shards, 0);
    next := net.(draining := true, drains := Below(|objs|));
  }

  /** A start begins, or samples one more shard. */
  method Gather(objs: seq<AdminState>, net: Net, step: Step, ghost s: System) returns (next: Net)
    requires Mirrors(objs, net, s) && Enabled(s, step) && (step.BeginStart? || step.Sample?)
    ensures Mirrors(objs, next, Do(s, step))
  {
    if step.BeginStart? {
      next := net.(starts := net.starts + [Sampling(seq(|objs|, _ => None))]);
    } else {
      var st := objs[step.shard].LatestStatement();
      var sampled := net.starts[step.start].sampled[step.shard := Some(st)];
      next := net.(starts := net.starts[step.start := Sampling(sampled)]);
    }
  }

  /** A start that has sampled every shard settles. */
  method SettleOne(objs: seq<AdminState>, net: Net, step: Step, ghost s: System) returns (next: Net)
    requires Mirrors(objs, net, s) && Enabled(s, step) && step.Settle?
    modifies Owned(objs)
    ensures Mirrors(objs, next, Do(s, step))
  {
    var sampled := net.starts[step.start].sampled;
    var sts := seq(|objs|, i requires 0 <= i < |objs| => sampled[i].value);
    assert sts == Samples(s, step.start);
    var settled := objs[0].Settle(sts);
    Turned(objs, s.shards, 0);
    ghost var s1 := AbsorbedAll(s, sts);
    assert OwnerMirrors(objs[0], s1.owner, s1.broadcasting);
    next := net.(starts := net.starts[step.start := Handing(settled.value, Below(|objs|))]);
  }

  method Perform(objs: seq<AdminState>, net: Net, step: Step, ghost s: System) returns (next: Net)
    requires Mirrors(objs, net, s) && Enabled(s, step)
    modifies objs, Owned(objs)
    ensures Mirrors(objs, next, Do(s, step))
  {
    if step.Report? || step.AnswerStatement? {
      next := SayOne(objs, net, step, s);
    } else if step.DeliverStatement? {
      next := StateToOwner(objs, net, step, s);
    } else if step.AnswerBroadcast? {
      next := EndBroadcast(objs, net, step, s);
    } else if step.DeliverBroadcast? {
      next := HearOne(objs, net, step, s);
    } else if step.DeliverSettled? {
      next := StartOne(objs, net, step, s);
    } else if step.BeginStart? || step.Sample? {
      next := Gather(objs, net, step, s);
    } else if step.Settle? {
      next := SettleOne(objs, net, step, s);
    } else if step.BeginShutdown? {
      next := ShutDown(objs, net, step, s);
    } else {
      next := TurnOne(objs, net, step, s);
    }
  }

  /** Every object has heard exactly the reasons that some object holds. */
  ghost predicate Together(objs: seq<AdminState>)
    reads objs
  {
    forall i, b :: 0 <= i < |objs| ==>
      (b in objs[i].reasons <==> exists j :: 0 <= j < |objs| && b in objs[j].held)
  }

  lemma MirroredTogether(objs: seq<AdminState>, net: Net, s: System)
    requires Mirrors(objs, net, s) && Agreed(s)
    ensures Together(objs)
  {
    forall i, b | 0 <= i < |objs|
      ensures b in objs[i].reasons <==> exists j :: 0 <= j < |objs| && b in objs[j].held
    {
      assert objs[i].Value() == s.shards[i];
      if j :| 0 <= j < |objs| && b in objs[j].held {
        assert objs[j].Value() == s.shards[j];
      }
      if j :| 0 <= j < |s.shards| && b in s.shards[j].held {
        assert objs[j].Value() == s.shards[j];
      }
    }
  }

  /** Every object is ready exactly when a start was begun, no shutdown was, and all that was reported is released. */
  ghost predicate GiveVerdict(objs: seq<AdminState>, shards: nat, steps: seq<Step>)
    reads objs
  {
    forall i :: 0 <= i < |objs| ==>
      (objs[i].Ready() <==> BeginStart in steps && BeginShutdown !in steps && AllReleased(shards, steps))
  }

  lemma MirroredVerdict(objs: seq<AdminState>, net: Net, shards: nat, steps: seq<Step>)
    requires shards > 0 && Runs(Init(shards), steps) && NoStop(steps) && AtRest(Exec(Init(shards), steps))
    requires Mirrors(objs, net, Exec(Init(shards), steps))
    ensures GiveVerdict(objs, shards, steps)
  {
    var s := Exec(Init(shards), steps);
    ShardsStay(Init(shards), steps);
    forall i | 0 <= i < |objs|
      ensures objs[i].Ready() <==> BeginStart in steps && BeginShutdown !in steps && AllReleased(shards, steps)
    {
      VerdictAtRest(shards, steps, i);
      assert objs[i].Value() == s.shards[i];
    }
  }

  /** Any schedule at all leaves the objects in the state the protocol reaches, and where nothing is on its way
      and no gate is closed they agree. */
  method PerformAll(shards: nat, steps: seq<Step>) returns (objs: seq<AdminState>, net: Net)
    requires shards > 0 && Runs(Init(shards), steps)
    ensures Mirrors(objs, net, Exec(Init(shards), steps))
    ensures var s := Exec(Init(shards), steps); Quiet(s) && Open(s) ==> Together(objs)
    ensures NoStop(steps) && AtRest(Exec(Init(shards), steps)) ==> GiveVerdict(objs, shards, steps)
  {
    objs, net := Create(shards);
    ghost var s := Init(shards);
    for k := 0 to |steps|
      invariant fresh(objs) && fresh(Owned(objs)) && Mirrors(objs, net, s)
      invariant Runs(s, steps[k..]) && Exec(s, steps[k..]) == Exec(Init(shards), steps)
    {
      assert steps[k..][1..] == steps[k + 1..] && steps[k..][0] == steps[k];
      net := Perform(objs, net, steps[k], s);
      s := Do(s, steps[k]);
    }
    if Quiet(s) && Open(s) {
      ReachableQuietAgrees(shards, steps);
      MirroredTogether(objs, net, s);
    }
    if NoStop(steps) && AtRest(s) {
      MirroredVerdict(objs, net, shards, steps);
    }
  }
}
