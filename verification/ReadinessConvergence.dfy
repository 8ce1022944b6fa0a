/**
 Once nothing new is reported or requested, the messages of the readiness
 protocol run out: each delivery and each answer lowers a measure, something
 can always be delivered until the system is at rest, and at rest every shard
 agrees (src/admin/admin_state.cc).
 */
module ReadinessConvergence {
  import opened Units
  import opened Readiness
  import opened AdminState
  import opened ReadinessProtocol
  import opened ReadinessTheorems

  ghost function Sum(xs: seq<nat>): nat {
    if xs == [] then 0 else xs[0] + Sum(xs[1..])
  }

  lemma {:induction false} SumUpdate(xs: seq<nat>, i: nat, x: nat)
    requires i < |xs|
    ensures Sum(xs[i := x]) + xs[i] == Sum(xs) + x
  {
    if i == 0 {
      assert xs[i := x][1..] == xs[1..];
    } else {
      assert xs[i := x][1..] == xs[1..][i - 1 := x];
      SumUpdate(xs[1..], i - 1, x);
    }
  }

  /** Messages still to come from one shard's statements, each able to cause one broadcast to n
      shards. */
  ghost function CallWork(n: nat, sh: Shard, calls: seq<Call>): nat {
    if calls == [] then 0 else
      (if calls[0].delivered then 1 else n + 3) + (if calls[0].st.sequence == sh.statement then 0 else n + 4)
  }

  ghost function BroadcastWork(s: System): nat {
    if s.flights == [] then 0 else
      |s.flights[0].pending| + 1
      + (if s.flights[0].update.version == s.owner.version then 0 else |s.shards| + 1)
  }

  ghost function Unsampled(sampled: seq<Option<Statement>>): nat {
    if sampled == [] then 0 else (if sampled[0].None? then 1 else 0) + Unsampled(sampled[1..])
  }

  ghost function StartWork(n: nat, start: Start): nat {
    match start
    case Sampling(sampled) => Unsampled(sampled) + 2 * n + 2
    case Handing(_, pending) => |pending|
  }

  ghost function CallWorks(s: System): (w: seq<nat>)
    requires Shape(s)
    ensures |w| == |s.shards|
    ensures forall i :: 0 <= i < |w| ==> w[i] == CallWork(|s.shards|, s.shards[i], s.calls[i])
  {
    seq(|s.shards|, i requires 0 <= i < |s.shards| => CallWork(|s.shards|, s.shards[i], s.calls[i]))
  }

  ghost function StartWorks(s: System): (w: seq<nat>)
    ensures |w| == |s.starts|
    ensures forall o :: 0 <= o < |w| ==> w[o] == StartWork(|s.shards|, s.starts[o])
  {
    seq(|s.starts|, o requires 0 <= o < |s.starts| => StartWork(|s.shards|, s.starts[o]))
  }

  ghost function Measure(s: System): nat
    requires Shape(s)
  {
    Sum(CallWorks(s)) + BroadcastWork(s) + Sum(StartWorks(s)) + |s.drains|
  }

  /** Deliveries, answers and a start's own progress; nothing new comes in. */
  predicate Internal(step: Step) {
    step.DeliverStatement? || step.AnswerStatement? || step.DeliverBroadcast? || step.AnswerBroadcast?
    || step.Sample? || step.Settle? || step.DeliverSettled? || step.DeliverDrain?
  }

  // ----- every internal step lowers the measure -----

  lemma CallShrinks(s: System, s': System, i: nat, gain: nat)
    requires Shape(s) && Shape(s') && |s'.shards| == |s.shards| && i < |s.shards|
    requires forall j :: 0 <= j < |s.shards| && j != i ==>
      s'.calls[j] == s.calls[j] && s'.shards[j].statement == s.shards[j].statement
    requires CallWork(|s.shards|, s'.shards[i], s'.calls[i]) + gain < CallWork(|s.shards|, s.shards[i], s.calls[i])
    requires BroadcastWork(s') <= BroadcastWork(s) + gain
    requires s'.starts == s.starts && s'.drains == s.drains
    ensures Measure(s') < Measure(s)
  {
    assert CallWorks(s') == CallWorks(s)[i := CallWorks(s')[i]];
    SumUpdate(CallWorks(s), i, CallWorks(s')[i]);
    assert StartWorks(s') == StartWorks(s);
  }

  lemma DeliverStatementShrinks(s: System, i: nat, c: nat)
    requires Inv(s) && Enabled(s, DeliverStatement(i, c))
    ensures Measure(DoDeliverStatement(s, i, c)) < Measure(s)
  {
    assert StatementsOk(s, i);
    CallShrinks(s, DoDeliverStatement(s, i, c), i, |s.shards| + 1);
  }

  lemma AnswerStatementShrinks(s: System, i: nat, c: nat)
    requires Inv(s) && Enabled(s, AnswerStatement(i, c))
    ensures Measure(DoAnswerStatement(s, i, c)) < Measure(s)
  {
    assert StatementsOk(s, i);
    assert s.calls[i][..c] + s.calls[i][c + 1..] == [];
    CallShrinks(s, DoAnswerStatement(s, i, c), i, 0);
  }

  lemma SameWorks(s: System, s': System)
    requires Shape(s) && Shape(s') && |s'.shards| == |s.shards| && s'.calls == s.calls
    requires forall i :: 0 <= i < |s.shards| ==> s'.shards[i].statement == s.shards[i].statement
    ensures CallWorks(s') == CallWorks(s)
    ensures s'.starts == s.starts ==> StartWorks(s') == StartWorks(s)
  {
  }

  lemma BroadcastShrinks(s: System, step: Step)
    requires Inv(s) && Enabled(s, step) && (step.DeliverBroadcast? || step.AnswerBroadcast?)
    ensures Measure(Do(s, step)) < Measure(s)
  {
    var s' := Do(s, step);
    if step.DeliverBroadcast? {
      HeardStatement(s.shards[step.shard], s.flights[step.flight].update);
    }
    SameWorks(s, s');
  }

  lemma HeardStatement(sh: Shard, update: Broadcast)
    ensures sh.Heard(update).statement == sh.statement
    ensures sh.Heard(update).MarkedStarted().statement == sh.statement
    ensures sh.ShuttingDown().statement == sh.statement
  {
  }

  lemma {:induction false} UnsampledUpdate(sampled: seq<Option<Statement>>, i: nat, st: Statement)
    requires i < |sampled| && sampled[i].None?
    ensures Unsampled(sampled[i := Some(st)]) + 1 == Unsampled(sampled)
  {
    if i == 0 {
      assert sampled[i := Some(st)][1..] == sampled[1..];
    } else {
      assert sampled[i := Some(st)][1..] == sampled[1..][i - 1 := Some(st)];
      UnsampledUpdate(sampled[1..], i - 1, st);
    }
  }

  lemma StartShrinks(s: System, s': System, o: nat, gain: nat)
    requires Shape(s) && Shape(s') && |s'.shards| == |s.shards| && s'.calls == s.calls && o < |s.starts|
    requires forall i :: 0 <= i < |s.shards| ==> s'.shards[i].statement == s.shards[i].statement
    requires |s'.starts| == |s.starts| && s'.starts == s.starts[o := s'.starts[o]]
    requires StartWork(|s.shards|, s'.starts[o]) + gain < StartWork(|s.shards|, s.starts[o])
    requires BroadcastWork(s') <= BroadcastWork(s) + gain && s'.drains == s.drains
    ensures Measure(s') < Measure(s)
  {
    SameWorks(s, s');
    assert StartWorks(s') == StartWorks(s)[o := StartWorks(s')[o]];
    SumUpdate(StartWorks(s), o, StartWorks(s')[o]);
  }

  lemma SampleShrinks(s: System, o: nat, i: nat)
    requires Inv(s) && Enabled(s, Sample(o, i))
    ensures Measure(DoSample(s, o, i)) < Measure(s)
  {
    UnsampledUpdate(s.starts[o].sampled, i, Statement(i, s.shards[i].held, s.shards[i].statement));
    StartShrinks(s, DoSample(s, o, i), o, 0);
  }

  lemma SettleShrinks(s: System, o: nat)
    requires Inv(s) && Enabled(s, Settle(o))
    ensures Measure(DoSettle(s, o)) < Measure(s)
  {
    StartShrinks(s, DoSettle(s, o), o, |s.shards| + 1);
  }

  lemma DeliverSettledShrinks(s: System, o: nat, i: nat)
    requires Inv(s) && Enabled(s, DeliverSettled(o, i))
    ensures Measure(DoDeliverSettled(s, o, i)) < Measure(s)
  {
    HeardStatement(s.shards[i], s.starts[o].settled);
    StartShrinks(s, DoDeliverSettled(s, o, i), o, 0);
  }

  lemma DrainShrinks(s: System, i: nat)
    requires Inv(s) && Enabled(s, DeliverDrain(i))
    ensures Measure(Do(s, DeliverDrain(i))) < Measure(s)
  {
    HeardStatement(s.shards[i], Latest(s.owner));
    SameWorks(s, Do(s, DeliverDrain(i)));
  }

  lemma StepShrinks(s: System, step: Step)
    requires Inv(s) && Enabled(s, step) && Internal(step)
    ensures Measure(Do(s, step)) < Measure(s)
  {
    match step
    case DeliverStatement(i, c) => DeliverStatementShrinks(s, i, c);
    case AnswerStatement(i, c) => AnswerStatementShrinks(s, i, c);
    case Sample(o, i) => SampleShrinks(s, o, i);
    case Settle(o) => SettleShrinks(s, o);
    case DeliverSettled(o, i) => DeliverSettledShrinks(s, o, i);
    case DeliverDrain(i) => DrainShrinks(s, i);
    case _ => BroadcastShrinks(s, step);
  }

  // ----- until the system is at rest, some internal step is enabled -----

  ghost predicate AtRest(s: System)
    requires Shape(s)
  {
    Quiet(s) && s.drains == {} && forall o :: 0 <= o < |s.starts| ==> s.starts[o].Handing?
  }

  lemma Progress(s: System) returns (step: Step)
    requires Inv(s) && !AtRest(s)
    ensures Internal(step) && Enabled(s, step)
  {
    if i :| 0 <= i < |s.shards| && s.calls[i] != [] {
      step := if s.calls[i][0].delivered then AnswerStatement(i, 0) else DeliverStatement(i, 0);
    } else if s.flights != [] {
      if i :| i in s.flights[0].pending {
        step := DeliverBroadcast(0, i);
      } else {
        step := AnswerBroadcast(0);
      }
    } else if o :| 0 <= o < |s.starts| && s.starts[o].Handing? && s.starts[o].pending != {} {
      assert StartOk(s, s.starts[o]);
      var i :| i in s.starts[o].pending;
      step := DeliverSettled(o, i);
    } else if o :| 0 <= o < |s.starts| && s.starts[o].Sampling? {
      if i :| 0 <= i < |s.shards| && s.starts[o].sampled[i].None? {
        step := Sample(o, i);
      } else {
        step := Settle(o);
      }
    } else {
      var i :| i in s.drains;
      step := DeliverDrain(i);
    }
  }

  // ----- so every schedule of them ends, and ends in agreement -----

  ghost predicate AllInternal(steps: seq<Step>) {
    forall j :: 0 <= j < |steps| ==> Internal(steps[j])
  }

  lemma {:induction false} RunShrinks(s: System, steps: seq<Step>)
    requires Inv(s) && Runs(s, steps) && AllInternal(steps)
    ensures |steps| + Measure(Exec(s, steps)) <= Measure(s)
    decreases |steps|
  {
    if steps != [] {
      StepInv(s, steps[0]);
      StepShrinks(s, steps[0]);
      RunShrinks(Do(s, steps[0]), steps[1..]);
    }
  }

  /** Internal steps change no held set and stop no shard. */
  ghost predicate SameHeld(s: System, s': System) {
    |s'.shards| == |s.shards|
    && forall i :: 0 <= i < |s.shards| ==>
         s'.shards[i].held == s.shards[i].held && s'.shards[i].closed == s.shards[i].closed
  }

  lemma HearingKeepsHeld(sh: Shard, update: Broadcast)
    ensures var sh' := sh.Heard(update); sh'.held == sh.held && sh'.closed == sh.closed
    ensures var sh' := sh.Heard(update).MarkedStarted(); sh'.held == sh.held && sh'.closed == sh.closed
    ensures var sh' := sh.ShuttingDown(); sh'.held == sh.held && sh'.closed == sh.closed
  {
  }

  lemma AnsweringKeepsHeld(s: System, i: nat, c: nat)
    requires Shape(s) && Enabled(s, AnswerStatement(i, c))
    ensures SameHeld(s, DoAnswerStatement(s, i, c))
  {
  }

  lemma StepKeepsHeld(s: System, step: Step)
    requires Shape(s) && Enabled(s, step) && Internal(step)
    ensures SameHeld(s, Do(s, step))
  {
    match step
    case DeliverBroadcast(f, i) => HearingKeepsHeld(s.shards[i], s.flights[f].update);
    case DeliverSettled(o, i) => HearingKeepsHeld(s.shards[i], s.starts[o].settled);
    case DeliverDrain(i) => HearingKeepsHeld(s.shards[i], Latest(s.owner));
    case AnswerStatement(i, c) => AnsweringKeepsHeld(s, i, c);
    case _ => ShardsKept(s, step);
  }

  lemma {:induction false} RunKeepsHeld(s: System, steps: seq<Step>)
    requires Shape(s) && Runs(s, steps) && AllInternal(steps)
    ensures SameHeld(s, Exec(s, steps))
    decreases |steps|
  {
    if steps != [] {
      StepKeepsHeld(s, steps[0]);
      RunKeepsHeld(Do(s, steps[0]), steps[1..]);
    }
  }

  /** From any reachable state in which no shard is stopped, every schedule of deliveries and
      answers is at most Measure(s) steps long, and where nothing more can be delivered every
      shard's view is the union of the sets the shards held all along. */
  lemma ScheduleConverges(s: System, steps: seq<Step>)
    requires Inv(s) && Open(s) && Runs(s, steps) && AllInternal(steps)
    requires forall step :: Internal(step) ==> !Enabled(Exec(s, steps), step)
    ensures |steps| <= Measure(s)
    ensures var s' := Exec(s, steps); AtRest(s') && Agreed(s') && SameHeld(s, s')
  {
    RunInv(s, steps);
    RunShrinks(s, steps);
    RunKeepsHeld(s, steps);
    var s' := Exec(s, steps);
    if !AtRest(s') {
      var step := Progress(s');
    }
    QuietAgrees(s');
  }

  lemma StepThenRest(s: System, step: Step, rest: seq<Step>)
    requires Shape(s) && Enabled(s, step) && Internal(step) && Runs(Do(s, step), rest) && AllInternal(rest)
    ensures Runs(s, [step] + rest) && AllInternal([step] + rest)
    ensures Exec(s, [step] + rest) == Exec(Do(s, step), rest)
  {
    assert ([step] + rest)[1..] == rest;
  }

  lemma {:induction false} RestSchedule(s: System) returns (steps: seq<Step>)
    requires Inv(s)
    ensures Runs(s, steps) && AllInternal(steps) && AtRest(Exec(s, steps))
    decreases Measure(s)
  {
    if AtRest(s) {
      return [];
    }
    var step := Progress(s);
    StepInv(s, step);
    StepShrinks(s, step);
    var rest := RestSchedule(Do(s, step));
    steps := [step] + rest;
    StepThenRest(s, step, rest);
  }

  /** And such a schedule exists: delivering whatever can be delivered is one. */
  lemma Converges(s: System) returns (steps: seq<Step>)
    requires Inv(s) && Open(s)
    ensures Runs(s, steps) && AllInternal(steps) && |steps| <= Measure(s)
    ensures var s' := Exec(s, steps); AtRest(s') && Agreed(s') && SameHeld(s, s')
  {
    steps := RestSchedule(s);
    RunInv(s, steps);
    RunShrinks(s, steps);
    RunKeepsHeld(s, steps);
    QuietAgrees(Exec(s, steps));
  }

  /** At most one statement per shard and one broadcast are ever unanswered. */
  lemma OneMessageEach(n: nat, steps: seq<Step>)
    requires n > 0 && Runs(Init(n), steps)
    ensures var s := Exec(Init(n), steps);
      |s.flights| <= 1 && forall i :: 0 <= i < |s.shards| ==> |s.calls[i]| <= 1
  {
    InitInv(n);
    RunInv(Init(n), steps);
    var s := Exec(Init(n), steps);
    forall i | 0 <= i < |s.shards| ensures |s.calls[i]| <= 1 {
      assert StatementsOk(s, i);
    }
  }
}
