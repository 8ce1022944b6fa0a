/**
 What the readiness protocol promises, over every schedule: agreement once the
 messages are through, a start that cannot overlook a reason, a shutdown that
 is final, and convergence in a bounded number of messages.
 */
module ReadinessTheorems {
  import opened Readiness
  import opened AdminState
  import opened ReadinessProtocol
  import opened ReadinessRuns

  // ----- agreement -----

  ghost predicate Open(s: System) {
    forall i :: 0 <= i < |s.shards| ==> !s.shards[i].closed
  }

  /** No statement, broadcast or settled set is on its way. */
  ghost predicate Quiet(s: System)
    requires Shape(s)
  {
    && (forall i :: 0 <= i < |s.shards| ==> s.calls[i] == [])
    && s.flights == []
    && (forall o :: 0 <= o < |s.starts| && s.starts[o].Handing? ==> s.starts[o].pending == {})
  }

  ghost predicate Agreed(s: System)
    requires Shape(s)
  {
    forall i :: 0 <= i < |s.shards| ==>
      && s.owner.held[i] == s.shards[i].held
      && s.shards[i].view == s.owner.reasons
      && forall b :: b in s.shards[i].view <==> exists j :: 0 <= j < |s.shards| && b in s.shards[j].held
  }

  lemma QuietAgrees(s: System)
    requires Inv(s) && Quiet(s) && Open(s)
    ensures Agreed(s)
  {
    forall i | 0 <= i < |s.shards|
      ensures s.owner.held[i] == s.shards[i].held && s.shards[i].view == s.owner.reasons
    {
      assert StatementsOk(s, i) && ViewOk(s, i) && WillHear(s, i);
    }
    forall b
      ensures b in s.owner.reasons <==> exists j :: 0 <= j < |s.shards| && b in s.shards[j].held
    {
      if j :| 0 <= j < |s.shards| && b in s.shards[j].held {
        assert b in s.owner.held[j];
      }
    }
  }

  /** In every reachable state with nothing in flight and no shard stopped, the owner knows each
      shard's set and every shard's view is the union of all held sets. */
  lemma ReachableQuietAgrees(n: nat, steps: seq<Step>)
    requires n > 0 && Runs(Init(n), steps)
    requires var s := Exec(Init(n), steps); Quiet(s) && Open(s)
    ensures Agreed(Exec(Init(n), steps))
  {
    InitInv(n);
    RunInv(Init(n), steps);
    QuietAgrees(Exec(Init(n), steps));
  }

  // ----- what one step does to one shard -----

  ghost predicate Moves(sh: Shard, sh': Shard) {
    Newer(sh, sh') && Rank(sh'.lifecycle) >= Rank(sh.lifecycle)
  }

  lemma StatementMoves(sh: Shard, i: nat, reason: nat, hold: bool, sequence: nat)
    ensures reason < REASON_BITS ==> Moves(sh, sh.Reported(i, reason, hold).0)
    ensures Moves(sh, sh.Answered(i, sequence).0)
  {
  }

  lemma HearingMoves(sh: Shard, update: Broadcast)
    ensures Moves(sh, sh.Heard(update)) && Moves(sh, sh.Heard(update).MarkedStarted())
  {
  }

  lemma LifecycleMoves(sh: Shard)
    ensures Moves(sh, sh.ShuttingDown()) && Rank(sh.ShuttingDown().lifecycle) >= 2
    ensures Moves(sh, sh.StoppedNow())
  {
  }

  ghost predicate AllMove(s: System, s': System) {
    |s'.shards| == |s.shards| && forall i :: 0 <= i < |s.shards| ==> Moves(s.shards[i], s'.shards[i])
  }

  lemma StepMoves(s: System, step: Step)
    requires Shape(s) && Enabled(s, step)
    ensures AllMove(s, Do(s, step))
  {
    match step
    case Report(i, reason, hold) => StatementMoves(s.shards[i], i, reason, hold, 0);
    case AnswerStatement(i, c) => StatementMoves(s.shards[i], i, 0, false, s.calls[i][c].st.sequence);
    case DeliverBroadcast(f, i) => HearingMoves(s.shards[i], s.flights[f].update);
    case DeliverSettled(o, i) => HearingMoves(s.shards[i], s.starts[o].settled);
    case BeginShutdown => LifecycleMoves(s.shards[0]);
    case DeliverDrain(i) => LifecycleMoves(s.shards[i]);
    case Stop(i) => LifecycleMoves(s.shards[i]);
    case _ =>
  }

  // ----- views only move forward -----

  lemma StepHistory(s: System, step: Step)
    requires Shape(s) && Enabled(s, step)
    ensures s.history <= Do(s, step).history
  {
    match step
    case DeliverStatement(i, c) => assert s.history <= Absorbed(s, s.calls[i][c].st).history;
    case Settle(o) => AbsorbedAllHistory(s, Samples(s, o));
    case _ =>
  }

  lemma {:induction false} AbsorbedAllHistory(s: System, sts: seq<Statement>)
    requires Shape(s)
    ensures s.history <= AbsorbedAll(s, sts).history
  {
    if sts != [] {
      AbsorbedAllHistory(s, sts[..|sts| - 1]);
    }
  }

  /** Along any run a shard's view moves only forward through the one history of numbered sets:
      a version once numbered never changes its set, and no view ever goes back. */
  lemma {:induction false} RunAdvances(s: System, steps: seq<Step>)
    requires Inv(s) && Runs(s, steps)
    ensures Advances(s, Exec(s, steps))
    ensures var s' := Exec(s, steps);
            forall i :: 0 <= i < |s'.shards| ==> Numbered(s', Broadcast(s'.shards[i].view, s'.shards[i].viewVersion))
    decreases |steps|
  {
    RunInv(s, steps);
    var s' := Exec(s, steps);
    forall i | 0 <= i < |s'.shards|
      ensures Numbered(s', Broadcast(s'.shards[i].view, s'.shards[i].viewVersion))
    {
      assert ViewOk(s', i);
    }
    if steps != [] {
      var s1 := Do(s, steps[0]);
      StepInv(s, steps[0]);
      StepMoves(s, steps[0]);
      StepHistory(s, steps[0]);
      RunAdvances(s1, steps[1..]);
      forall i | 0 <= i < |s.shards| ensures Newer(s.shards[i], s'.shards[i]) {
        assert Moves(s.shards[i], s1.shards[i]) && Newer(s1.shards[i], s'.shards[i]);
      }
    }
  }

  // ----- draining is final -----

  ghost predicate DrainOk(s: System) {
    s.draining ==> forall i :: 0 <= i < |s.shards| && i !in s.drains ==> Rank(s.shards[i].lifecycle) >= 2
  }

  lemma StepDrains(s: System, step: Step)
    requires Shape(s) && Enabled(s, step) && DrainOk(s)
    ensures DrainOk(Do(s, step))
  {
    StepMoves(s, step);
    var s' := Do(s, step);
    if step.DeliverDrain? {
      LifecycleMoves(s.shards[step.shard]);
    }
    forall i | s'.draining && 0 <= i < |s.shards| && i !in s'.drains ensures Rank(s'.shards[i].lifecycle) >= 2 {
      assert Moves(s.shards[i], s'.shards[i]);
    }
  }

  lemma {:induction false} RunMoves(s: System, steps: seq<Step>)
    requires Shape(s) && Runs(s, steps) && DrainOk(s)
    ensures AllMove(s, Exec(s, steps)) && DrainOk(Exec(s, steps))
    decreases |steps|
  {
    if steps != [] {
      var s1, s' := Do(s, steps[0]), Exec(s, steps);
      StepMoves(s, steps[0]);
      StepDrains(s, steps[0]);
      RunMoves(s1, steps[1..]);
      forall i | 0 <= i < |s.shards| ensures Moves(s.shards[i], s'.shards[i]) {
        assert Moves(s.shards[i], s1.shards[i]) && Moves(s1.shards[i], s'.shards[i]);
      }
    }
  }

  /** Once a shard has heard the shutdown it is never ready again, whatever is restored, however
      late a start's mark arrives, and whether or not another start or shutdown follows. */
  lemma DrainingIsFinal(n: nat, before: seq<Step>, after: seq<Step>, i: nat)
    requires n > 0 && Runs(Init(n), before)
    requires var s := Exec(Init(n), before);
      i < |s.shards| && (s.shards[i].lifecycle == Draining || (s.draining && i !in s.drains)) && Runs(s, after)
    ensures var s := Exec(Init(n), before); |Exec(s, after).shards| == |s.shards| && !Exec(s, after).shards[i].Ready()
  {
    RunMoves(Init(n), before);
    var s := Exec(Init(n), before);
    RunMoves(s, after);
    assert Moves(s.shards[i], Exec(s, after).shards[i]);
  }

  // ----- a start cannot overlook a reason that was held when its shard was sampled -----

  /** Which starts are followed: one of them, or every one there is and will be. */
  datatype Scope = One(start: nat) | Every

  ghost predicate Covers(scope: Scope, o: nat) {
    scope.One? ==> o == scope.start
  }

  /** The shards those starts have reached: the ones that were handed the one start's set, or any that started. */
  ghost predicate Reached(s: System, i: nat, scope: Scope)
    requires Shape(s) && i < |s.shards|
  {
    match scope
    case One(o) => HandedBy(s, o, i)
    case Every => s.shards[i].lifecycle == Started
  }

  /** Shard k states reason b from its statement q on, and whatever has been handed out or heard
      since a start settled on that statement says so. */
  ghost predicate Pinned(s: System, k: nat, b: nat, q: nat, scope: Scope)
    requires Shape(s)
  {
    && k < |s.shards| && (scope.One? ==> scope.start < |s.starts|)
    && PinnedShard(s.shards[k], s.calls[k], Entry(s, k), b, q)
    && (forall o :: 0 <= o < |s.starts| ==> PinnedStart(s, s.starts[o], k, b, q, Covers(scope, o)))
    && (forall i :: 0 <= i < |s.shards| && Reached(s, i, scope) ==> PinnedSince(s, k, b, q, s.shards[i].viewVersion))
  }

  ghost predicate Says(st: Statement, b: nat, q: nat) {
    st.sequence >= q ==> b in st.reasons
  }

  ghost predicate PinnedShard(sh: Shard, calls: seq<Call>, entry: Statement, b: nat, q: nat) {
    && b in sh.held && q <= sh.statement
    && Says(entry, b, q)
    && forall c :: 0 <= c < |calls| ==> Says(calls[c].st, b, q)
  }

  ghost predicate PinnedStart(s: System, start: Start, k: nat, b: nat, q: nat, followed: bool)
    requires Shape(s) && k < |s.shards|
  {
    match start
    case Sampling(sampled) =>
      k < |sampled| && (sampled[k].Some? ==>
                          Says(sampled[k].value, b, q) && (followed ==> sampled[k].value.sequence >= q))
    case Handing(settled, _) => followed ==> PinnedSince(s, k, b, q, settled.version)
  }

  /** The owner has the statement, and every set numbered from v on has the reason. */
  ghost predicate PinnedSince(s: System, k: nat, b: nat, q: nat, v: nat)
    requires Shape(s) && k < |s.shards|
  {
    && s.owner.sequences[k] >= q
    && forall u :: v <= u < |s.history| ==> b in s.history[u]
  }

  lemma AbsorbedPinned(s: System, st: Statement, k: nat, b: nat, q: nat, scope: Scope)
    requires Core(s) && Pinned(s, k, b, q, scope) && Truthful(s, st)
    requires st.shard == k ==> Says(st, b, q)
    ensures Pinned(Absorbed(s, st), k, b, q, scope)
  {
    var s' := Absorbed(s, st);
    assert Entry(s', k) == Entry(s, k) || Entry(s', k) == st;
    if s'.owner.sequences[k] >= q {
      assert b in s'.owner.held[k];
      OwnerHasReason(s'.owner, k, b);
    }
    forall v | PinnedSince(s, k, b, q, v) ensures PinnedSince(s', k, b, q, v) {
    }
    forall o | 0 <= o < |s.starts| ensures PinnedStart(s', s'.starts[o], k, b, q, Covers(scope, o)) {
      assert PinnedStart(s, s.starts[o], k, b, q, Covers(scope, o));
    }
  }

  lemma OwnerHasReason(o: Owner, k: nat, b: nat)
    requires k < |o.held| && b in o.held[k]
    ensures b in Union(o.held)
  {
  }

  lemma {:induction false} AbsorbedAllPinned(s: System, sts: seq<Statement>, k: nat, b: nat, q: nat, scope: Scope)
    requires Core(s) && Pinned(s, k, b, q, scope)
    requires forall j :: 0 <= j < |sts| ==> Truthful(s, sts[j]) && (sts[j].shard == k ==> Says(sts[j], b, q))
    ensures Pinned(AbsorbedAll(s, sts), k, b, q, scope)
  {
    if sts != [] {
      var most, last := sts[..|sts| - 1], sts[|sts| - 1];
      forall j | 0 <= j < |most| ensures Truthful(s, most[j]) && (most[j].shard == k ==> Says(most[j], b, q)) {
        assert most[j] == sts[j];
      }
      AbsorbedAllCore(s, most);
      AbsorbedAllPinned(s, most, k, b, q, scope);
      var s1 := AbsorbedAll(s, most);
      assert Truthful(s, last) && Truthful(s1, last);
      AbsorbedPinned(s1, last, k, b, q, scope);
    }
  }

  /** A step that leaves the owner alone keeps the pin if shard k does and no start or started
      shard falls behind what it was handed. */
  lemma PinnedKept(s: System, s': System, k: nat, b: nat, q: nat, scope: Scope)
    requires Shape(s) && Pinned(s, k, b, q, scope)
    requires Shape(s') && s'.owner == s.owner && s'.history == s.history && |s'.shards| == |s.shards|
    requires PinnedShard(s'.shards[k], s'.calls[k], Entry(s, k), b, q)
    requires s'.starts == s.starts
    requires forall i :: 0 <= i < |s.shards| ==> s'.shards[i].viewVersion >= s.shards[i].viewVersion
    requires forall i ::
      0 <= i < |s.shards| ==> (s'.shards[i].lifecycle == Started ==> s.shards[i].lifecycle == Started)
    ensures Pinned(s', k, b, q, scope)
  {
    forall o | 0 <= o < |s.starts| ensures PinnedStart(s', s'.starts[o], k, b, q, Covers(scope, o)) {
      assert PinnedStart(s, s.starts[o], k, b, q, Covers(scope, o));
    }
    forall i | 0 <= i < |s.shards| && Reached(s', i, scope)
      ensures PinnedSince(s', k, b, q, s'.shards[i].viewVersion)
    {
      assert Reached(s, i, scope) && PinnedSince(s, k, b, q, s.shards[i].viewVersion);
    }
  }

  lemma StartsPinned(s: System, starts: seq<Start>, k: nat, b: nat, q: nat, scope: Scope)
    requires Shape(s) && Pinned(s, k, b, q, scope) && Shape(s.(starts := starts))
    requires |s.starts| <= |starts|
    requires forall p :: 0 <= p < |starts| ==> PinnedStart(s, starts[p], k, b, q, Covers(scope, p))
    requires forall i :: 0 <= i < |s.shards| && Reached(s.(starts := starts), i, scope) ==> Reached(s, i, scope)
    ensures Pinned(s.(starts := starts), k, b, q, scope)
  {
    var s' := s.(starts := starts);
    forall p | 0 <= p < |starts| ensures PinnedStart(s', starts[p], k, b, q, Covers(scope, p)) {
      assert PinnedStart(s, starts[p], k, b, q, Covers(scope, p));
    }
    forall i | 0 <= i < |s.shards| && Reached(s', i, scope)
      ensures PinnedSince(s', k, b, q, s.shards[i].viewVersion)
    {
      assert PinnedSince(s, k, b, q, s.shards[i].viewVersion);
    }
  }

  lemma ReportPinned(s: System, i: nat, reason: nat, hold: bool, k: nat, b: nat, q: nat, scope: Scope)
    requires Inv(s) && Enabled(s, Report(i, reason, hold)) && Pinned(s, k, b, q, scope)
    requires b in DoReport(s, i, reason, hold).shards[k].held
    ensures Pinned(DoReport(s, i, reason, hold), k, b, q, scope)
  {
    var s' := DoReport(s, i, reason, hold);
    PinnedKept(s, s', k, b, q, scope);
  }

  lemma DeliverStatementPinned(s: System, i: nat, c: nat, k: nat, b: nat, q: nat, scope: Scope)
    requires Inv(s) && Enabled(s, DeliverStatement(i, c)) && Pinned(s, k, b, q, scope)
    ensures Pinned(DoDeliverStatement(s, i, c), k, b, q, scope)
  {
    var s' := DoDeliverStatement(s, i, c);
    assert StatementsOk(s, i);
    AbsorbedPinned(s, s.calls[i][c].st, k, b, q, scope);
    PinnedKept(Absorbed(s, s.calls[i][c].st), s', k, b, q, scope);
  }

  lemma AnswerStatementPinned(s: System, i: nat, c: nat, k: nat, b: nat, q: nat, scope: Scope)
    requires Inv(s) && Enabled(s, AnswerStatement(i, c)) && Pinned(s, k, b, q, scope)
    ensures Pinned(DoAnswerStatement(s, i, c), k, b, q, scope)
  {
    PinnedKept(s, DoAnswerStatement(s, i, c), k, b, q, scope);
  }

  lemma SamplePinned(s: System, o: nat, i: nat, k: nat, b: nat, q: nat, scope: Scope)
    requires Inv(s) && Enabled(s, Sample(o, i)) && Pinned(s, k, b, q, scope)
    ensures Pinned(DoSample(s, o, i), k, b, q, scope)
  {
    assert PinnedStart(s, s.starts[o], k, b, q, Covers(scope, o));
    StartsPinned(s, DoSample(s, o, i).starts, k, b, q, scope);
  }

  lemma SamplesSay(s: System, o: nat, k: nat, b: nat, q: nat, scope: Scope)
    requires Inv(s) && Enabled(s, Settle(o)) && Pinned(s, k, b, q, scope)
    ensures var sts := Samples(s, o);
      sts[k].shard == k && (Covers(scope, o) ==> sts[k].sequence >= q)
      && forall j :: 0 <= j < |sts| ==> Truthful(s, sts[j]) && (sts[j].shard == k ==> Says(sts[j], b, q))
  {
    assert StartOk(s, s.starts[o]) && PinnedStart(s, s.starts[o], k, b, q, Covers(scope, o));
  }

  lemma SettledSays(s1: System, k: nat, b: nat, q: nat)
    requires Core(s1) && k < |s1.shards| && s1.owner.sequences[k] >= q && b in s1.owner.held[k]
    ensures PinnedSince(s1, k, b, q, s1.owner.version)
  {
    OwnerHasReason(s1.owner, k, b);
  }

  lemma SamplesPinned(s: System, o: nat, k: nat, b: nat, q: nat, scope: Scope)
    requires Inv(s) && Enabled(s, Settle(o)) && Pinned(s, k, b, q, scope)
    ensures var s1 := AbsorbedAll(s, Samples(s, o));
      Core(s1) && Pinned(s1, k, b, q, scope) && (Covers(scope, o) ==> s1.owner.sequences[k] >= q)
  {
    var sts := Samples(s, o);
    SamplesSay(s, o, k, b, q, scope);
    AbsorbedAllCore(s, sts);
    AbsorbedAllPinned(s, sts, k, b, q, scope);
    if Covers(scope, o) {
      AbsorbAllCovers(s.owner, sts, k);
    }
  }

  lemma SettlePinned(s: System, o: nat, k: nat, b: nat, q: nat, scope: Scope)
    requires Inv(s) && Enabled(s, Settle(o)) && Pinned(s, k, b, q, scope)
    ensures Pinned(DoSettle(s, o), k, b, q, scope)
  {
    SamplesPinned(s, o, k, b, q, scope);
    var s1, starts := AbsorbedAll(s, Samples(s, o)), DoSettle(s, o).starts;
    if Covers(scope, o) {
      SettledSays(s1, k, b, q);
    }
    forall p | 0 <= p < |starts| ensures PinnedStart(s1, starts[p], k, b, q, Covers(scope, p)) {
      assert PinnedStart(s1, s1.starts[p], k, b, q, Covers(scope, p));
    }
    StartsPinned(s1, starts, k, b, q, scope);
  }

  lemma DeliverSettledPinned(s: System, o: nat, i: nat, k: nat, b: nat, q: nat, scope: Scope)
    requires Inv(s) && Enabled(s, DeliverSettled(o, i)) && Pinned(s, k, b, q, scope)
    ensures Pinned(DoDeliverSettled(s, o, i), k, b, q, scope)
  {
    var s' := DoDeliverSettled(s, o, i);
    assert PinnedStart(s, s.starts[o], k, b, q, Covers(scope, o));
    HearingMoves(s.shards[i], s.starts[o].settled);
    forall p | 0 <= p < |s'.starts| ensures PinnedStart(s', s'.starts[p], k, b, q, Covers(scope, p)) {
      assert PinnedStart(s, s.starts[p], k, b, q, Covers(scope, p));
    }
    forall j | 0 <= j < |s.shards| && Reached(s', j, scope)
      ensures PinnedSince(s', k, b, q, s'.shards[j].viewVersion)
    {
      if j == i && Covers(scope, o) {
        assert PinnedSince(s, k, b, q, s.starts[o].settled.version);
      } else {
        assert Reached(s, j, scope) && PinnedSince(s, k, b, q, s.shards[j].viewVersion);
      }
    }
  }

  ghost predicate Quietly(sh: Shard, sh': Shard) {
    && sh'.held == sh.held && sh'.statement == sh.statement && sh'.viewVersion >= sh.viewVersion
    && (sh'.lifecycle == Started ==> sh.lifecycle == Started)
  }

  lemma QuietSteps(sh: Shard, update: Broadcast)
    ensures Quietly(sh, sh.Heard(update)) && Quietly(sh, sh.ShuttingDown()) && Quietly(sh, sh.StoppedNow())
  {
  }

  lemma QuietPinned(s: System, i: nat, sh: Shard, s': System, k: nat, b: nat, q: nat, scope: Scope)
    requires Shape(s) && Pinned(s, k, b, q, scope) && i < |s.shards| && Quietly(s.shards[i], sh)
    requires s' == WithShard(s, i, sh).(flights := s'.flights, draining := s'.draining, drains := s'.drains)
    ensures Pinned(s', k, b, q, scope)
  {
    PinnedKept(s, s', k, b, q, scope);
  }

  lemma OtherPinned(s: System, step: Step, k: nat, b: nat, q: nat, scope: Scope)
    requires Inv(s) && Enabled(s, step) && Pinned(s, k, b, q, scope)
    requires step.DeliverBroadcast? || step.BeginShutdown? || step.DeliverDrain? || step.Observe? || step.Stop?
    ensures Pinned(Do(s, step), k, b, q, scope)
  {
    var s' := Do(s, step);
    var i := if step.BeginShutdown? then 0 else step.shard;
    QuietSteps(s.shards[i], if step.DeliverBroadcast? then s.flights[step.flight].update else Latest(s.owner));
    QuietPinned(s, i, s'.shards[i], s', k, b, q, scope);
  }

  lemma StatementPinned(s: System, step: Step, k: nat, b: nat, q: nat, scope: Scope)
    requires Inv(s) && Enabled(s, step) && Pinned(s, k, b, q, scope)
    requires step.Report? || step.DeliverStatement? || step.AnswerStatement? || step.AnswerBroadcast?
    requires k < |Do(s, step).shards| && b in Do(s, step).shards[k].held
    ensures Pinned(Do(s, step), k, b, q, scope)
  {
    match step
    case Report(i, reason, hold) => ReportPinned(s, i, reason, hold, k, b, q, scope);
    case DeliverStatement(i, c) => DeliverStatementPinned(s, i, c, k, b, q, scope);
    case AnswerStatement(i, c) => AnswerStatementPinned(s, i, c, k, b, q, scope);
    case AnswerBroadcast(f) => PinnedKept(s, DoAnswerBroadcast(s, f), k, b, q, scope);
  }

  lemma StartingPinned(s: System, step: Step, k: nat, b: nat, q: nat, scope: Scope)
    requires Inv(s) && Enabled(s, step) && Pinned(s, k, b, q, scope)
    requires step.BeginStart? || step.Sample? || step.Settle? || step.DeliverSettled?
    ensures Pinned(Do(s, step), k, b, q, scope)
  {
    match step
    case BeginStart => StartsPinned(s, Do(s, step).starts, k, b, q, scope);
    case Sample(o, i) => SamplePinned(s, o, i, k, b, q, scope);
    case Settle(o) => SettlePinned(s, o, k, b, q, scope);
    case DeliverSettled(o, i) => DeliverSettledPinned(s, o, i, k, b, q, scope);
  }

  lemma StepPinned(s: System, step: Step, k: nat, b: nat, q: nat, scope: Scope)
    requires Inv(s) && Enabled(s, step) && Pinned(s, k, b, q, scope)
    requires k < |Do(s, step).shards| && b in Do(s, step).shards[k].held
    ensures Pinned(Do(s, step), k, b, q, scope)
  {
    if step.Report? || step.DeliverStatement? || step.AnswerStatement? || step.AnswerBroadcast? {
      StatementPinned(s, step, k, b, q, scope);
    } else if step.BeginStart? || step.Sample? || step.Settle? || step.DeliverSettled? {
      StartingPinned(s, step, k, b, q, scope);
    } else {
      OtherPinned(s, step, k, b, q, scope);
    }
  }

  lemma {:induction false} RunPinned(s: System, steps: seq<Step>, k: nat, b: nat, q: nat, scope: Scope)
    requires Inv(s) && Runs(s, steps) && NotReleased(steps, k, b) && Pinned(s, k, b, q, scope)
    ensures Pinned(Exec(s, steps), k, b, q, scope)
    decreases |steps|
  {
    if steps != [] {
      var s1 := Do(s, steps[0]);
      StepHeld(s, steps[0], k, b);
      StepInv(s, steps[0]);
      StepPinned(s, steps[0], k, b, q, scope);
      RunPinned(s1, steps[1..], k, b, q, scope);
    }
  }

  /** No shard has been started or handed a settled set yet, and every start still sampling has
      shard k's latest statement or none. */
  ghost predicate NothingStarted(s: System, k: nat)
    requires Shape(s) && k < |s.shards|
  {
    && (forall i :: 0 <= i < |s.shards| ==> s.shards[i].lifecycle != Started)
    && forall o :: 0 <= o < |s.starts| ==>
         s.starts[o].Sampling?
         && (s.starts[o].sampled[k].Some? ==> s.starts[o].sampled[k].value.sequence == s.shards[k].statement)
  }

  /** Statements from q on say so, wherever they are, when q is the latest and its shard holds the reason. */
  lemma PinnedNow(s: System, k: nat, b: nat)
    requires Inv(s) && k < |s.shards| && b in s.shards[k].held
    ensures PinnedShard(s.shards[k], s.calls[k], Entry(s, k), b, s.shards[k].statement)
    ensures forall o :: 0 <= o < |s.starts| ==> PinnedStart(s, s.starts[o], k, b, s.shards[k].statement, false)
  {
    assert StatementsOk(s, k);
    forall p | 0 <= p < |s.starts| ensures PinnedStart(s, s.starts[p], k, b, s.shards[k].statement, false) {
      assert StartOk(s, s.starts[p]);
    }
  }

  lemma PinnedAtSample(s: System, o: nat, k: nat, b: nat)
    requires Inv(s) && k < |s.shards| && b in s.shards[k].held
    requires o < |s.starts| && s.starts[o].Sampling? && s.starts[o].sampled[k].Some?
    requires s.starts[o].sampled[k].value.sequence == s.shards[k].statement
    ensures Pinned(s, k, b, s.shards[k].statement, One(o))
  {
    PinnedNow(s, k, b);
  }

  lemma PinnedAtFirst(s: System, k: nat, b: nat)
    requires Inv(s) && k < |s.shards| && NothingStarted(s, k) && b in s.shards[k].held
    ensures Pinned(s, k, b, s.shards[k].statement, Every)
  {
    PinnedNow(s, k, b);
  }

  /** A view numbered from the pin on has the reason, so its shard is not ready. */
  lemma ReachedUnready(s: System, k: nat, b: nat, q: nat, scope: Scope, i: nat)
    requires Inv(s) && Pinned(s, k, b, q, scope) && i < |s.shards| && Reached(s, i, scope)
    ensures !s.shards[i].Ready()
  {
    assert ViewOk(s, i) && PinnedSince(s, k, b, q, s.shards[i].viewVersion);
  }

  /** A reason reported before a start samples its shard, and not released, keeps every shard that this start reaches
      from being ready ever after: whatever older statements, broadcasts and settled sets are still to arrive,
      whatever other starts have settled or settle later, and whatever else is reported, drained or stopped. */
  lemma SampledReasonKeepsUnready(n: nat, before: seq<Step>, o: nat, k: nat, b: nat, after: seq<Step>, i: nat)
    requires n > 0 && Runs(Init(n), before) && Outstanding(before, k, b)
    requires Enabled(Exec(Init(n), before), Sample(o, k))
    requires Runs(Do(Exec(Init(n), before), Sample(o, k)), after) && NotReleased(after, k, b)
    ensures var s' := Exec(Do(Exec(Init(n), before), Sample(o, k)), after);
      i < |s'.shards| && DeliverSettled(o, i) in after ==> !s'.shards[i].Ready()
  {
    InitInv(n);
    RunInv(Init(n), before);
    var s0 := Exec(Init(n), before);
    ShardsStay(Init(n), before);
    HeldExactly(n, before, k, b);
    StepInv(s0, Sample(o, k));
    var s := Do(s0, Sample(o, k));
    PinnedAtSample(s, o, k, b);
    RunPinned(s, after, k, b, s.shards[k].statement, One(o));
    RunInv(s, after);
    ShardsStay(s, after);
    var s' := Exec(s, after);
    if i < |s'.shards| && DeliverSettled(o, i) in after {
      RunHands(s, after, o, i);
      ReachedUnready(s', k, b, s.shards[k].statement, One(o), i);
    }
  }

  /** And before anything has started it keeps every shard from being ready, whichever start reaches it. */
  lemma FirstStartKeepsAllUnready(n: nat, before: seq<Step>, k: nat, b: nat, after: seq<Step>, i: nat)
    requires n > 0 && Runs(Init(n), before) && Outstanding(before, k, b)
    requires var s := Exec(Init(n), before); k < |s.shards| && NothingStarted(s, k) && Runs(s, after)
    requires NotReleased(after, k, b)
    ensures var s' := Exec(Exec(Init(n), before), after); i < |s'.shards| ==> !s'.shards[i].Ready()
  {
    InitInv(n);
    RunInv(Init(n), before);
    var s := Exec(Init(n), before);
    ShardsStay(Init(n), before);
    HeldExactly(n, before, k, b);
    PinnedAtFirst(s, k, b);
    RunPinned(s, after, k, b, s.shards[k].statement, Every);
    RunInv(s, after);
    var s' := Exec(s, after);
    if i < |s'.shards| && Reached(s', i, Every) {
      ReachedUnready(s', k, b, s.shards[k].statement, Every, i);
    }
  }
}
