/**
 The readiness protocol across shards as a labelled transition system: reports,
 statements to the owner, broadcasts back, the settled start and the shutdown,
 with every message delayed as long as the schedule likes
 (src/admin/admin_state.cc, src/admin/admin_server.cc).

 The initial state is the one a started admin server has: a reporter can be
 obtained, and a start or a shutdown requested, only from then on.
 */
module ReadinessProtocol {
  import opened Units
  import opened Readiness
  import opened AdminState

  /** A statement sent to the owner and not yet answered; `delivered` once the owner has it. */
  datatype Call = Call(st: Statement, delivered: bool)

  /** A broadcast not yet answered by every shard; `pending` has not heard it. */
  datatype Flight = Flight(update: Broadcast, pending: set<nat>)

  /** One run of start_every_shard: sampling each shard, then handing out the settled set. */
  datatype Start =
    | Sampling(sampled: seq<Option<Statement>>)
    | Handing(settled: Broadcast, pending: set<nat>)

  /** `history[v]` is the set the owner numbered v; it is not part of the running system. */
  datatype System = System(
    shards: seq<Shard>, owner: Owner, calls: seq<seq<Call>>,
    broadcasting: bool, flights: seq<Flight>, starts: seq<Start>,
    draining: bool, drains: set<nat>, history: seq<Reasons>)

  datatype Step =
    | Report(shard: nat, reason: nat, hold: bool)
    | DeliverStatement(shard: nat, call: nat)
    | AnswerStatement(shard: nat, call: nat)
    | DeliverBroadcast(flight: nat, shard: nat)
    | AnswerBroadcast(flight: nat)
    | BeginStart
    | Sample(start: nat, shard: nat)
    | Settle(start: nat)
    | DeliverSettled(start: nat, shard: nat)
    | BeginShutdown
    | DeliverDrain(shard: nat)
    | Observe(shard: nat)
    | Stop(shard: nat)

  function Below(n: nat): (r: set<nat>)
    ensures forall i: nat :: i in r <==> i < n
    ensures |r| == n
  {
    if n == 0 then {} else Below(n - 1) + {n - 1}
  }

  ghost function All(s: System): set<nat> {
    Below(|s.shards|)
  }

  ghost predicate Shape(s: System) {
    && |s.shards| > 0
    && |s.calls| == |s.shards|
    && |s.owner.held| == |s.shards|
    && Aligned(s.owner)
    && |s.history| == s.owner.version + 1
    && s.history[s.owner.version] == s.owner.reasons
    && forall o :: 0 <= o < |s.starts| && s.starts[o].Sampling? ==> |s.starts[o].sampled| == |s.shards|
  }

  ghost function Init(shards: nat): (s: System)
    requires shards > 0
    ensures Shape(s)
  {
    var sh := NewShard().(lifecycle := Live);
    System(seq(shards, _ => sh), NewOwner(shards), seq(shards, _ => []), false, [], [], false, {}, [{}])
  }

  // ----- the steps -----

  ghost predicate Enabled(s: System, step: Step)
    requires Shape(s)
  {
    match step
    case Report(i, reason, _) => i < |s.shards| && reason < REASON_BITS
    case DeliverStatement(i, c) => i < |s.shards| && c < |s.calls[i]| && !s.calls[i][c].delivered
    case AnswerStatement(i, c) => i < |s.shards| && c < |s.calls[i]| && s.calls[i][c].delivered
    case DeliverBroadcast(f, i) => f < |s.flights| && i < |s.shards| && i in s.flights[f].pending
    case AnswerBroadcast(f) => f < |s.flights| && s.flights[f].pending == {}
    case BeginStart => !s.draining
    case Sample(o, i) =>
      o < |s.starts| && i < |s.shards| && s.starts[o].Sampling? && s.starts[o].sampled[i].None?
    case Settle(o) =>
      o < |s.starts| && s.starts[o].Sampling? && forall i :: 0 <= i < |s.shards| ==> s.starts[o].sampled[i].Some?
    case DeliverSettled(o, i) =>
      o < |s.starts| && i < |s.shards| && s.starts[o].Handing? && i in s.starts[o].pending
    case BeginShutdown => true
    case DeliverDrain(i) => i < |s.shards| && i in s.drains
    case Observe(i) => i < |s.shards|
    case Stop(i) => i < |s.shards|
  }

  ghost function WithShard(s: System, i: nat, sh: Shard): System
    requires i < |s.shards|
  {
    s.(shards := s.shards[i := sh])
  }

  /** The owner takes one statement, numbering the union if it changed. */
  ghost function Absorbed(s: System, st: Statement): (s': System)
    requires Shape(s)
    ensures Shape(s')
  {
    var owner := Absorb(s.owner, st);
    s.(owner := owner,
       history := if owner.version == s.owner.version then s.history else s.history + [owner.reasons])
  }

  ghost function AbsorbedAll(s: System, sts: seq<Statement>): (s': System)
    requires Shape(s)
    ensures Shape(s')
    ensures s'.owner == AbsorbAll(s.owner, sts)
    ensures s' == s.(owner := s'.owner, history := s'.history)
  {
    if sts == [] then s else Absorbed(AbsorbedAll(s, sts[..|sts| - 1]), sts[|sts| - 1])
  }

  /** What the owner's shard sends is on its way to every shard. */
  ghost function Launched(s: System, sent: Option<Broadcast>): (s': System)
    requires Shape(s)
    ensures Shape(s')
  {
    match sent
    case None => s
    case Some(update) => s.(broadcasting := true, flights := s.flights + [Flight(update, All(s))])
  }

  ghost function Broadcasted(s: System): (s': System)
    requires Shape(s)
    ensures Shape(s')
  {
    Launched(s, Update(s.owner, s.shards[0].closed))
  }

  ghost function Sent(s: System, i: nat, sent: Option<Statement>): (s': System)
    requires Shape(s) && i < |s.shards|
    ensures Shape(s')
  {
    s.(calls := s.calls[i := WithCall(s.calls[i], sent)])
  }

  ghost function DoReport(s: System, i: nat, reason: nat, hold: bool): (s': System)
    requires Shape(s) && Enabled(s, Report(i, reason, hold))
    ensures Shape(s')
  {
    var (sh, sent) := s.shards[i].Reported(i, reason, hold);
    Sent(WithShard(s, i, sh), i, sent)
  }

  ghost function DoDeliverStatement(s: System, i: nat, c: nat): (s': System)
    requires Shape(s) && Enabled(s, DeliverStatement(i, c))
    ensures Shape(s')
  {
    var call := s.calls[i][c];
    var s1 := Absorbed(s, call.st).(calls := s.calls[i := s.calls[i][c := call.(delivered := true)]]);
    Launched(s1, UpdateOnStatement(s.owner, s1.owner, s.broadcasting, s.shards[0].closed))
  }

  ghost function DoAnswerStatement(s: System, i: nat, c: nat): (s': System)
    requires Shape(s) && Enabled(s, AnswerStatement(i, c))
    ensures Shape(s')
  {
    var call := s.calls[i][c];
    var s1 := s.(calls := s.calls[i := s.calls[i][..c] + s.calls[i][c + 1..]]);
    var (sh, sent) := s.shards[i].Answered(i, call.st.sequence);
    Sent(WithShard(s1, i, sh), i, sent)
  }

  ghost function DoDeliverBroadcast(s: System, f: nat, i: nat): (s': System)
    requires Shape(s) && Enabled(s, DeliverBroadcast(f, i))
    ensures Shape(s')
  {
    var flight := s.flights[f];
    WithShard(s, i, s.shards[i].Heard(flight.update))
      .(flights := s.flights[f := flight.(pending := flight.pending - {i})])
  }

  ghost function DoAnswerBroadcast(s: System, f: nat): (s': System)
    requires Shape(s) && Enabled(s, AnswerBroadcast(f))
    ensures Shape(s')
  {
    var s1 := s.(broadcasting := false, flights := s.flights[..f] + s.flights[f + 1..]);
    Launched(s1, UpdateOnAnswer(s.owner, s.flights[f].update.version, s.shards[0].closed))
  }

  ghost function DoSample(s: System, o: nat, i: nat): (s': System)
    requires Shape(s) && Enabled(s, Sample(o, i))
    ensures Shape(s')
  {
    var st := Statement(i, s.shards[i].held, s.shards[i].statement);
    s.(starts := s.starts[o := Sampling(s.starts[o].sampled[i := Some(st)])])
  }

  ghost function Samples(s: System, o: nat): (sts: seq<Statement>)
    requires Shape(s) && Enabled(s, Settle(o))
    ensures |sts| == |s.shards|
    ensures forall i :: 0 <= i < |s.shards| ==> sts[i] == s.starts[o].sampled[i].value
  {
    seq(|s.shards|, i requires 0 <= i < |s.shards| => s.starts[o].sampled[i].value)
  }

  /** The settled set goes to the shards with the start itself, never as a broadcast. */
  ghost function DoSettle(s: System, o: nat): (s': System)
    requires Shape(s) && Enabled(s, Settle(o))
    ensures Shape(s')
  {
    var s1 := AbsorbedAll(s, Samples(s, o));
    s1.(starts := s.starts[o := Handing(Latest(s1.owner), All(s))])
  }

  ghost function DoDeliverSettled(s: System, o: nat, i: nat): (s': System)
    requires Shape(s) && Enabled(s, DeliverSettled(o, i))
    ensures Shape(s')
  {
    var start := s.starts[o];
    WithShard(s, i, s.shards[i].Heard(start.settled).MarkedStarted())
      .(starts := s.starts[o := start.(pending := start.pending - {i})])
  }

  ghost function Do(s: System, step: Step): (s': System)
    requires Shape(s) && Enabled(s, step)
    ensures Shape(s')
  {
    match step
    case Report(i, reason, hold) => DoReport(s, i, reason, hold)
    case DeliverStatement(i, c) => DoDeliverStatement(s, i, c)
    case AnswerStatement(i, c) => DoAnswerStatement(s, i, c)
    case DeliverBroadcast(f, i) => DoDeliverBroadcast(s, f, i)
    case AnswerBroadcast(f) => DoAnswerBroadcast(s, f)
    case BeginStart => s.(starts := s.starts + [Sampling(seq(|s.shards|, _ => None))])
    case Sample(o, i) => DoSample(s, o, i)
    case Settle(o) => DoSettle(s, o)
    case DeliverSettled(o, i) => DoDeliverSettled(s, o, i)
    case BeginShutdown => WithShard(s, 0, s.shards[0].ShuttingDown()).(draining := true, drains := All(s))
    case DeliverDrain(i) => WithShard(s, i, s.shards[i].ShuttingDown()).(drains := s.drains - {i})
    case Observe(i) => WithShard(s, i, s.shards[i].(observed := Some((s.shards[i].Ready(), s.shards[i].view))))
    case Stop(i) => WithShard(s, i, s.shards[i].StoppedNow())
  }

  /** Steps of the owner and of a start before it hands out its set. */
  lemma ShardsKept(s: System, step: Step)
    requires Shape(s) && Enabled(s, step)
    requires step.DeliverStatement? || step.AnswerBroadcast? || step.BeginStart? || step.Sample? || step.Settle?
    ensures Do(s, step).shards == s.shards
  {
  }

  /** A schedule each of whose steps is enabled when its turn comes. */
  ghost predicate Runs(s: System, steps: seq<Step>)
    requires Shape(s)
    decreases |steps|
  {
    steps == [] || (Enabled(s, steps[0]) && Runs(Do(s, steps[0]), steps[1..]))
  }

  ghost function Exec(s: System, steps: seq<Step>): (s': System)
    requires Shape(s) && Runs(s, steps)
    ensures Shape(s')
    decreases |steps|
  {
    if steps == [] then s else Exec(Do(s, steps[0]), steps[1..])
  }

  // ----- what every step keeps -----

  /** The statement is one the shard made, and current unless the shard has made a newer one. */
  ghost predicate Made(sh: Shard, st: Statement) {
    st.sequence <= sh.statement && (st.sequence == sh.statement ==> st.reasons == sh.held)
  }

  ghost predicate Truthful(s: System, st: Statement) {
    st.shard < |s.shards| && Made(s.shards[st.shard], st)
  }

  ghost predicate Numbered(s: System, update: Broadcast) {
    update.version < |s.history| && update.reasons == s.history[update.version]
  }

  /** One shard, the owner's entry for it, and the calls between them: at most one call is out,
      and with none out the entry is current. */
  ghost predicate LinkOk(i: nat, sh: Shard, entry: Statement, calls: seq<Call>) {
    && entry.shard == i
    && Made(sh, entry)
    && |calls| <= 1
    && (sh.inFlight <==> calls != [])
    && (calls != [] ==>
          && calls[0].st.shard == i
          && Made(sh, calls[0].st)
          && (calls[0].delivered ==> calls[0].st.sequence <= entry.sequence))
    && (!sh.closed && calls == [] ==> entry.sequence == sh.statement)
  }

  ghost function Entry(s: System, i: nat): Statement
    requires Shape(s) && i < |s.shards|
  {
    Statement(i, s.owner.held[i], s.owner.sequences[i])
  }

  ghost predicate StatementsOk(s: System, i: nat)
    requires Shape(s) && i < |s.shards|
  {
    LinkOk(i, s.shards[i], Entry(s, i), s.calls[i])
  }

  ghost predicate ViewOk(s: System, i: nat)
    requires Shape(s) && i < |s.shards|
  {
    var sh := s.shards[i];
    && Numbered(s, Broadcast(sh.view, sh.viewVersion))
    && (sh.observed.Some? ==> sh.observed.value == (sh.Ready(), sh.view))
  }

  /** Everyone outside `pending` has heard the update or a newer one. */
  ghost predicate Handed(s: System, update: Broadcast, pending: set<nat>) {
    && Numbered(s, update)
    && (forall i :: i in pending ==> i < |s.shards|)
    && forall i :: 0 <= i < |s.shards| && i !in pending ==> s.shards[i].viewVersion >= update.version
  }

  ghost predicate StartOk(s: System, start: Start) {
    match start
    case Sampling(sampled) =>
      forall i ::
        0 <= i < |sampled| && sampled[i].Some? ==>
        sampled[i].value.shard == i && Truthful(s, sampled[i].value)
    case Handing(settled, pending) => Handed(s, settled, pending)
  }

  ghost predicate StatementsInv(s: System)
    requires Shape(s)
  {
    forall i :: 0 <= i < |s.shards| ==> StatementsOk(s, i)
  }

  ghost predicate ViewsInv(s: System)
    requires Shape(s)
  {
    forall i :: 0 <= i < |s.shards| ==> ViewOk(s, i)
  }

  ghost predicate HandedInv(s: System) {
    && |s.flights| <= 1
    && (s.broadcasting <==> s.flights != [])
    && (s.flights != [] ==> Handed(s, s.flights[0].update, s.flights[0].pending))
    && (forall o :: 0 <= o < |s.starts| ==> StartOk(s, s.starts[o]))
  }

  ghost predicate Core(s: System) {
    && Shape(s)
    && OwnerOk(s.owner)
    && StatementsInv(s)
    && ViewsInv(s)
    && HandedInv(s)
  }

  ghost predicate AwaitsStart(s: System, i: nat, o: nat) {
    o < |s.starts| && s.starts[o].Handing? && s.starts[o].settled.version == s.owner.version && i in s.starts[o].pending
  }

  /** Whoever has not heard the owner's latest set is going to. */
  ghost predicate WillHear(s: System, i: nat)
    requires i < |s.shards|
  {
    || s.shards[i].viewVersion == s.owner.version
    || s.broadcasting
    || exists o :: AwaitsStart(s, i, o)
  }

  ghost predicate Promise(s: System)
    requires Shape(s)
  {
    !s.shards[0].closed ==> forall i :: 0 <= i < |s.shards| ==> WillHear(s, i)
  }

  ghost predicate Inv(s: System) {
    Core(s) && Promise(s) && forall i :: i in s.drains ==> i < |s.shards|
  }

  // ----- each step keeps it -----

  lemma InitInv(n: nat)
    requires n > 0
    ensures Inv(Init(n))
  {
  }

  /** Taking a truthful statement keeps everything but the promise that everyone will hear. */
  lemma AbsorbedCore(s: System, st: Statement)
    requires Core(s) && Truthful(s, st)
    ensures Core(Absorbed(s, st))
    ensures st.sequence <= Absorbed(s, st).owner.sequences[st.shard]
  {
    var s' := Absorbed(s, st);
    assert s.history <= s'.history;
    forall i | 0 <= i < |s.shards| ensures StatementsOk(s', i) && ViewOk(s', i) {
      assert StatementsOk(s, i) && ViewOk(s, i);
    }
    forall o | 0 <= o < |s.starts| ensures StartOk(s', s.starts[o]) {
      assert StartOk(s, s.starts[o]);
    }
  }

  lemma {:induction false} AbsorbedAllCore(s: System, sts: seq<Statement>)
    requires Core(s) && forall j :: 0 <= j < |sts| ==> Truthful(s, sts[j])
    ensures Core(AbsorbedAll(s, sts))
  {
    if sts != [] {
      var most, last := sts[..|sts| - 1], sts[|sts| - 1];
      AbsorbedAllCore(s, most);
      var s1 := AbsorbedAll(s, most);
      assert Truthful(s, last);
      AbsorbedCore(s1, last);
    }
  }

  /** No shard takes a statement back, hears less than it had, or reopens its gate. */
  ghost predicate Advances(s: System, s': System) {
    && |s'.shards| == |s.shards|
    && s.history <= s'.history
    && forall i :: 0 <= i < |s.shards| ==> Newer(s.shards[i], s'.shards[i])
  }

  ghost predicate Newer(sh: Shard, sh': Shard) {
    && (sh'.statement > sh.statement || (sh'.statement == sh.statement && sh'.held == sh.held))
    && sh'.viewVersion >= sh.viewVersion
    && (sh.closed ==> sh'.closed)
  }

  lemma StartOkKept(s: System, s': System, start: Start)
    requires StartOk(s, start) && Advances(s, s')
    ensures StartOk(s', start)
  {
    match start
    case Sampling(sampled) =>
      forall i | 0 <= i < |sampled| && sampled[i].Some? ensures Truthful(s', sampled[i].value) {
        assert Truthful(s, sampled[i].value);
      }
    case Handing(_, _) =>
  }

  lemma HandedKept(s: System, s': System)
    requires HandedInv(s) && Advances(s, s')
    requires s'.flights == s.flights && s'.broadcasting == s.broadcasting && s'.starts == s.starts
    ensures HandedInv(s')
  {
    forall o | 0 <= o < |s.starts| ensures StartOk(s', s.starts[o]) {
      StartOkKept(s, s', s.starts[o]);
    }
  }

  /** The promise survives a step that changes neither the owner nor a message to come. */
  lemma PromiseKept(s: System, s': System)
    requires Shape(s) && Shape(s') && Promise(s) && Advances(s, s') && ViewsInv(s')
    requires s'.owner.version == s.owner.version && s'.starts == s.starts
    requires s.broadcasting ==> s'.broadcasting
    ensures Promise(s')
  {
    forall i | !s'.shards[0].closed && 0 <= i < |s.shards| ensures WillHear(s', i) {
      assert WillHear(s, i) && Newer(s.shards[i], s'.shards[i]) && ViewOk(s', i);
      if o :| AwaitsStart(s, i, o) {
        assert AwaitsStart(s', i, o);
      }
    }
  }

  function WithCall(calls: seq<Call>, sent: Option<Statement>): seq<Call> {
    if sent.None? then calls else calls + [Call(sent.value, false)]
  }

  lemma ReportLink(i: nat, sh: Shard, entry: Statement, calls: seq<Call>, reason: nat, hold: bool)
    requires LinkOk(i, sh, entry, calls) && reason < REASON_BITS
    ensures var (sh', sent) := sh.Reported(i, reason, hold);
            LinkOk(i, sh', entry, WithCall(calls, sent)) && Newer(sh, sh')
  {
  }

  lemma ReportInv(s: System, i: nat, reason: nat, hold: bool)
    requires Inv(s) && Enabled(s, Report(i, reason, hold))
    ensures Inv(DoReport(s, i, reason, hold))
  {
    var s' := DoReport(s, i, reason, hold);
    assert StatementsOk(s, i);
    ReportLink(i, s.shards[i], Entry(s, i), s.calls[i], reason, hold);
    assert ViewsInv(s') by {
      forall j | 0 <= j < |s.shards| ensures ViewOk(s', j) {
        assert ViewOk(s, j);
      }
    }
    assert StatementsInv(s') by {
      forall j | 0 <= j < |s.shards| ensures StatementsOk(s', j) {
        assert StatementsOk(s, j);
      }
    }
    HandedKept(s, s');
    PromiseKept(s, s');
  }

  /** A fresh broadcast reaches everyone, so it restores the promise. */
  lemma BroadcastedInv(s: System)
    requires Core(s) && !s.broadcasting
    ensures Core(Broadcasted(s)) && Promise(Broadcasted(s))
  {
    var s' := Broadcasted(s);
    forall i | 0 <= i < |s.shards| ensures StatementsOk(s', i) && ViewOk(s', i) {
      assert StatementsOk(s, i) && ViewOk(s, i);
    }
    forall o | 0 <= o < |s.starts| ensures StartOk(s', s'.starts[o]) {
      StartOkKept(s, s', s.starts[o]);
    }
  }

  /** The call is marked delivered once the owner's entry is at least as new. */
  lemma DeliveredCore(s: System, i: nat, c: nat)
    requires Core(s) && i < |s.shards| && c < |s.calls[i]|
    requires s.calls[i][c].st.sequence <= s.owner.sequences[i]
    ensures Core(s.(calls := s.calls[i := s.calls[i][c := s.calls[i][c].(delivered := true)]]))
  {
    var s' := s.(calls := s.calls[i := s.calls[i][c := s.calls[i][c].(delivered := true)]]);
    forall j | 0 <= j < |s.shards| ensures StatementsOk(s', j) && ViewOk(s', j) {
      assert StatementsOk(s, j) && ViewOk(s, j);
    }
    HandedKept(s, s');
  }

  lemma DeliverStatementInv(s: System, i: nat, c: nat)
    requires Inv(s) && Enabled(s, DeliverStatement(i, c))
    ensures Inv(DoDeliverStatement(s, i, c))
  {
    var call := s.calls[i][c];
    assert StatementsOk(s, i);
    AbsorbedCore(s, call.st);
    var s0 := Absorbed(s, call.st);
    DeliveredCore(s0, i, c);
    var s1 := s0.(calls := s.calls[i := s.calls[i][c := call.(delivered := true)]]);
    if s1.owner.version == s.owner.version {
      PromiseKept(s, s1);
    } else if !s.broadcasting {
      BroadcastedInv(s1);
    }
  }

  lemma AnswerLink(i: nat, sh: Shard, entry: Statement, calls: seq<Call>, c: nat)
    requires LinkOk(i, sh, entry, calls) && c < |calls| && calls[c].delivered
    ensures var (sh', sent) := sh.Answered(i, calls[c].st.sequence);
            LinkOk(i, sh', entry, WithCall(calls[..c] + calls[c + 1..], sent)) && Newer(sh, sh')
  {
    assert calls[..c] + calls[c + 1..] == [];
  }

  lemma AnswerStatementInv(s: System, i: nat, c: nat)
    requires Inv(s) && Enabled(s, AnswerStatement(i, c))
    ensures Inv(DoAnswerStatement(s, i, c))
  {
    var s' := DoAnswerStatement(s, i, c);
    assert StatementsOk(s, i);
    AnswerLink(i, s.shards[i], Entry(s, i), s.calls[i], c);
    assert StatementsInv(s') by {
      forall j | 0 <= j < |s.shards| ensures StatementsOk(s', j) {
        assert StatementsOk(s, j);
      }
    }
    assert ViewsInv(s') by {
      forall j | 0 <= j < |s.shards| ensures ViewOk(s', j) {
        assert ViewOk(s, j);
      }
    }
    HandedKept(s, s');
    PromiseKept(s, s');
  }

  /** A shard hears a numbered set, or only its lifecycle or observer changes. */
  ghost predicate Listens(s: System, sh: Shard, sh': Shard) {
    && sh'.held == sh.held && sh'.statement == sh.statement && sh'.inFlight == sh.inFlight
    && (sh.closed ==> sh'.closed)
    && sh'.viewVersion >= sh.viewVersion
    && Numbered(s, Broadcast(sh'.view, sh'.viewVersion))
    && (sh'.observed.Some? ==> sh'.observed.value == (sh'.Ready(), sh'.view))
  }

  lemma HeardListens(s: System, i: nat, update: Broadcast)
    requires Shape(s) && i < |s.shards| && ViewOk(s, i) && Numbered(s, update)
    ensures Listens(s, s.shards[i], s.shards[i].Heard(update))
    ensures Listens(s, s.shards[i], s.shards[i].Heard(update).MarkedStarted())
    ensures s.shards[i].Heard(update).MarkedStarted().viewVersion >= update.version
  {
  }

  lemma LocalListens(s: System, i: nat)
    requires Shape(s) && i < |s.shards| && ViewOk(s, i)
    ensures Listens(s, s.shards[i], s.shards[i].ShuttingDown())
    ensures Listens(s, s.shards[i], s.shards[i].StoppedNow())
  {
  }

  lemma ListensInv(s: System, i: nat, sh': Shard)
    requires Inv(s) && i < |s.shards| && Listens(s, s.shards[i], sh')
    ensures Inv(WithShard(s, i, sh'))
  {
    var s' := WithShard(s, i, sh');
    forall j | 0 <= j < |s.shards| ensures StatementsOk(s', j) && ViewOk(s', j) {
      assert StatementsOk(s, j) && ViewOk(s, j);
    }
    HandedKept(s, s');
    PromiseKept(s, s');
  }

  lemma DeliverBroadcastInv(s: System, f: nat, i: nat)
    requires Inv(s) && Enabled(s, DeliverBroadcast(f, i))
    ensures Inv(DoDeliverBroadcast(s, f, i))
  {
    HeardListens(s, i, s.flights[f].update);
    var s1 := WithShard(s, i, s.shards[i].Heard(s.flights[f].update));
    ListensInv(s, i, s1.shards[i]);
    var s' := DoDeliverBroadcast(s, f, i);
    forall j | 0 <= j < |s.shards| ensures StatementsOk(s', j) && ViewOk(s', j) {
      assert StatementsOk(s1, j) && ViewOk(s1, j);
    }
    forall o | 0 <= o < |s.starts| ensures StartOk(s', s'.starts[o]) {
      StartOkKept(s1, s', s.starts[o]);
    }
  }

  lemma AnswerBroadcastInv(s: System, f: nat)
    requires Inv(s) && Enabled(s, AnswerBroadcast(f))
    ensures Inv(DoAnswerBroadcast(s, f))
  {
    var s1 := s.(broadcasting := false, flights := s.flights[..f] + s.flights[f + 1..]);
    forall j | 0 <= j < |s.shards| ensures StatementsOk(s1, j) && ViewOk(s1, j) {
      assert StatementsOk(s, j) && ViewOk(s, j);
    }
    forall o | 0 <= o < |s.starts| ensures StartOk(s1, s1.starts[o]) {
      StartOkKept(s, s1, s.starts[o]);
    }
    if s.owner.version == s.flights[f].update.version {
      forall i | 0 <= i < |s.shards| ensures WillHear(s1, i) {
        assert ViewOk(s, i);
      }
    } else {
      BroadcastedInv(s1);
    }
  }

  /** One start changes and the rest of the system stays. */
  lemma StartsInv(s: System, o: nat, start: Start)
    requires Inv(s) && o <= |s.starts| && StartOk(s, start)
    requires start.Sampling? ==> |start.sampled| == |s.shards|
    requires o < |s.starts| && s.starts[o].Handing? ==>
      start.Handing? && start.settled == s.starts[o].settled
      && forall i :: 0 <= i < |s.shards| && i in s.starts[o].pending && i !in start.pending
           ==> s.shards[i].viewVersion >= start.settled.version
    ensures Inv(s.(starts := if o == |s.starts| then s.starts + [start] else s.starts[o := start]))
  {
    var s' := s.(starts := if o == |s.starts| then s.starts + [start] else s.starts[o := start]);
    forall j | 0 <= j < |s.shards| ensures StatementsOk(s', j) && ViewOk(s', j) {
      assert StatementsOk(s, j) && ViewOk(s, j);
    }
    forall k | 0 <= k < |s'.starts| ensures StartOk(s', s'.starts[k]) {
      StartOkKept(s, s', s'.starts[k]);
    }
    forall i | !s.shards[0].closed && 0 <= i < |s.shards| ensures WillHear(s', i) {
      assert WillHear(s, i) && ViewOk(s, i);
      if k :| AwaitsStart(s, i, k) {
        assert AwaitsStart(s', i, k) || s.shards[i].viewVersion == s.owner.version;
      }
    }
  }

  lemma SampleInv(s: System, o: nat, i: nat)
    requires Inv(s) && Enabled(s, Sample(o, i))
    ensures Inv(DoSample(s, o, i))
  {
    assert StartOk(s, s.starts[o]);
    StartsInv(s, o, DoSample(s, o, i).starts[o]);
  }

  lemma SettleInv(s: System, o: nat)
    requires Inv(s) && Enabled(s, Settle(o))
    ensures Inv(DoSettle(s, o))
  {
    var sts := Samples(s, o);
    assert StartOk(s, s.starts[o]);
    AbsorbedAllCore(s, sts);
    var s1, s' := AbsorbedAll(s, sts), DoSettle(s, o);
    forall j | 0 <= j < |s.shards| ensures StatementsOk(s', j) && ViewOk(s', j) {
      assert StatementsOk(s1, j) && ViewOk(s1, j);
    }
    forall k | 0 <= k < |s'.starts| ensures StartOk(s', s'.starts[k]) {
      if k != o {
        StartOkKept(s1, s', s1.starts[k]);
      }
    }
    forall i | 0 <= i < |s.shards| ensures WillHear(s', i) {
      assert AwaitsStart(s', i, o);
    }
  }

  lemma DeliverSettledInv(s: System, o: nat, i: nat)
    requires Inv(s) && Enabled(s, DeliverSettled(o, i))
    ensures Inv(DoDeliverSettled(s, o, i))
  {
    var start := s.starts[o];
    assert ViewOk(s, i) && StartOk(s, start);
    HeardListens(s, i, start.settled);
    HandOver(s, o, i, s.shards[i].Heard(start.settled).MarkedStarted());
  }

  lemma HandOver(s: System, o: nat, i: nat, sh: Shard)
    requires Inv(s) && Enabled(s, DeliverSettled(o, i))
    requires Listens(s, s.shards[i], sh) && sh.viewVersion >= s.starts[o].settled.version
    ensures Inv(WithShard(s, i, sh).(starts := s.starts[o := Handing(s.starts[o].settled, s.starts[o].pending - {i})]))
  {
    ListensInv(s, i, sh);
    var s1 := WithShard(s, i, sh);
    assert StartOk(s1, s1.starts[o]);
    StartsInv(s1, o, Handing(s.starts[o].settled, s.starts[o].pending - {i}));
  }

  /** The whole protocol keeps its invariant: every step, from any state that has it. */
  lemma StepInv(s: System, step: Step)
    requires Inv(s) && Enabled(s, step)
    ensures Inv(Do(s, step))
  {
    match step
    case Report(i, reason, hold) => ReportInv(s, i, reason, hold);
    case DeliverStatement(i, c) => DeliverStatementInv(s, i, c);
    case AnswerStatement(i, c) => AnswerStatementInv(s, i, c);
    case DeliverBroadcast(f, i) => DeliverBroadcastInv(s, f, i);
    case AnswerBroadcast(f) => AnswerBroadcastInv(s, f);
    case BeginStart => StartsInv(s, |s.starts|, Sampling(seq(|s.shards|, _ => None)));
    case Sample(o, i) => SampleInv(s, o, i);
    case Settle(o) => SettleInv(s, o);
    case DeliverSettled(o, i) => DeliverSettledInv(s, o, i);
    case BeginShutdown => DrainInv(s, 0, true, All(s));
    case DeliverDrain(i) => DrainInv(s, i, s.draining, s.drains - {i});
    case Observe(i) => ObserveInv(s, i);
    case Stop(i) => StopInv(s, i);
  }

  lemma DrainInv(s: System, i: nat, draining: bool, drains: set<nat>)
    requires Inv(s) && i < |s.shards| && forall j :: j in drains ==> j < |s.shards|
    ensures Inv(WithShard(s, i, s.shards[i].ShuttingDown()).(draining := draining, drains := drains))
  {
    assert ViewOk(s, i);
    LocalListens(s, i);
    LocalInv(s, i, s.shards[i].ShuttingDown(), draining, drains);
  }

  lemma ObserveInv(s: System, i: nat)
    requires Inv(s) && i < |s.shards|
    ensures Inv(WithShard(s, i, s.shards[i].(observed := Some((s.shards[i].Ready(), s.shards[i].view)))))
  {
    assert ViewOk(s, i);
    ListensInv(s, i, s.shards[i].(observed := Some((s.shards[i].Ready(), s.shards[i].view))));
  }

  lemma StopInv(s: System, i: nat)
    requires Inv(s) && i < |s.shards|
    ensures Inv(WithShard(s, i, s.shards[i].StoppedNow()))
  {
    assert ViewOk(s, i);
    LocalListens(s, i);
    ListensInv(s, i, s.shards[i].StoppedNow());
  }

  /** Steps that touch one shard's lifecycle or observer and the server's shutdown flags. */
  lemma LocalInv(s: System, i: nat, sh: Shard, draining: bool, drains: set<nat>)
    requires Inv(s) && i < |s.shards|
    requires Listens(s, s.shards[i], sh) && forall j :: j in drains ==> j < |s.shards|
    ensures Inv(WithShard(s, i, sh).(draining := draining, drains := drains))
  {
    ListensInv(s, i, sh);
    var s1 := WithShard(s, i, sh);
    var s' := s1.(draining := draining, drains := drains);
    forall j | 0 <= j < |s.shards| ensures StatementsOk(s', j) && ViewOk(s', j) {
      assert StatementsOk(s1, j) && ViewOk(s1, j);
    }
    HandedKept(s1, s');
    PromiseKept(s1, s');
  }

  /** Over whole runs: every state a schedule reaches has the invariant. */
  lemma {:induction false} RunInv(s: System, steps: seq<Step>)
    requires Inv(s) && Runs(s, steps)
    ensures Inv(Exec(s, steps))
    decreases |steps|
  {
    if steps != [] {
      StepInv(s, steps[0]);
      RunInv(Do(s, steps[0]), steps[1..]);
    }
  }
}
