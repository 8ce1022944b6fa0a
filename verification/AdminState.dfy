/**
 What a shard knows and says about readiness: its lifecycle, the reasons it
 holds, and the broker-wide set it last heard (src/admin/admin_state.cc).

 Every method is proved against a function on the state of a shard or of the
 owner as a value. The protocol in ReadinessProtocol is made of those same
 functions, and ReadinessObjects runs the objects through it. A message the
 source sends through its gate is the method's result.
 */
module AdminState {
  import opened Units
  import opened Readiness

  datatype Lifecycle = Stopped | Live | Started | Draining

  /** `observed` is the last pair the observer saw, `notices` every call made to it, and `closed`
      says whether the message gate is closed. */
  datatype Shard = Shard(
    held: Reasons, statement: nat, inFlight: bool, closed: bool, lifecycle: Lifecycle,
    view: Reasons, viewVersion: nat,
    observed: Option<(bool, Reasons)>, notices: seq<(bool, Reasons)>)
  {
    predicate Ready() {
      lifecycle == Started && view == {}
    }

    function Notified(): Shard {
      if observed.None? || observed.value == (Ready(), view) then this
      else this.(observed := Some((Ready(), view)), notices := notices + [(Ready(), view)])
    }

    /** send_statement: nothing once the gate is closed, else the shard's latest set. */
    function Send(shard: nat): (Shard, Option<Statement>) {
      if closed then (this, None)
      else (this.(inFlight := true), Some(Statement(shard, held, statement)))
    }

    function Reported(shard: nat, reason: nat, hold: bool): (Shard, Option<Statement>)
      requires reason < REASON_BITS
    {
      var next := if hold then held + {reason} else held - {reason};
      if next == held then (this, None) else
        var s := this.(held := next, statement := statement + 1);
        if s.inFlight then (s, None) else s.Send(shard)
    }

    /** The owner answered the statement numbered `sequence`. */
    function Answered(shard: nat, sequence: nat): (Shard, Option<Statement>) {
      var s := this.(inFlight := false);
      if s.statement != sequence then s.Send(shard) else (s, None)
    }

    function Heard(update: Broadcast): Shard {
      if update.version <= viewVersion then this
      else this.(view := update.reasons, viewVersion := update.version).Notified()
    }

    function MarkedStarted(): Shard {
      (if lifecycle == Live then this.(lifecycle := Started) else this).Notified()
    }

    function ShuttingDown(): Shard {
      (if lifecycle == Live || lifecycle == Started then this.(lifecycle := Draining) else this).Notified()
    }

    function StoppedNow(): Shard {
      this.(lifecycle := Stopped, observed := None, closed := true)
    }
  }

  function NewShard(): Shard {
    Shard({}, 0, false, false, Stopped, {}, 0, None, [])
  }

  // ----- what the owner's shard sends -----

  ghost function Latest(o: Owner): Broadcast {
    Broadcast(o.reasons, o.version)
  }

  /** send_broadcast: nothing once the gate is closed, else the owner's latest set. */
  ghost function Update(o: Owner, closed: bool): Option<Broadcast> {
    if closed then None else Some(Latest(o))
  }

  /** A statement took the owner from `before` to `o`. */
  ghost function UpdateOnStatement(before: Owner, o: Owner, inFlight: bool, closed: bool): Option<Broadcast> {
    if o.version == before.version || inFlight then None else Update(o, closed)
  }

  /** Every shard answered the broadcast of `version`. */
  ghost function UpdateOnAnswer(o: Owner, version: nat, closed: bool): Option<Broadcast> {
    if o.version == version then None else Update(o, closed)
  }

  class AdminState {
    const shard: nat
    var lifecycle: Lifecycle
    var held: Reasons
    var statement: nat
    var statementInFlight: bool
    var broadcastInFlight: bool
    var reasons: Reasons
    var reasonsVersion: nat
    const owner: ReadinessOwner?
    var observed: Option<(bool, Reasons)>
    var notices: seq<(bool, Reasons)>
    var messagesClosed: bool

    ghost function Value(): Shard
      reads this
    {
      Shard(held, statement, statementInFlight, messagesClosed, lifecycle,
            reasons, reasonsVersion, observed, notices)
    }

    ghost predicate Valid()
      reads this, owner, if owner == null then {} else {owner.holders}
    {
      owner != null ==> owner.Valid()
    }

    constructor (shard: nat, shards: nat)
      ensures Value() == NewShard() && this.shard == shard && !broadcastInFlight
      ensures owner != null <==> shard == 0
      ensures owner != null ==> fresh(owner) && fresh(owner.holders) && owner.Value() == NewOwner(shards)
      ensures Valid()
    {
      this.shard := shard;
      lifecycle := Stopped;
      held := {};
      statement := 0;
      statementInFlight, broadcastInFlight := false, false;
      reasons := {};
      reasonsVersion := 0;
      if shard == 0 {
        owner := new ReadinessOwner(shards);
      } else {
        owner := null;
      }
      observed := None;
      notices := [];
      messagesClosed := false;
    }

    predicate Ready()
      reads this
    {
      lifecycle == Started && reasons == {}
    }

    method ListenerStarted()
      modifies this`lifecycle
      ensures Value() == old(Value()).(lifecycle := Live)
    {
      lifecycle := Live;
    }

    method NotifyIfChanged()
      modifies this`observed, this`notices
      ensures Value() == old(Value()).Notified()
    {
      if observed.None? {
        return;
      }
      var current := (Ready(), reasons);
      if observed.value == current {
        return;
      }
      observed := Some(current);
      notices := notices + [current];
    }

    method ObserveReadiness()
      modifies this`observed
      ensures Value() == old(Value()).(observed := Some((Ready(), reasons)))
    {
      observed := Some((Ready(), reasons));
    }

    method MarkStarted()
      modifies this`lifecycle, this`observed, this`notices
      ensures Value() == old(Value()).MarkedStarted()
    {
      if lifecycle == Live {
        lifecycle := Started;
      }
      NotifyIfChanged();
    }

    method BeginShutdown()
      modifies this`lifecycle, this`observed, this`notices
      ensures Value() == old(Value()).ShuttingDown()
    {
      if lifecycle == Live || lifecycle == Started {
        lifecycle := Draining;
      }
      NotifyIfChanged();
    }

    method Stop()
      modifies this`lifecycle, this`observed, this`messagesClosed
      ensures Value() == old(Value()).StoppedNow()
    {
      lifecycle := Stopped;
      observed := None;
      messagesClosed := true;
    }

    method SendStatement() returns (sent: Option<Statement>)
      modifies this`statementInFlight
      ensures (Value(), sent) == old(Value()).Send(shard)
    {
      if messagesClosed {
        return None;
      }
      statementInFlight := true;
      return Some(Statement(shard, held, statement));
    }

    method Report(reason: nat, hold: bool) returns (sent: Option<Statement>)
      requires reason < REASON_BITS
      modifies this`held, this`statement, this`statementInFlight
      ensures (Value(), sent) == old(Value()).Reported(shard, reason, hold)
    {
      var next := if hold then held + {reason} else held - {reason};
      if next == held {
        return None;
      }
      held := next;
      statement := statement + 1;
      sent := None;
      if !statementInFlight {
        sent := SendStatement();
      }
    }

    method StatementAnswered(sequence: nat) returns (sent: Option<Statement>)
      modifies this`statementInFlight
      ensures (Value(), sent) == old(Value()).Answered(shard, sequence)
    {
      statementInFlight := false;
      sent := None;
      if statement != sequence {
        sent := SendStatement();
      }
    }

    method LatestStatement() returns (st: Statement)
      ensures st == Statement(shard, held, statement)
    {
      st := Statement(shard, held, statement);
    }

    /** Settling happens on shard 0 only; any other shard refuses. */
    method Settle(statements: seq<Statement>) returns (settled: Option<Broadcast>)
      requires Valid()
      modifies owner, if owner == null then {} else {owner.holders}
      ensures Valid() && (settled.None? <==> owner == null)
      ensures owner != null ==> owner.Value() == AbsorbAll(old(owner.Value()), statements)
      ensures owner != null ==> settled == Some(Latest(owner.Value()))
    {
      if owner == null {
        return None;
      }
      for i := 0 to |statements|
        invariant owner.Valid() && owner.Value() == AbsorbAll(old(owner.Value()), statements[..i])
      {
        assert statements[..i + 1][..i] == statements[..i];
        var _ := owner.Apply(statements[i].shard, statements[i].reasons, statements[i].sequence);
      }
      assert statements[..|statements|] == statements;
      return Some(Broadcast(owner.reasons, owner.version));
    }

    method SendBroadcast() returns (sent: Option<Broadcast>)
      requires owner != null
      modifies this`broadcastInFlight
      ensures sent == Update(owner.Value(), messagesClosed)
      ensures broadcastInFlight == (old(broadcastInFlight) || sent.Some?)
    {
      if messagesClosed {
        return None;
      }
      broadcastInFlight := true;
      return Some(Broadcast(owner.reasons, owner.version));
    }

    /** Every shard answered the broadcast of `version`. */
    method BroadcastAnswered(version: nat) returns (sent: Option<Broadcast>)
      requires owner != null
      modifies this`broadcastInFlight
      ensures sent == UpdateOnAnswer(owner.Value(), version, messagesClosed)
      ensures broadcastInFlight == sent.Some?
    {
      broadcastInFlight := false;
      sent := None;
      if owner.version != version {
        sent := SendBroadcast();
      }
    }

    method ApplyStatement(from: nat, r: Reasons, sequence: nat) returns (sent: Option<Broadcast>)
      requires Valid()
      modifies this`broadcastInFlight, owner, if owner == null then {} else {owner.holders}
      ensures Valid()
      ensures owner == null ==> sent.None? && broadcastInFlight == old(broadcastInFlight)
      ensures owner != null ==>
        && owner.Value() == Absorb(old(owner.Value()), Statement(from, r, sequence))
        && sent == UpdateOnStatement(old(owner.Value()), owner.Value(), old(broadcastInFlight), messagesClosed)
        && broadcastInFlight == (old(broadcastInFlight) || sent.Some?)
    {
      sent := None;
      if owner == null {
        return;
      }
      var update := owner.Apply(from, r, sequence);
      if update.None? || broadcastInFlight {
        return;
      }
      sent := SendBroadcast();
    }

    method ApplyReasons(r: Reasons, version: nat)
      modifies this`reasons, this`reasonsVersion, this`observed, this`notices
      ensures Value() == old(Value()).Heard(Broadcast(r, version))
    {
      if version <= reasonsVersion {
        return;
      }
      reasons := r;
      reasonsVersion := version;
      NotifyIfChanged();
    }
  }
}
