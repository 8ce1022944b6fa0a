/**
 The crash-loop policy over repeated starts: what is recorded, when a start is
 refused, and when the count is forgotten (src/broker/crash_limiter.cc).
 */
module CrashLimiter {
  import opened Units
  import opened CrashRecord

  const RESET_MILLISECONDS: nat := 60 * 60 * 1000

  /** More than an hour after the recorded start, by a clock that did not move back. */
  predicate Expired(previous: Record, now: nat) {
    now > previous.time && now - previous.time > RESET_MILLISECONDS
  }

  /** One start: what it runs under, and when. */
  datatype Attempt = Attempt(checksum: string, time: nat)

  /** The count a start records, or nothing when it is refused. */
  function NextCount(previous: Option<Record>, a: Attempt, limit: Option<nat>): Option<nat> {
    match previous
    case None => Some(1)
    case Some(p) =>
      var changed := p.checksum != a.checksum;
      var reset := Expired(p, a.time);
      if limit.Some? && p.count > limit.value && !changed && !reset then None
      else if changed || reset then Some(1)
      else Some(if p.count == U64_MAX then p.count else p.count + 1)
  }

  /** Nothing is on record, or it is of another configuration or more than an hour old. */
  predicate StartsAnew(previous: Option<Record>, a: Attempt) {
    previous.Some? ==> previous.value.checksum != a.checksum || a.time > previous.value.time + RESET_MILLISECONDS
  }

  /** A record of the same configuration, no more than an hour old, has a count over a finite limit. */
  predicate Refuses(previous: Option<Record>, a: Attempt, limit: Option<nat>) {
    !StartsAnew(previous, a) && limit.Some? && previous.value.count > limit.value
  }

  /** Exactly then is a start refused; one that is not counts from one if it starts anew, and one more otherwise. */
  lemma RefusedExactly(previous: Option<Record>, a: Attempt, limit: Option<nat>)
    requires previous.Some? ==> previous.value.count <= U64_MAX
    ensures NextCount(previous, a, limit).None? <==> Refuses(previous, a, limit)
    ensures NextCount(previous, a, limit).Some? ==>
      NextCount(previous, a, limit).value
      == if StartsAnew(previous, a) then 1 else Min(previous.value.count + 1, U64_MAX)
  {
  }

  /** The tracker after a start: a refused one writes nothing. */
  function After(previous: Option<Record>, a: Attempt, limit: Option<nat>): Option<Record> {
    match NextCount(previous, a, limit)
    case None => previous
    case Some(count) => Some(Record(count, a.checksum, a.time))
  }

  /** The tracker after the given starts, none of them followed by a clean shutdown. */
  function Tracker(first: Option<Record>, limit: Option<nat>, starts: seq<Attempt>): Option<Record> {
    if starts == [] then first
    else After(Tracker(first, limit, starts[..|starts| - 1]), starts[|starts| - 1], limit)
  }

  /** Whether the last of the starts was admitted. */
  predicate Admitted(first: Option<Record>, limit: Option<nat>, starts: seq<Attempt>)
    requires starts != []
  {
    NextCount(Tracker(first, limit, starts[..|starts| - 1]), starts[|starts| - 1], limit).Some?
  }

  function CountAdmitted(first: Option<Record>, limit: Option<nat>, starts: seq<Attempt>): nat {
    if starts == [] then 0
    else
      CountAdmitted(first, limit, starts[..|starts| - 1]) + if Admitted(first, limit, starts) then 1 else 0
  }

  lemma {:induction false} TrackerConcat(first: Option<Record>, limit: Option<nat>, a: seq<Attempt>, b: seq<Attempt>)
    ensures Tracker(first, limit, a + b) == Tracker(Tracker(first, limit, a), limit, b)
    ensures CountAdmitted(first, limit, a + b)
            == CountAdmitted(first, limit, a) + CountAdmitted(Tracker(first, limit, a), limit, b)
    decreases |b|
  {
    if b == [] {
      assert a + b == a;
    } else {
      var n := |b| - 1;
      assert (a + b)[..|a + b| - 1] == a + b[..n];
      TrackerConcat(first, limit, a, b[..n]);
    }
  }

  /** How many of n close starts a limit lets through: one more than it, or all where it can never be passed. */
  function Allowance(limit: Option<nat>, n: nat): nat {
    if limit.Some? && limit.value < U64_MAX then Min(n, limit.value + 1) else n
  }

  /** One configuration, and no start more than an hour after the one recorded by then: the one before it, or once
      the allowance is used up, the last of those. */
  ghost predicate Close(limit: Option<nat>, starts: seq<Attempt>) {
    forall i :: 0 < i < |starts| ==>
      && starts[i].checksum == starts[0].checksum
      && starts[i].time <= starts[Allowance(limit, i) - 1].time + RESET_MILLISECONDS
  }

  lemma CloseFront(limit: Option<nat>, starts: seq<Attempt>, n: nat)
    requires Close(limit, starts) && 0 < n < |starts|
    ensures Close(limit, starts[..n]) && starts == starts[..n] + starts[n..] && starts[n].checksum == starts[0].checksum
    ensures starts[n].time <= starts[..n][Allowance(limit, n) - 1].time + RESET_MILLISECONDS
  {
    var front := starts[..n];
    forall i | 0 < i < n
      ensures front[i].checksum == front[0].checksum
      ensures front[i].time <= front[Allowance(limit, i) - 1].time + RESET_MILLISECONDS
    {
      assert front[i] == starts[i] && front[Allowance(limit, i) - 1] == starts[Allowance(limit, i) - 1];
    }
  }

  /** Exactly the allowed ones were admitted, and the record counts those and keeps the time of the last. */
  ghost predicate Tallied(first: Option<Record>, limit: Option<nat>, starts: seq<Attempt>)
    requires starts != []
  {
    var n := Allowance(limit, |starts|);
    && CountAdmitted(first, limit, starts) == n && (Admitted(first, limit, starts) <==> n == |starts|)
    && Tracker(first, limit, starts) == Some(Record(Min(n, U64_MAX), starts[0].checksum, starts[n - 1].time))
  }

  lemma TalliedOne(first: Option<Record>, limit: Option<nat>, starts: seq<Attempt>)
    requires |starts| == 1 && StartsAnew(first, starts[0])
    ensures Tallied(first, limit, starts)
  {
    assert starts[..0] == [];
  }

  /** The next start after n close ones. */
  lemma NextClose(checksum: string, limit: Option<nat>, n: nat, at: nat, a: Attempt)
    requires n > 0 && a.checksum == checksum && a.time <= at + RESET_MILLISECONDS
    ensures NextCount(Some(Record(Min(Allowance(limit, n), U64_MAX), checksum, at)), a, limit)
            == if Allowance(limit, n + 1) == n + 1 then Some(Min(n + 1, U64_MAX)) else None
  {
  }

  lemma TalliedNext(first: Option<Record>, limit: Option<nat>, front: seq<Attempt>, a: Attempt, starts: seq<Attempt>)
    requires front != [] && starts == front + [a] && Tallied(first, limit, front)
    requires a.checksum == front[0].checksum
    requires a.time <= front[Allowance(limit, |front|) - 1].time + RESET_MILLISECONDS
    ensures Tallied(first, limit, starts)
  {
    assert starts[..|starts| - 1] == front;
    NextClose(front[0].checksum, limit, |front|, front[Allowance(limit, |front|) - 1].time, a);
  }

  /** From anything such starts do not continue, exactly the first limit + 1 of them are admitted, however many are
      tried, and the record counts those and keeps the time of the last. */
  lemma {:induction false} LimitPlusOne(first: Option<Record>, limit: Option<nat>, starts: seq<Attempt>)
    requires Close(limit, starts) && (starts != [] ==> StartsAnew(first, starts[0]))
    ensures CountAdmitted(first, limit, starts) == Allowance(limit, |starts|)
    ensures starts != [] ==> Tallied(first, limit, starts)
    decreases |starts|
  {
    if |starts| == 1 {
      TalliedOne(first, limit, starts);
    } else if starts != [] {
      var n := |starts| - 1;
      var front := starts[..n];
      CloseFront(limit, starts, n);
      LimitPlusOne(first, limit, front);
      TalliedNext(first, limit, front, starts[n], starts);
    }
  }

  /** A start that finds another configuration on record, or a record more than an hour old, is always admitted
      and counts from one again, whatever went before; and from there the limit holds as it did at first. */
  lemma {:induction false} CountsAgain(first: Option<Record>, limit: Option<nat>, past: seq<Attempt>,
                                       starts: seq<Attempt>)
    requires starts != [] && Close(limit, starts) && StartsAnew(Tracker(first, limit, past), starts[0])
    ensures Tracker(first, limit, past + starts[..1]) == Some(Record(1, starts[0].checksum, starts[0].time))
    ensures CountAdmitted(first, limit, past + starts)
            == CountAdmitted(first, limit, past) + Allowance(limit, |starts|)
    ensures var n := Allowance(limit, |starts|);
      Tracker(first, limit, past + starts) == Some(Record(Min(n, U64_MAX), starts[0].checksum, starts[n - 1].time))
  {
    var found := Tracker(first, limit, past);
    TrackerConcat(first, limit, past, starts);
    TrackerConcat(first, limit, past, starts[..1]);
    LimitPlusOne(found, limit, starts);
    LimitPlusOne(found, limit, starts[..1]);
  }

  /** And one more start after the allowance is used up is admitted exactly when it starts anew: under another
      configuration, or more than an hour after the last recorded. */
  lemma {:induction false} AdmittedAgain(first: Option<Record>, limit: nat, starts: seq<Attempt>, next: Attempt)
    requires Close(Some(limit), starts) && limit < U64_MAX && |starts| > limit && StartsAnew(first, starts[0])
    ensures Admitted(first, Some(limit), starts + [next]) <==>
      next.checksum != starts[0].checksum || next.time > starts[limit].time + RESET_MILLISECONDS
    ensures Admitted(first, Some(limit), starts + [next]) ==>
      Tracker(first, Some(limit), starts + [next]) == Some(Record(1, next.checksum, next.time))
  {
    LimitPlusOne(first, Some(limit), starts);
    assert (starts + [next])[..|starts|] == starts;
  }

  /** One configuration, and no start more than an hour after the one before it. */
  ghost predicate GapsWithin(starts: seq<Attempt>) {
    forall i :: 0 < i < |starts| ==>
      starts[i].checksum == starts[0].checksum && starts[i].time <= starts[i - 1].time + RESET_MILLISECONDS
  }

  lemma {:induction false} CountMonotone(first: Option<Record>, limit: Option<nat>, starts: seq<Attempt>, n: nat)
    requires n <= |starts|
    ensures CountAdmitted(first, limit, starts[..n]) <= CountAdmitted(first, limit, starts)
  {
    assert starts == starts[..n] + starts[n..];
    TrackerConcat(first, limit, starts[..n], starts[n..]);
  }

  lemma {:induction false} OneTooMany(first: Option<Record>, limit: nat, starts: seq<Attempt>, next: Attempt)
    requires Close(Some(limit), starts) && limit < U64_MAX && |starts| > limit && StartsAnew(first, starts[0])
    requires next.time > starts[limit].time + RESET_MILLISECONDS
    ensures CountAdmitted(first, Some(limit), starts + [next]) == limit + 2
  {
    LimitPlusOne(first, Some(limit), starts);
    AdmittedAgain(first, limit, starts, next);
    assert (starts + [next])[..|starts|] == starts;
  }

  lemma CloseUpTo(limit: nat, starts: seq<Attempt>, n: nat)
    requires limit < U64_MAX && GapsWithin(starts) && limit < n <= |starts|
    requires forall i :: limit < i < n ==> starts[i].time <= starts[limit].time + RESET_MILLISECONDS
    ensures Close(Some(limit), starts[..n])
  {
    var front := starts[..n];
    forall i | 0 < i < n
      ensures front[i].checksum == front[0].checksum
      ensures front[i].time <= front[Allowance(Some(limit), i) - 1].time + RESET_MILLISECONDS
    {
      var last := Allowance(Some(limit), i) - 1;
      assert front[i] == starts[i] && front[last] == starts[last];
    }
  }

  lemma OneMoreStart(starts: seq<Attempt>, i: nat)
    requires i < |starts|
    ensures starts[..i + 1] == starts[..i] + [starts[i]]
  {
  }

  /** A start too late for the recorded one is one admission too many. */
  lemma {:induction false} LateStartIsAdmitted(first: Option<Record>, limit: nat, starts: seq<Attempt>, i: nat)
    requires limit < U64_MAX && GapsWithin(starts) && limit < i < |starts| && StartsAnew(first, starts[0])
    requires starts[i].time > starts[limit].time + RESET_MILLISECONDS
    ensures CountAdmitted(first, Some(limit), starts) > limit + 1
  {
    if j :| limit < j < i && starts[j].time > starts[limit].time + RESET_MILLISECONDS {
      LateStartIsAdmitted(first, limit, starts, j);
    } else {
      var front := starts[..i];
      CloseUpTo(limit, starts, i);
      OneTooMany(first, limit, front, starts[i]);
      OneMoreStart(starts, i);
      CountMonotone(first, Some(limit), starts, i + 1);
    }
  }

  /** So of starts an hour or less apart exactly limit + 1 are admitted if and only if none of the later ones
      is more than an hour after the last of those. */
  lemma LimitPlusOneExactly(first: Option<Record>, limit: nat, starts: seq<Attempt>)
    requires limit < U64_MAX && GapsWithin(starts) && (starts != [] ==> StartsAnew(first, starts[0]))
    ensures CountAdmitted(first, Some(limit), starts) == Min(|starts|, limit + 1) <==>
      forall i :: limit < i < |starts| ==> starts[i].time <= starts[limit].time + RESET_MILLISECONDS
  {
    if i :| limit < i < |starts| && starts[i].time > starts[limit].time + RESET_MILLISECONDS {
      LateStartIsAdmitted(first, limit, starts, i);
    } else {
      LimitPlusOne(first, Some(limit), starts);
    }
  }

  /** Refused starts change nothing, so they never postpone the expiry: as long as all of them are refused,
      the next start is admitted exactly when it starts anew against the recorded one. */
  lemma {:induction false} RefusalsKeepExpiry(first: Record, limit: nat, refused: seq<Attempt>, next: Attempt)
    requires first.count > limit
    requires forall i :: 0 <= i < |refused| ==>
      refused[i].checksum == first.checksum && refused[i].time <= first.time + RESET_MILLISECONDS
    ensures Tracker(Some(first), Some(limit), refused) == Some(first)
    ensures CountAdmitted(Some(first), Some(limit), refused) == 0
    ensures Admitted(Some(first), Some(limit), refused + [next]) <==>
      next.checksum != first.checksum || next.time > first.time + RESET_MILLISECONDS
    decreases |refused|
  {
    assert (refused + [next])[..|refused|] == refused;
    if refused != [] {
      RefusalsKeepExpiry(first, limit, refused[..|refused| - 1], refused[|refused| - 1]);
      assert refused == refused[..|refused| - 1] + [refused[|refused| - 1]];
    }
  }

  /** So starts an hour or less apart are not enough for limit + 1: refused ones do not count as recorded, and
      the limit can be passed while no start is more than an hour after the one before it. */
  lemma CloseStartsCanExpire(checksum: string)
    ensures var at := (time: nat) => Attempt(checksum, time);
      var starts := [at(0), at(RESET_MILLISECONDS), at(RESET_MILLISECONDS + 1)];
      GapsWithin(starts) && CountAdmitted(None, Some(0), starts) == 2
  {
    var a, b := Attempt(checksum, 0), Attempt(checksum, RESET_MILLISECONDS);
    var c := Attempt(checksum, RESET_MILLISECONDS + 1);
    LimitPlusOne(None, Some(0), [a, b]);
    OneTooMany(None, 0, [a, b], c);
    assert [a, b] + [c] == [a, b, c];
  }

  // ----- the start itself -----

  datatype StartError = AlreadyAttempted | StartAborted | BadChecksum | BadClock | LimitReached

  /** Where a startup abort is noticed, if at all. */
  datatype AbortPoint = Never | AtEntry | WhileReading | BeforeWrite | AtEnd

  /** The directory holds at most one tracker file. */
  class Directory {
    var tracker: Option<string>

    constructor ()
      ensures tracker.None?
    {
      tracker := None;
    }
  }

  class Limiter {
    var attempted: bool
    var recorded: bool

    predicate Valid()
      reads this
    {
      recorded ==> attempted
    }

    constructor ()
      ensures Valid() && !attempted && !recorded
    {
      attempted, recorded := false, false;
    }

    /** Read, decide, write: the attempt is recorded before startup can go on, and a refusal or an abort before
        the write leaves the record as it was. A tracker that is missing or malformed counts as none. */
    method Start(dir: Directory, checksum: string, developer: bool, now: int, limit: Option<nat>, abort: AbortPoint,
      crc: string -> nat)
      returns (failed: Option<StartError>)
      requires Valid() && Crc32(crc) && now <= I64_MAX
      modifies this, dir
      ensures Valid() && attempted
      ensures failed == Some(AlreadyAttempted) <==> old(attempted)
      ensures recorded == (old(recorded) || failed.None? || (failed == Some(StartAborted) && abort.AtEnd?))
      ensures failed == Some(StartAborted) ==> abort != Never
      ensures old(attempted) || developer || !recorded ==>
        Known(dir.tracker, crc) == old(Known(dir.tracker, crc))
      ensures !old(attempted) && !developer && recorded ==>
        && IsChecksum(checksum) && now >= 0
        && !Refuses(old(Known(dir.tracker, crc)), Attempt(checksum, now), limit)
        && Known(dir.tracker, crc) == After(old(Known(dir.tracker, crc)), Attempt(checksum, now), limit)
      ensures !old(attempted) && failed.Some? ==>
        match failed.value
        case BadChecksum => !developer && !IsChecksum(checksum)
        case BadClock => !developer && IsChecksum(checksum) && now < 0
        case LimitReached =>
          && !developer && IsChecksum(checksum) && now >= 0
          && Refuses(old(Known(dir.tracker, crc)), Attempt(checksum, now), limit)
        case _ => true
    {
      if attempted {
        return Some(AlreadyAttempted);
      }
      attempted := true;
      if abort.AtEntry? {
        return Some(StartAborted);
      }
      if developer {
        recorded := true;
        return None;
      }
      if !IsChecksum(checksum) {
        return Some(BadChecksum);
      }
      var previous := Known(dir.tracker, crc);
      if dir.tracker.None? {
        dir.tracker := Some("");
      }
      if abort.WhileReading? {
        return Some(StartAborted);
      }
      if now < 0 {
        return Some(BadClock);
      }
      KnownInRange(dir.tracker, crc);
      var a := Attempt(checksum, now);
      RefusedExactly(previous, a, limit);
      var count := NextCount(previous, a, limit);
      if count.None? {
        return Some(LimitReached);
      }
      if abort.BeforeWrite? {
        return Some(StartAborted);
      }
      var next := Record(count.value, checksum, now);
      RecordRoundTrip(next, crc);
      dir.tracker := Some(Encode(next, crc));
      recorded := true;
      if abort.AtEnd? {
        return Some(StartAborted);
      }
      return None;
    }

    /** A clean shutdown forgets the attempts. */
    method RecordCleanShutdown(dir: Directory)
      requires Valid()
      modifies this, dir
      ensures Valid() && !recorded && attempted == old(attempted)
      ensures dir.tracker == if old(recorded) then None else old(dir.tracker)
    {
      if !recorded {
        return;
      }
      dir.tracker := None;
      recorded := false;
    }
  }

  /** The record a tracker file is known to hold. */
  function Known(tracker: Option<string>, crc: string -> nat): Option<Record> {
    match tracker
    case None => None
    case Some(text) => Decode(text, crc)
  }

  lemma KnownInRange(tracker: Option<string>, crc: string -> nat)
    ensures Known(tracker, crc).Some? ==> Known(tracker, crc).value.count <= U64_MAX
  {
    if Known(tracker, crc).Some? {
      DecodeSound(tracker.value, crc);
    }
  }

  lemma TrackerStep(first: Option<Record>, limit: Option<nat>, starts: seq<Attempt>, i: nat)
    requires i < |starts|
    ensures var before := Tracker(first, limit, starts[..i]);
      && Tracker(first, limit, starts[..i + 1]) == After(before, starts[i], limit)
      && CountAdmitted(first, limit, starts[..i + 1])
         == CountAdmitted(first, limit, starts[..i]) + if NextCount(before, starts[i], limit).Some? then 1 else 0
  {
    assert starts[..i + 1][..i] == starts[..i];
  }

  /** A process that starts again and again over one directory, and never shuts down cleanly: the file carries
      exactly what the policy over the starts says, from whatever it held first. */
  method StartAgain(dir: Directory, limit: Option<nat>, starts: seq<Attempt>, crc: string -> nat)
    returns (admitted: nat)
    requires Crc32(crc)
    requires forall i :: 0 <= i < |starts| ==> IsChecksum(starts[i].checksum) && starts[i].time <= I64_MAX
    modifies dir
    ensures admitted == CountAdmitted(old(Known(dir.tracker, crc)), limit, starts)
    ensures Known(dir.tracker, crc) == Tracker(old(Known(dir.tracker, crc)), limit, starts)
  {
    ghost var first := Known(dir.tracker, crc);
    admitted := 0;
    for i := 0 to |starts|
      invariant admitted == CountAdmitted(first, limit, starts[..i])
      invariant Known(dir.tracker, crc) == Tracker(first, limit, starts[..i])
    {
      TrackerStep(first, limit, starts, i);
      KnownInRange(dir.tracker, crc);
      RefusedExactly(Known(dir.tracker, crc), starts[i], limit);
      var limiter := new Limiter();
      var failed := limiter.Start(dir, starts[i].checksum, false, starts[i].time, limit, Never, crc);
      if failed.None? {
        admitted := admitted + 1;
      }
    }
    assert starts[..|starts|] == starts;
  }
}
