/**
 The owner of the readiness set: it merges what every shard states into one
 numbered union (src/admin/admin_state.cc, src/base/readiness.h).

 A set of reasons is one byte with one bit per reason; here it is the set of
 its bit numbers. The class keeps incremental holder counts as the source does;
 its specification recomputes the union of all statements.
 */
module Readiness {
  import opened Units

  const REASON_BITS: nat := 8

  type Reasons = s: set<nat> | forall b :: b in s ==> b < REASON_BITS
    witness {}

  datatype Statement = Statement(shard: nat, reasons: Reasons, sequence: nat)

  datatype Broadcast = Broadcast(reasons: Reasons, version: nat)

  /** The owner's whole state as a value. */
  datatype Owner = Owner(
    held: seq<Reasons>, sequences: seq<nat>, holders: seq<nat>, reasons: Reasons, version: nat)

  // ----- what the owner is meant to know -----

  ghost function Union(held: seq<Reasons>): (u: Reasons)
    ensures forall b :: b in u <==> exists i :: 0 <= i < |held| && b in held[i]
  {
    if held == [] then {} else
      var u := Union(held[1..]) + held[0];
      assert forall b :: (b in u <==> exists i :: 0 <= i < |held| && b in held[i]) by {
        forall b ensures b in u <==> exists i :: 0 <= i < |held| && b in held[i] {
          if i :| 0 <= i < |held| && b in held[i] {
            assert i > 0 ==> b in held[1..][i - 1];
          }
          if b in Union(held[1..]) {
            var j :| 0 <= j < |held[1..]| && b in held[1..][j];
            assert b in held[j + 1];
          }
        }
      }
      u
  }

  /** How many shards hold a reason. */
  ghost function Holders(held: seq<Reasons>, bit: nat): (n: nat)
    ensures n <= |held|
    ensures n > 0 <==> exists i :: 0 <= i < |held| && bit in held[i]
  {
    if held == [] then 0 else
      assert forall i :: 1 <= i < |held| ==> held[i] == held[1..][i - 1];
      Holders(held[1..], bit) + Held(held[0], bit)
  }

  ghost function Held(r: Reasons, bit: nat): nat {
    if bit in r then 1 else 0
  }

  lemma {:induction false} HoldersUpdate(held: seq<Reasons>, shard: nat, r: Reasons, bit: nat)
    requires shard < |held|
    ensures Holders(held[shard := r], bit) + Held(held[shard], bit) == Holders(held, bit) + Held(r, bit)
  {
    if shard == 0 {
      assert held[shard := r][1..] == held[1..];
    } else {
      assert held[shard := r][1..] == held[1..][shard - 1 := r];
      HoldersUpdate(held[1..], shard - 1, r, bit);
    }
  }

  ghost function HolderCounts(held: seq<Reasons>): (c: seq<nat>)
    ensures |c| == REASON_BITS
    ensures forall b :: 0 <= b < REASON_BITS ==> c[b] == Holders(held, b)
  {
    seq(REASON_BITS, b requires 0 <= b < REASON_BITS => Holders(held, b))
  }

  lemma CountsGiveUnion(held: seq<Reasons>, combined: Reasons)
    requires combined == set b | 0 <= b < REASON_BITS && HolderCounts(held)[b] != 0
    ensures combined == Union(held)
  {
    forall b: nat ensures b in combined <==> b in Union(held) {
      if b < REASON_BITS {
        assert HolderCounts(held)[b] == Holders(held, b);
      }
    }
  }

  ghost predicate OwnerOk(o: Owner) {
    && |o.sequences| == |o.held|
    && o.holders == HolderCounts(o.held)
    && o.reasons == Union(o.held)
  }

  ghost function NewOwner(shards: nat): (o: Owner)
    ensures OwnerOk(o) && |o.held| == shards
  {
    var o := Owner(seq(shards, _ => {}), seq(shards, _ => 0), seq(REASON_BITS, _ => 0), {}, 0);
    assert Union(o.held) == {} && HolderCounts(o.held) == o.holders;
    o
  }

  ghost predicate Aligned(o: Owner) {
    |o.sequences| == |o.held|
  }

  /** One statement, from first principles: replace the shard's set if the statement is newer,
      recompute the union, and number the new union if it differs. */
  ghost function Absorb(o: Owner, st: Statement): (o': Owner)
    requires Aligned(o)
    ensures Aligned(o') && |o'.held| == |o.held|
    ensures o.version <= o'.version <= o.version + 1
    ensures o'.version == o.version <==> o'.reasons == o.reasons
  {
    if st.shard >= |o.held| || st.sequence <= o.sequences[st.shard] then o else
      var held := o.held[st.shard := st.reasons];
      var u := Union(held);
      Owner(held, o.sequences[st.shard := st.sequence], HolderCounts(held), u,
            if u == o.reasons then o.version else o.version + 1)
  }

  ghost function AbsorbAll(o: Owner, sts: seq<Statement>): (o': Owner)
    requires Aligned(o)
    ensures Aligned(o') && |o'.held| == |o.held| && o.version <= o'.version
    ensures OwnerOk(o) ==> OwnerOk(o')
  {
    if sts == [] then o else
      Absorb(AbsorbAll(o, sts[..|sts| - 1]), sts[|sts| - 1])
  }

  lemma {:induction false} AbsorbAllCovers(o: Owner, sts: seq<Statement>, j: nat)
    requires Aligned(o) && j < |sts| && sts[j].shard < |o.held|
    ensures sts[j].sequence <= AbsorbAll(o, sts).sequences[sts[j].shard]
  {
    var most := sts[..|sts| - 1];
    if j < |most| {
      AbsorbAllCovers(o, most, j);
    }
  }

  // ----- the owner as the source keeps it -----

  class ReadinessOwner {
    var held: seq<Reasons>
    var sequences: seq<nat>
    const holders: array<nat>
    var reasons: Reasons
    var version: nat

    ghost function Value(): Owner
      reads this, holders
    {
      Owner(held, sequences, holders[..], reasons, version)
    }

    ghost predicate Valid()
      reads this, holders
    {
      OwnerOk(Value())
    }

    constructor (shards: nat)
      ensures Valid() && fresh(holders)
      ensures Value() == NewOwner(shards)
    {
      held := seq(shards, _ => {});
      sequences := seq(shards, _ => 0);
      holders := new nat[REASON_BITS](_ => 0);
      reasons := {};
      version := 0;
      new;
      assert holders[..] == NewOwner(shards).holders;
    }

    /** The bit loop: adjusts the holder counts for one shard's new set and collects the reasons
        still held. No count underflows. */
    method Recount(ghost past: seq<Reasons>, ghost shard: nat, before: Reasons, r: Reasons) returns (combined: Reasons)
      requires shard < |past| && before == past[shard] && holders[..] == HolderCounts(past)
      modifies holders
      ensures holders[..] == HolderCounts(past[shard := r])
      ensures combined == Union(past[shard := r])
    {
      ghost var next := past[shard := r];
      ghost var was, want := HolderCounts(past), HolderCounts(next);
      forall b: nat | b < REASON_BITS
        ensures want[b] + Held(before, b) == was[b] + Held(r, b)
      {
        HoldersUpdate(past, shard, r, b);
      }
      var kept: set<nat> := {};
      for bit := 0 to REASON_BITS
        invariant forall b :: 0 <= b < bit ==> holders[b] == want[b]
        invariant forall b :: bit <= b < REASON_BITS ==> holders[b] == was[b]
        invariant kept == set b | 0 <= b < bit && want[b] != 0
      {
        if bit in before && bit !in r {
          holders[bit] := holders[bit] - 1;
        } else if bit !in before && bit in r {
          holders[bit] := holders[bit] + 1;
        }
        if holders[bit] != 0 {
          kept := kept + {bit};
        }
      }
      combined := kept;
      assert holders[..] == want;
      CountsGiveUnion(next, combined);
    }

    method Apply(shard: nat, r: Reasons, sequence: nat) returns (update: Option<Broadcast>)
      requires Valid()
      modifies this, holders
      ensures Valid()
      ensures Value() == Absorb(old(Value()), Statement(shard, r, sequence))
      ensures update == if version == old(version) then None else Some(Broadcast(reasons, version))
    {
      if shard >= |held| || sequence <= sequences[shard] {
        return None;
      }
      sequences := sequences[shard := sequence];
      var before := held[shard];
      held := held[shard := r];
      var combined := Recount(old(held), shard, before, r);
      if combined == reasons {
        return None;
      }
      reasons := combined;
      version := version + 1;
      return Some(Broadcast(reasons, version));
    }
  }

  // ----- the owner's state is a join of the statements delivered -----

  /** No two different sets under one sequence number of one shard: each shard numbers every
      change of its set. */
  ghost predicate Consistent(sts: seq<Statement>) {
    forall i, j :: 0 <= i < |sts| && 0 <= j < |sts|
      && sts[i].shard == sts[j].shard && sts[i].sequence == sts[j].sequence
      ==> sts[i].reasons == sts[j].reasons
  }

  /** The owner's entry for a shard is the shard's highest-numbered statement among `sts`,
      or the initial empty set when none is numbered above zero. */
  ghost predicate IsLatest(o: Owner, sts: seq<Statement>, shard: nat)
    requires |o.held| == |o.sequences| && shard < |o.held|
  {
    && (forall i :: 0 <= i < |sts| && sts[i].shard == shard ==> sts[i].sequence <= o.sequences[shard])
    && (if o.sequences[shard] == 0 then o.held[shard] == {}
        else Statement(shard, o.held[shard], o.sequences[shard]) in sts)
  }

  lemma {:induction false} AbsorbAllIsLatest(n: nat, sts: seq<Statement>, shard: nat)
    requires shard < n
    ensures IsLatest(AbsorbAll(NewOwner(n), sts), sts, shard)
  {
    if sts != [] {
      var most := sts[..|sts| - 1];
      AbsorbAllIsLatest(n, most, shard);
      var o := AbsorbAll(NewOwner(n), most);
      var last := sts[|sts| - 1];
      assert sts == most + [last];
      var o' := Absorb(o, last);
      if last.shard == shard && last.sequence > o.sequences[shard] {
        assert Statement(shard, o'.held[shard], o'.sequences[shard]) == last;
      }
    }
  }

  /** Delivered in any order and with any duplicates, the same set of statements leaves the owner
      with the same sets, sequences, holder counts and union. */
  lemma {:induction false} OwnerIsJoin(n: nat, sts: seq<Statement>, sts': seq<Statement>)
    requires forall st :: st in sts <==> st in sts'
    requires Consistent(sts)
    ensures var o, o' := AbsorbAll(NewOwner(n), sts), AbsorbAll(NewOwner(n), sts');
            o'.(version := o.version) == o
  {
    var o, o' := AbsorbAll(NewOwner(n), sts), AbsorbAll(NewOwner(n), sts');
    forall shard: nat | shard < n
      ensures o.held[shard] == o'.held[shard] && o.sequences[shard] == o'.sequences[shard]
    {
      AbsorbAllIsLatest(n, sts, shard);
      AbsorbAllIsLatest(n, sts', shard);
      var mine := Statement(shard, o.held[shard], o.sequences[shard]);
      var other := Statement(shard, o'.held[shard], o'.sequences[shard]);
      if o.sequences[shard] > 0 {
        assert mine in sts';
        var i :| 0 <= i < |sts'| && sts'[i] == mine;
      }
      if o'.sequences[shard] > 0 {
        assert other in sts;
        var i :| 0 <= i < |sts| && sts[i] == other;
      }
      assert o.sequences[shard] == o'.sequences[shard];
    }
    assert o.held == o'.held && o.sequences == o'.sequences;
  }
}
