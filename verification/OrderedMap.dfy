/**
 Reading and writing an ordered map through the parser, the builder and the work
 account (src/codec/collection.h, src/codec/integer.cc, src/codec/transaction.h).
 */
module OrderedMap {
  import opened Units
  import opened Fragments
  import opened ParserSteps
  import opened BufferParser
  import opened Varuint
  import opened MapCodec
  import opened CooperativeWork

  /** What the parser has not read yet. */
  ghost function Unread(p: Parser): seq<byte>
    requires p.Valid()
    reads p, p.buffer, Arrays(p.buffer.fragments)
  {
    PosBound(p.buffer.fragments, p.at);
    p.Input()[p.at.consumed..]
  }

  /** A copy of the next n bytes, which are there. */
  method PeekBytes(p: Parser, n: nat) returns (bytes: seq<byte>)
    requires p.Valid() && n <= p.BytesRemaining()
    ensures p.Input() == old(p.Input()) && n <= |Unread(p)| && bytes == Unread(p)[..n]
  {
    PosBound(p.buffer.fragments, p.at);
    var dst := new byte[n];
    FlatKept(p.buffer.fragments);
    var peeked := p.PeekTo(dst);
    bytes := dst[..];
    assert p.Input()[p.at.consumed..][..n] == p.Input()[p.at.consumed..p.at.consumed + n];
  }

  /** Moves past n bytes that are there. */
  method Take(p: Parser, n: nat)
    requires p.Valid() && n <= p.BytesRemaining()
    modifies p`at, p`cache
    ensures p.Valid() && p.Input() == old(p.Input()) && p.Where().stack == old(p.Where()).stack
    ensures p.at.consumed == old(p.at.consumed) + n
    ensures n <= |old(Unread(p))| && Unread(p) == old(Unread(p))[n..]
  {
    PosBound(p.buffer.fragments, p.at);
    var skipped := p.Skip(n);
    FlatKept(p.buffer.fragments);
    assert p.Input()[p.at.consumed..] == p.Input()[old(p.at.consumed)..][n..];
  }

  /** read_varuint: a complete minimal encoding is consumed, anything else moves nothing. */
  method ReadVaruint(p: Parser, bits: nat, complete: bool) returns (r: Result<nat>)
    requires p.Valid() && bits > 0
    modifies p`at, p`cache
    ensures p.Valid() && p.Input() == old(p.Input()) && p.Where().stack == old(p.Where()).stack
    ensures match Decode(old(Unread(p)), bits, true)
      case Value(v, n) =>
        && r == Ok(v) && n <= |old(Unread(p))|
        && p.at.consumed == old(p.at.consumed) + n && Unread(p) == old(Unread(p))[n..]
      case Bad(_) => r == Err(MalformedData) && p.at.consumed == old(p.at.consumed)
      case Short => r == Err(ReadError(TruncatedData, complete)) && p.at.consumed == old(p.at.consumed)
  {
    var n := Min(p.BytesRemaining(), MaxBytes(bits));
    var encoded := PeekBytes(p, n);
    DecodeWindow(Unread(p), bits);
    ghost var rest := Unread(p);
    assert n == Min(|rest|, MaxBytes(bits));
    label Peeked:
    var probe := ProbeLoop(encoded, bits);
    FlatKept@Peeked(p.buffer.fragments);
    match probe {
      case Value(v, size) =>
        DecodeSound(encoded, bits, true);
        Take(p, size);
        return Ok(v);
      case Bad(_) => return Err(MalformedData);
      case Short => return Err(ReadError(TruncatedData, complete));
    }
  }

  /** A callback that failed may have moved the cursor, but only forward. */
  method Stray(p: Parser)
    requires p.Valid()
    modifies p`at, p`cache
    ensures p.Valid() && p.Input() == old(p.Input()) && p.Where().stack == old(p.Where()).stack
  {
    var n: nat := *;
    var skipped := p.Skip(n);
    FlatKept(p.buffer.fragments);
  }

  /** A read callback: what its codec makes of the unread bytes. */
  method ReadWith<T(!new)>(p: Parser, c: Codec<T>) returns (r: Result<T>, ghost n: nat)
    requires p.Valid() && Bounded(c)
    modifies p`at, p`cache
    ensures p.Valid() && p.Input() == old(p.Input()) && p.Where().stack == old(p.Where()).stack
    ensures r.Ok? ==> n <= |old(Unread(p))| && c.decode(old(Unread(p))) == Ok((r.value, n))
    ensures r.Ok? ==> p.at.consumed == old(p.at.consumed) + n && Unread(p) == old(Unread(p))[n..]
    ensures r.Err? ==> c.decode(old(Unread(p))) == Err(r.error)
  {
    ghost var unread := Unread(p);
    var bytes := PeekBytes(p, p.BytesRemaining());
    assert bytes == unread;
    match c.decode(bytes) {
      case Err(e) =>
        Stray(p);
        return Err(e), 0;
      case Ok((v, size)) =>
        Take(p, size);
        return Ok(v), size;
    }
  }

  /** The value callback, once the key has been read and is in order. */
  method ReadValue<K(!new), V(!new)>(p: Parser, f: Format<K, V>, last: Option<K>, key: K, ghost unread: seq<byte>,
                                     ghost n: nat)
    returns (r: Result<(K, V)>, ghost total: nat)
    requires p.Valid() && Bounded(f.value) && n <= |unread| && Unread(p) == unread[n..]
    requires f.key.decode(unread) == Ok((key, n)) && (last.Some? ==> f.less(last.value, key))
    modifies p`at, p`cache
    ensures p.Valid() && p.Input() == old(p.Input()) && p.Where().stack == old(p.Where()).stack
    ensures r.Ok? ==> n <= total <= |unread| && ParseOne(f, unread, last) == Ok((r.value, total))
    ensures r.Ok? ==> p.at.consumed == old(p.at.consumed) + total - n && Unread(p) == unread[total..]
    ensures r.Err? ==> ParseOne(f, unread, last) == Err(r.error)
  {
    var value;
    ghost var m;
    value, m := ReadWith(p, f.value);
    total := EntryIs(f, unread, last, key, n, value, m);
    r := if value.Ok? then Ok((key, value.value)) else Err(ReadError(value.error, f.complete));
  }

  /** Both callbacks for one entry, with the order check between them. */
  method ReadEntry<K(!new), V(!new)>(p: Parser, f: Format<K, V>, last: Option<K>)
    returns (r: Result<(K, V)>, ghost n: nat)
    requires p.Valid() && Bounded(f.key) && Bounded(f.value)
    modifies p`at, p`cache
    ensures p.Valid() && p.Input() == old(p.Input()) && p.Where().stack == old(p.Where()).stack
    ensures r.Ok? ==> n <= |old(Unread(p))| && ParseOne(f, old(Unread(p)), last) == Ok((r.value, n))
    ensures r.Ok? ==> p.at.consumed == old(p.at.consumed) + n && Unread(p) == old(Unread(p))[n..]
    ensures r.Err? ==> ParseOne(f, old(Unread(p)), last) == Err(r.error)
  {
    ghost var unread := Unread(p);
    var key;
    key, n := ReadWith(p, f.key);
    if key.Err? {
      return Err(ReadError(key.error, f.complete)), n;
    }
    if last.Some? && !f.less(last.value, key.value) {
      return Err(MalformedData), n;
    }
    r, n := ReadValue(p, f, last, key.value, unread, n);
  }

  /** What is in the sink and what waits to go there. */
  ghost function InOrder<K, V>(sink: seq<(K, V)>, pending: Option<(K, V)>): seq<(K, V)> {
    match pending
    case None => sink
    case Some(entry) => sink + [entry]
  }

  /** How things stand with the work account: `ready` is whatever else the caller must bring. */
  ghost function TermsOf(work: Work, bytes: nat, items: nat, ready: bool): Terms
    reads work
  {
    Terms(work.abortRequested, ready, work.WithinQuantum(bytes, Work.Cost(bytes, items)))
  }

  /** Admits and reads one entry. */
  method NextEntry<K(!new), V(!new)>(p: Parser, work: Work, f: Format<K, V>, bytes: nat, items: nat, last: Option<K>)
    returns (r: Result<(K, V)>, refused: bool, ghost n: nat)
    requires p.Valid() && work.Valid() && Bounded(f.key) && Bounded(f.value)
    modifies p`at, p`cache, work
    ensures p.Valid() && p.Input() == old(p.Input()) && p.Where().stack == old(p.Where()).stack
    ensures work.Valid() && (old(work.abortRequested) ==> work.abortRequested)
    ensures refused ==> r.Err? && TermsOf(work, bytes, items, true).Withhold(r.error)
    ensures !refused ==> work.WithinQuantum(bytes, Work.Cost(bytes, items))
    ensures r.Ok? ==> n <= |old(Unread(p))| && ParseOne(f, old(Unread(p)), last) == Ok((r.value, n))
    ensures r.Ok? ==> p.at.consumed == old(p.at.consumed) + n && Unread(p) == old(Unread(p))[n..]
    ensures r.Err? && !refused ==> ParseOne(f, old(Unread(p)), last) == Err(r.error)
  {
    n := 0;
    var failed := work.Step(bytes, items);
    FlatKept(p.buffer.fragments);
    if failed.Some? {
      return Err(failed.value), true, n;
    }
    r, n := ReadEntry(p, f, last);
    refused := false;
  }

  /** The same, of a reading in progress: es have been read, and took `used` bytes of the input. */
  method NextTaken<K(!new), V(!new)>(p: Parser, work: Work, f: Format<K, V>, bytes: nat, items: nat, last: Option<K>,
                                     ghost input: seq<byte>, ghost es: seq<(K, V)>, ghost used: nat)
    returns (r: Result<(K, V)>, refused: bool, ghost more: seq<(K, V)>, ghost end: nat)
    requires p.Valid() && work.Valid() && Bounded(f.key) && Bounded(f.value)
    requires Took(f, input, es, used) && Unread(p) == input[used..] && last == LastKey(es)
    modifies p`at, p`cache, work
    ensures p.Valid() && p.Input() == old(p.Input()) && p.Where().stack == old(p.Where()).stack
    ensures work.Valid() && (old(work.abortRequested) ==> work.abortRequested)
    ensures refused ==> r.Err? && TermsOf(work, bytes, items, true).Withhold(r.error)
    ensures !refused ==> work.WithinQuantum(bytes, Work.Cost(bytes, items))
    ensures r.Err? && !refused ==> ParseOne(f, input[used..], last) == Err(r.error)
    ensures r.Ok? ==>
      && used <= end <= |input| && more == es + [r.value] && Took(f, input, more, end)
      && p.at.consumed == old(p.at.consumed) + end - used && Unread(p) == input[end..]
  {
    ghost var n;
    r, refused, n := NextEntry(p, work, f, bytes, items, last);
    more, end := es, used;
    if r.Ok? {
      more, end := TakenStep(f, input, es, used, r.value, n);
    }
  }

  /** The sink with what waited, if its owner takes it. */
  function Offer<K, V>(f: Format<K, V>, sink: seq<(K, V)>, pending: Option<(K, V)>): (r: Result<seq<(K, V)>>)
    requires Inserted(f, sink)
    ensures r.Ok? ==> r.value == InOrder(sink, pending) && Inserted(f, r.value)
    ensures r.Err? ==> pending.Some? && f.insert(sink, pending.value) == Some(r.error)
  {
    match pending
    case None => Ok(sink)
    case Some(entry) =>
      match f.insert(sink, entry)
      case Some(error) => Err(error)
      case None =>
        InsertedMore(f, sink, entry);
        Ok(sink + [entry])
  }

  /** The entry loop. An entry goes to the sink only when the one after it has been read, and the
      sink's owner may refuse any of them. `es` is every entry read. */
  method EntryLoop<K(!new), V(!new)>(p: Parser, work: Work, f: Format<K, V>, count: nat, bytes: nat, items: nat)
    returns (failed: Option<Errc>, refused: bool, sink: seq<(K, V)>, pending: Option<(K, V)>,
             ghost es: seq<(K, V)>, ghost used: nat)
    requires p.Valid() && work.Valid() && Bounded(f.key) && Bounded(f.value)
    modifies p`at, p`cache, work
    ensures p.Valid() && p.Input() == old(p.Input()) && p.Where().stack == old(p.Where()).stack
    ensures work.Valid() && (old(work.abortRequested) ==> work.abortRequested)
    ensures |es| <= count && Took(f, old(Unread(p)), es, used) && sink <= es && Inserted(f, sink)
    ensures failed.None? ==> |es| == count && es == InOrder(sink, pending) && p.at.consumed == old(p.at.consumed) + used
    ensures pending.Some? ==> work.WithinQuantum(bytes, Work.Cost(bytes, items))
    ensures failed.Some? && refused ==>
      TermsOf(work, bytes, items, true).Withhold(failed.value) || Balked(f, es, sink, failed.value)
    ensures
      failed.Some? && !refused ==>
      |es| < count && ParseOne(f, old(Unread(p))[used..], LastKey(es)) == Err(failed.value)
  {
    ghost var input, start := Unread(p), p.at.consumed;
    failed, refused, sink, pending, es, used := None, false, [], None, [], 0;
    assert input[0..] == input;
    for index := 0 to count
      invariant p.Valid() && p.Input() == old(p.Input()) && p.Where().stack == old(p.Where()).stack
      invariant work.Valid() && (old(work.abortRequested) ==> work.abortRequested)
      invariant |es| == index && Took(f, input, es, used) && failed.None? && !refused
      invariant es == InOrder(sink, pending) && (pending.None? ==> es == []) && Inserted(f, sink)
      invariant p.at.consumed == start + used && Unread(p) == input[used..]
      invariant pending.Some? ==> work.WithinQuantum(bytes, Work.Cost(bytes, items))
    {
      var last := if pending.None? then None else Some(pending.value.0);
      var entry;
      ghost var more, end;
      entry, refused, more, end := NextTaken(p, work, f, bytes, items, last, input, es, used);
      if entry.Err? {
        failed := Some(entry.error);
        return;
      }
      var taken := Offer(f, sink, pending);
      if taken.Err? {
        failed, refused := Some(taken.error), true;
        return;
      }
      sink, pending, es, used := taken.value, Some(entry.value), more, end;
    }
  }

  /** The step of the last entry, which is drained if it is not admitted. */
  method InsertLast<K(!new), V(!new)>(work: Work, f: Format<K, V>, sink: seq<(K, V)>, pending: (K, V), bytes: nat,
                                      items: nat)
    returns (failed: Option<Errc>, taken: seq<(K, V)>)
    requires work.Valid() && work.WithinQuantum(bytes, Work.Cost(bytes, items)) && Inserted(f, sink)
    modifies work
    ensures work.Valid() && (old(work.abortRequested) ==> work.abortRequested) && Inserted(f, taken)
    ensures failed.None? ==> taken == sink + [pending]
    ensures failed.Some? ==>
      && taken == sink
      && (TermsOf(work, bytes, items, true).Withhold(failed.value) || f.insert(sink, pending) == failed)
  {
    taken := sink;
    failed := work.Step(bytes, items);
    if failed.Some? {
      work.Drain(bytes, items);
      return;
    }
    failed := f.insert(sink, pending);
    if failed.None? {
      InsertedMore(f, sink, pending);
      taken := sink + [pending];
    }
  }

  /** The entries behind the count: the last one is inserted by a step of its own, and one still pending
      on the way out is drained, at a cost that was admitted when it was read. */
  method ReadEntries<K(!new), V(!new)>(p: Parser, work: Work, f: Format<K, V>, count: nat, bytes: nat, items: nat)
    returns (failed: Option<Errc>, refused: bool, sink: seq<(K, V)>)
    requires p.Valid() && work.Valid() && Bounded(f.key) && Bounded(f.value)
    modifies p`at, p`cache, work
    ensures p.Valid() && p.Input() == old(p.Input()) && p.Where().stack == old(p.Where()).stack
    ensures work.Valid() && (old(work.abortRequested) ==> work.abortRequested)
    ensures Ended(f, Parse(f, old(Unread(p)), count, None), failed, refused, sink, TermsOf(work, bytes, items, true))
    ensures failed.None? ==> p.at.consumed == old(p.at.consumed) + Parse(f, old(Unread(p)), count, None).used
  {
    ghost var input := Unread(p);
    var pending;
    ghost var es, used;
    failed, refused, sink, pending, es, used := EntryLoop(p, work, f, count, bytes, items);
    label Looped:
    if pending.Some? {
      if failed.None? {
        failed, sink := InsertLast(work, f, sink, pending.value, bytes, items);
        refused := failed.Some?;
      } else {
        work.Drain(bytes, items);
      }
    }
    FlatKept@Looped(p.buffer.fragments);
    LoopEnded(f, input, count, es, used, failed, refused, sink, TermsOf(work, bytes, items, true));
  }

  /** The reader inside its transaction: count, bound, entries, and a last look for an abort. */
  method ReadMapBody<K(!new), V(!new)>(p: Parser, work: Work, f: Format<K, V>, maximum: nat, bytes: nat, items: nat)
    returns (r: Result<nat>, sink: seq<(K, V)>, ghost moved: nat)
    requires p.Valid() && work.Valid() && Bounded(f.key) && Bounded(f.value)
    modifies p`at, p`cache, work
    ensures p.Valid() && p.Input() == old(p.Input()) && p.Where().stack == old(p.Where()).stack
    ensures work.Valid() && (old(work.abortRequested) ==> work.abortRequested)
    ensures MapRead(f, old(Unread(p)), maximum, r, sink, moved, TermsOf(work, bytes, items, true))
    ensures r.Ok? ==> p.at.consumed == old(p.at.consumed) + moved
  {
    ghost var input := Unread(p);
    sink, moved := [], 0;
    var count := ReadVaruint(p, 32, f.complete);
    if count.Err? {
      NothingRead(f, input, maximum, count.error, TermsOf(work, bytes, items, true));
      return Err(count.error), sink, moved;
    }
    if count.value > maximum {
      NothingRead(f, input, maximum, ResourceExhausted, TermsOf(work, bytes, items, true));
      return Err(ResourceExhausted), sink, moved;
    }
    var failed, refused;
    failed, refused, sink := ReadEntries(p, work, f, count.value, bytes, items);
    ghost var n := Decode(input, 32, true).size;
    EntriesRead(f, input, maximum, count.value, n, failed, refused, sink, TermsOf(work, bytes, items, true));
    moved := n + Parse(f, input[n..], count.value, None).used;
    if failed.Some? {
      return Err(failed.value), sink, moved;
    }
    if work.Poll().Err? {
      AbortedRead(f, input, maximum, Ok(count.value), sink, moved, TermsOf(work, bytes, items, true));
      return Err(Aborted), sink, moved;
    }
    return Ok(count.value), sink, moved;
  }

  /** The end of a parser transaction: commit keeps the position, rollback takes the mark's. */
  method EndTransaction(p: Parser, keep: bool, ghost was: Cursor)
    requires p.Valid() && p.depth > 0 && p.Where() == was
    modifies p
    ensures p.Valid() && p.Input() == old(p.Input())
    ensures was.stack != []
    ensures p.Where() == Cursor(if keep then was.index else was.stack[|was.stack| - 1], was.stack[..|was.stack| - 1])
  {
    if keep {
      var committed := p.Commit();
    } else {
      var restored := p.Rollback();
    }
    FlatKept(p.buffer.fragments);
  }

  /** The marked part: rolled back to the mark unless all of it went well. */
  method InTransaction<K(!new), V(!new)>(p: Parser, maximum: nat, work: Work, f: Format<K, V>, bytes: nat, items: nat)
    returns (r: Result<nat>, sink: seq<(K, V)>, ghost moved: nat)
    requires p.Valid() && work.Valid() && Bounded(f.key) && Bounded(f.value) && p.depth > 0
    modifies p, work
    ensures p.Valid() && p.Input() == old(p.Input())
    ensures work.Valid() && (old(work.abortRequested) ==> work.abortRequested)
    ensures MapRead(f, old(Unread(p)), maximum, r, sink, moved, TermsOf(work, bytes, items, true))
    ensures var was := old(p.Where());
      p.Where() == Cursor(if r.Ok? then was.index + moved else was.stack[|was.stack| - 1], was.stack[..|was.stack| - 1])
  {
    r, sink, moved := ReadMapBody(p, work, f, maximum, bytes, items);
    ghost var was, terms := p.Where(), TermsOf(work, bytes, items, true);
    EndTransaction(p, r.Ok?, was);
    assert TermsOf(work, bytes, items, true) == terms;
  }

  /** Offsets can be told, there is a charge function, the count's step fits a quantum, and a mark is free. */
  ghost predicate CanStart(p: Parser, charged: bool, work: Work, origin: nat)
    requires p.Valid()
    reads p, p.buffer
  {
    && origin <= U64_MAX - p.buffer.size && charged
    && work.WithinQuantum(Min(p.BytesRemaining(), 5), 6)
    && p.depth < MAX_CHECKPOINTS
  }

  /** The checks and the mark. */
  method Mark(p: Parser, charged: bool, work: Work, origin: nat) returns (refusal: Option<Errc>)
    requires p.Valid() && work.Valid()
    modifies p`checkpoints, p`depth, work
    ensures p.Valid() && p.Input() == old(p.Input())
    ensures work.Valid() && (old(work.abortRequested) ==> work.abortRequested)
    ensures refusal.Some? ==>
      && p.Where() == old(p.Where())
      && ((refusal.value == Aborted && work.abortRequested) || !old(CanStart(p, charged, work, origin)))
    ensures refusal.None? ==>
      && old(CanStart(p, charged, work, origin)) && p.depth > 0
      && p.Where() == Cursor(old(p.at.consumed), old(p.Where()).stack + [old(p.at.consumed)])
  {
    if origin > U64_MAX - p.buffer.size {
      return Some(InvalidArgument);
    }
    if work.Poll().Err? {
      return Some(Aborted);
    }
    if !charged {
      return Some(InvalidArgument);
    }
    refusal := work.Step(Min(p.BytesRemaining(), 5), 6);
    if refusal.None? {
      var marked := p.PushCheckpoint();
      if marked.Err? {
        refusal := Some(marked.error);
      }
    }
    FlatKept(p.buffer.fragments);
  }

  /** Reads a whole map, or none of it: on failure the parser is back where it was, and the caller's
      private sink holds an in-order prefix for it to discard. */
  method ReadOrderedMap<K(!new), V(!new)>(p: Parser, maximum: nat, charged: bool, work: Work, f: Format<K, V>,
                                         bytes: nat, items: nat, origin: nat)
    returns (r: Result<nat>, sink: seq<(K, V)>, ghost moved: nat)
    requires p.Valid() && work.Valid() && Bounded(f.key) && Bounded(f.value)
    modifies p, work
    ensures p.Valid() && p.Input() == old(p.Input())
    ensures work.Valid() && (old(work.abortRequested) ==> work.abortRequested)
    ensures MapRead(f, old(Unread(p)), maximum, r, sink, moved,
                    TermsOf(work, bytes, items, old(CanStart(p, charged, work, origin))))
    ensures p.Where() == old(p.Where()).(index := old(p.Where()).index + if r.Ok? then moved else 0)
    ensures r.Ok? ==> r.value == |sink| <= maximum && charged && origin + p.buffer.size <= U64_MAX
  {
    ghost var input, ready := Unread(p), CanStart(p, charged, work, origin);
    var refusal := Mark(p, charged, work, origin);
    if refusal.Some? {
      NothingRead(f, input, maximum, refusal.value, TermsOf(work, bytes, items, ready));
      return Err(refusal.value), [], 0;
    }
    r, sink, moved := InTransaction(p, maximum, work, f, bytes, items);
  }
}
