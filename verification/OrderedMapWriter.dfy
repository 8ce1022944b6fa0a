/**
 Writing an ordered map into a private builder (src/codec/collection.h).
 */
module OrderedMapWriter {
  import opened Units
  import opened Fragments
  import opened OpenTail
  import opened BufferBuilder
  import opened Varuint
  import opened MapCodec
  import opened CooperativeWork
  import opened OrderedMap

  /** Room for n more bytes, in total and in storage, however they are cut up. */
  ghost predicate Room(b: Builder, n: nat)
    requires b.Valid()
    reads b
  {
    b.size + n <= b.config.maxTotal && Plenty(b.config, b.open, n)
  }

  /** Appends one scalar or one callback's bytes: all of them, or none. `now` is the content after it, and
      `left` what is to follow. */
  method AppendPart(b: Builder, bytes: seq<byte>, ghost need: nat, ghost left: nat)
    returns (r: Result<Unit>, ghost now: seq<byte>)
    requires b.Valid() && !b.finished && need == |bytes| + left
    modifies b, b.open.SpareArray()
    ensures b.Valid() && !b.finished && SpareFrom(old(b.open), b.open) && Beyond(b.config, old(b.open), b.open)
    ensures b.Content() == now
    ensures r.Ok? ==> now == old(b.Content()) + bytes
    ensures r.Err? ==> now == old(b.Content()) && r.error == ResourceExhausted
    ensures old(Room(b, need)) ==> r.Ok? && Room(b, left)
  {
    ghost var before, room := b.open, Room(b, need);
    if room {
      PlentyAccepts(b.config, before, |bytes|);
    }
    r := b.Append(bytes);
    now := b.Content();
    if r.Ok? {
      AppendedBeyond(b.config, before, |bytes|, b.open);
    }
    if room {
      PlentyLeft(b.config, before, b.open, |bytes|, left);
    }
  }

  /** The count, in the tail's own room: it can be refused for the builder's total only. */
  method WriteCount(b: Builder, n: nat, ghost need: nat, ghost left: nat)
    returns (r: Result<Unit>, ghost now: seq<byte>)
    requires b.Valid() && !b.finished && |VarBytes(n)| <= b.open.Capacity() && need == |VarBytes(n)| + left
    modifies b, b.open.SpareArray()
    ensures b.Valid() && !b.finished && b.Content() == now
    ensures r.Ok? <==> old(b.size) + |VarBytes(n)| <= b.config.maxTotal
    ensures r.Ok? ==> now == old(b.Content()) + VarBytes(n) && b.open == old(b.open).Wrote(|VarBytes(n)|)
    ensures r.Err? ==> now == old(b.Content()) && b.open == old(b.open) && r.error == ResourceExhausted
    ensures old(Room(b, need)) ==> Room(b, left)
  {
    ghost var before, room := b.open, Room(b, need);
    FitsTail(b.config, before, |VarBytes(n)|);
    r := b.Append(VarBytes(n));
    now := b.Content();
    if room {
      PlentyLeft(b.config, before, b.open, |VarBytes(n)|, left);
    }
  }

  /** A part behind x, which was appended to a builder that held `before`. */
  method AppendSecond(b: Builder, x: seq<byte>, y: seq<byte>, ghost need: nat, ghost left: nat,
                      ghost before: seq<byte>, ghost start: Open)
    returns (r: Result<Unit>, ghost part: seq<byte>, ghost now: seq<byte>)
    requires b.Valid() && !b.finished && need == |y| + left && b.Content() == before + x
    requires start.Ok() && Beyond(b.config, start, b.open)
    modifies b, b.open.SpareArray()
    ensures b.Valid() && !b.finished && SpareFrom(old(b.open), b.open) && Beyond(b.config, start, b.open)
    ensures b.Content() == now == before + part
    ensures if r.Ok? then part == x + y else r.error == ResourceExhausted && part == x
    ensures old(Room(b, need)) ==> r.Ok? && Room(b, left)
  {
    ghost var mid, half := b.Content(), b.open;
    r, now := AppendPart(b, y, need, left);
    BeyondOn(b.config, start, half, b.open);
    part := if r.Ok? then x + y else x;
    if r.Ok? {
      Glued(before, mid, now, x, y, x + y);
    }
  }

  /** One part and another behind it. On failure the first may have been written. */
  method AppendTwo(b: Builder, x: seq<byte>, y: seq<byte>, ghost need: nat, ghost left: nat)
    returns (r: Result<Unit>, ghost part: seq<byte>, ghost now: seq<byte>)
    requires b.Valid() && !b.finished && need == |x| + |y| + left
    modifies b, b.open.SpareArray()
    ensures b.Valid() && !b.finished && SpareFrom(old(b.open), b.open) && Beyond(b.config, old(b.open), b.open)
    ensures b.Content() == now == old(b.Content()) + part
    ensures if r.Ok? then part == x + y else r.error == ResourceExhausted && (part == [] || part == x)
    ensures old(Room(b, need)) ==> r.Ok? && Room(b, left)
  {
    ghost var before, rest, mid := b.Content(), |y| + left, [];
    r, mid := AppendPart(b, x, need, rest);
    if r.Err? {
      return r, [], mid;
    }
    r, part, now := AppendSecond(b, x, y, rest, left, before, old(b.open));
  }

  /** Both callbacks for one entry. On failure a part of its bytes may have been written. */
  method WriteEntry<K, V>(b: Builder, f: Format<K, V>, entry: (K, V), ghost need: nat, ghost left: nat)
    returns (r: Result<Unit>, ghost part: seq<byte>, ghost now: seq<byte>)
    requires b.Valid() && !b.finished && need == |EncodeEntry(f, entry)| + left
    modifies b, b.open.SpareArray()
    ensures b.Valid() && !b.finished && SpareFrom(old(b.open), b.open) && Beyond(b.config, old(b.open), b.open)
    ensures b.Content() == now == old(b.Content()) + part
    ensures part <= EncodeEntry(f, entry)
    ensures r.Ok? ==> part == EncodeEntry(f, entry)
    ensures r.Err? ==> r.error == ResourceExhausted
    ensures old(Room(b, need)) ==> r.Ok? && Room(b, left)
  {
    r, part, now := AppendTwo(b, f.key.encode(entry.0), f.value.encode(entry.1), need, left);
  }

  const MAX_OBJECT_ENTRIES: nat := 65536

  ghost predicate OrderedUpTo<K, V>(es: seq<(K, V)>, less: (K, K) -> bool, i: nat) {
    forall j :: 0 < j < i && j < |es| ==> less(es[j - 1].0, es[j].0)
  }

  /** Admits one entry and checks that its key comes after the one before it. */
  method CheckNext<K, V>(work: Work, f: Format<K, V>, es: seq<(K, V)>, i: nat, bytes: nat, items: nat)
    returns (failed: Option<Errc>)
    requires work.Valid() && i < |es| && OrderedUpTo(es, f.less, i)
    modifies work
    ensures work.Valid() && (old(work.abortRequested) ==> work.abortRequested)
    ensures failed.None? ==> OrderedUpTo(es, f.less, i + 1)
    ensures failed.Some? ==>
      || TermsOf(work, bytes, items, true).Withhold(failed.value)
      || (failed.value == MalformedData && !OrderedUpTo(es, f.less, i + 1))
  {
    failed := work.Step(bytes, items);
    if failed.None? && i > 0 && !f.less(es[i - 1].0, es[i].0) {
      return Some(MalformedData);
    }
  }

  /** Admits, checks and writes one entry after those before it. */
  method NextWrite<K, V>(b: Builder, work: Work, f: Format<K, V>, es: seq<(K, V)>, i: nat, bytes: nat, items: nat,
                         ghost need: nat, ghost left: nat)
    returns (r: Result<Unit>, ghost part: seq<byte>, ghost now: seq<byte>)
    requires b.Valid() && !b.finished && work.Valid() && i < |es| && OrderedUpTo(es, f.less, i)
    requires need == |EncodeEntry(f, es[i])| + left
    modifies b, b.open.SpareArray(), work
    ensures b.Valid() && !b.finished && SpareFrom(old(b.open), b.open) && Beyond(b.config, old(b.open), b.open)
    ensures work.Valid() && (old(work.abortRequested) ==> work.abortRequested)
    ensures b.Content() == now == old(b.Content()) + part && part <= EncodeEntry(f, es[i])
    ensures r.Ok? ==> part == EncodeEntry(f, es[i]) && OrderedUpTo(es, f.less, i + 1)
    ensures r.Ok? && old(Room(b, need)) ==> Room(b, left)
    ensures r.Err? ==>
      || TermsOf(work, bytes, items, true).Withhold(r.error)
      || (r.error == MalformedData && !OrderedUpTo(es, f.less, i + 1))
      || (r.error == ResourceExhausted && !old(Room(b, need)))
  {
    var failed := CheckNext(work, f, es, i, bytes, items);
    FlatKept(b.open.Shown());
    if failed.Some? {
      return Err(failed.value), [], b.Content();
    }
    r, part, now := WriteEntry(b, f, es[i], need, left);
  }

  /** The same, of a writing in progress: `written` is what follows `before`, and nothing of `start` was given up. */
  method WriteNext<K, V>(b: Builder, work: Work, f: Format<K, V>, es: seq<(K, V)>, i: nat, bytes: nat, items: nat,
                         ghost need: nat, ghost left: nat, ghost before: seq<byte>,
                         ghost written: seq<byte>, ghost start: Open)
    returns (r: Result<Unit>, ghost more: seq<byte>)
    requires b.Valid() && !b.finished && work.Valid() && i < |es| && OrderedUpTo(es, f.less, i)
    requires need == |EncodeEntry(f, es[i])| + left
    requires b.Content() == before + written && WrittenSo(f, es, i, written)
    requires start.Ok() && Beyond(b.config, start, b.open)
    modifies b, b.open.SpareArray(), work
    ensures b.Valid() && !b.finished && SpareFrom(old(b.open), b.open) && Beyond(b.config, start, b.open)
    ensures work.Valid() && (old(work.abortRequested) ==> work.abortRequested)
    ensures b.Content() == before + more && written <= more <= EncodeMap(f, es)
    ensures r.Ok? ==> WrittenSo(f, es, i + 1, more) && OrderedUpTo(es, f.less, i + 1)
    ensures r.Ok? && old(Room(b, need)) ==> Room(b, left)
    ensures r.Err? ==>
      || TermsOf(work, bytes, items, true).Withhold(r.error)
      || (r.error == MalformedData && !OrderedUpTo(es, f.less, i + 1))
      || (r.error == ResourceExhausted && !old(Room(b, need)))
  {
    ghost var mid, was := b.Content(), b.open;
    ghost var part, now;
    r, part, now := NextWrite(b, work, f, es, i, bytes, items, need, left);
    BeyondOn(b.config, start, was, b.open);
    WrittenStep(f, es, i, written, part);
    Glued(before, mid, now, written, part, written + part);
    more := written + part;
  }

  lemma LeftToWrite<K, V>(f: Format<K, V>, es: seq<(K, V)>, i: nat, left: nat) returns (rest: nat)
    requires i < |es| && left == |EncodeEntries(f, es[i..])|
    ensures left == |EncodeEntry(f, es[i])| + rest && rest == |EncodeEntries(f, es[i + 1..])|
  {
    assert es[i..][1..] == es[i + 1..];
    rest := |EncodeEntries(f, es[i + 1..])|;
  }

  /** The entries, in order, behind the count, which has been written after `before`. */
  method WriteEntries<K, V>(b: Builder, work: Work, f: Format<K, V>, es: seq<(K, V)>, bytes: nat, items: nat,
                            ghost before: seq<byte>, ghost all: nat)
    returns (r: Result<Unit>, ghost written: seq<byte>)
    requires b.Valid() && !b.finished && work.Valid() && b.Content() == before + VarBytes(|es|)
    requires all == |EncodeEntries(f, es)|
    modifies b, b.open.SpareArray(), work
    ensures b.Valid() && work.Valid() && (old(work.abortRequested) ==> work.abortRequested)
    ensures b.Content() == before + written && written <= EncodeMap(f, es)
    ensures written != [] && Beyond(b.config, old(b.open), b.open)
    ensures r.Ok? ==> written == EncodeMap(f, es) && OrderedUpTo(es, f.less, |es|) && !b.finished
    ensures r.Err? ==>
      || TermsOf(work, bytes, items, true).Withhold(r.error)
      || (r.error == MalformedData && !OrderedUpTo(es, f.less, |es|))
      || (r.error == ResourceExhausted && !old(Room(b, all)))
  {
    ghost var room, left, need := Room(b, all), all, all;
    assert es[0..] == es;
    r, written := Ok(Unit), VarBytes(|es|);
    WrittenStart(f, es);
    for i := 0 to |es|
      invariant b.Valid() && !b.finished && work.Valid() && (old(work.abortRequested) ==> work.abortRequested)
      invariant b.Content() == before + written && WrittenSo(f, es, i, written) && written != []
      invariant OrderedUpTo(es, f.less, i) && r.Ok?
      invariant left == |EncodeEntries(f, es[i..])| && (room ==> Room(b, left))
      invariant SpareFrom(old(b.open), b.open) && Beyond(b.config, old(b.open), b.open)
    {
      need := left;
      left := LeftToWrite(f, es, i, need);
      r, written := WriteNext(b, work, f, es, i, bytes, items, need, left, before, written, old(b.open));
      if r.Err? {
        return;
      }
    }
    WrittenAll(f, es, written);
  }

  /** The count and the entries, in order. What was written is always the front of the map's encoding. */
  method WriteBody<K, V>(b: Builder, work: Work, f: Format<K, V>, es: seq<(K, V)>, bytes: nat, items: nat)
    returns (r: Result<Unit>, ghost written: seq<byte>)
    requires b.Valid() && !b.finished && work.Valid() && |VarBytes(|es|)| <= b.open.Capacity()
    modifies b, b.open.SpareArray(), work
    ensures b.Valid() && work.Valid() && (old(work.abortRequested) ==> work.abortRequested)
    ensures b.Content() == old(b.Content()) + written && written <= EncodeMap(f, es)
    ensures r.Ok? ==> written == EncodeMap(f, es) && OrderedUpTo(es, f.less, |es|) && !b.finished
    ensures written == [] ==> b.open == old(b.open)
    ensures written != [] ==> Beyond(b.config, old(b.open).Wrote(|VarBytes(|es|)|), b.open)
    ensures r.Err? ==>
      || TermsOf(work, bytes, items, true).Withhold(r.error)
      || (r.error == MalformedData && !OrderedUpTo(es, f.less, |es|))
      || (r.error == ResourceExhausted && !old(Room(b, |EncodeMap(f, es)|)))
  {
    ghost var before, need, left, now := b.Content(), |EncodeMap(f, es)|, |EncodeEntries(f, es)|, [];
    written := [];
    assert before + written == before;
    r, now := WriteCount(b, |es|, need, left);
    if r.Err? {
      return;
    }
    r, written := WriteEntries(b, work, f, es, bytes, items, before, left);
  }

  /** What a caller must bring for the count to be admitted: room in the tail for it, above all. */
  ghost predicate CanCount(b: Builder, n: nat, maximum: nat, charged: bool, work: Work, origin: nat)
    requires b.Valid()
    reads b
  {
    var prefix := |VarBytes(n)|;
    && !b.finished && charged && n <= maximum && origin + b.size + prefix <= U64_MAX
    && prefix <= b.open.Capacity() && work.WithinQuantum(prefix, 6)
  }

  /** What a caller must bring for anything but an abort or keys out of order to be the outcome. */
  ghost predicate Writable<K, V>(b: Builder, es: seq<(K, V)>, maximum: nat, charged: bool, work: Work, f: Format<K, V>,
                                 bytes: nat, items: nat, origin: nat)
    requires b.Valid()
    reads b
  {
    && CanCount(b, |es|, maximum, charged, work, origin)
    && work.WithinQuantum(bytes, Work.Cost(bytes, items)) && Room(b, |EncodeMap(f, es)|)
  }

  /** The checks before anything is written, and the admission of the count's own step. */
  method AdmitCount(b: Builder, n: nat, maximum: nat, charged: bool, work: Work, origin: nat)
    returns (failed: Option<Errc>)
    requires b.Valid() && work.Valid() && maximum <= MAX_OBJECT_ENTRIES && Fits(origin)
    modifies work
    ensures work.Valid() && (old(work.abortRequested) ==> work.abortRequested) && b.Content() == old(b.Content())
    ensures failed.None? ==> CanCount(b, n, maximum, charged, work, origin)
    ensures failed.Some? ==>
      || (failed.value == Aborted && work.abortRequested)
      || (failed.value != MalformedData && !CanCount(b, n, maximum, charged, work, origin))
  {
    if b.size > U64_MAX - origin {
      return Some(InvalidArgument);
    }
    if work.Poll().Err? {
      return Some(Aborted);
    }
    if !charged {
      return Some(InvalidArgument);
    }
    if n > maximum {
      return Some(ResourceExhausted);
    }
    var prefix := Max(1, (BitWidth(n) + 6) / 7);
    VarLength(n);
    if prefix > U64_MAX - (origin + b.size) {
      return Some(InvalidArgument);
    }
    if b.finished {
      return Some(Closed);
    }
    if b.open.Capacity() < prefix {
      return Some(ResourceExhausted);
    }
    failed := work.Step(prefix, 6);
    FlatKept(b.open.Shown());
  }

  /** Appends a whole map to a private builder that has room in its tail for the count, which goes there: no tail
      is opened for it, or given up. The keys must be strictly increasing; nothing is taken back on failure, but
      nothing else was written either. */
  method WriteOrderedMap<K, V>(b: Builder, es: seq<(K, V)>, maximum: nat, charged: bool, work: Work, f: Format<K, V>,
                              bytes: nat, items: nat, origin: nat)
    returns (r: Result<Unit>, ghost written: seq<byte>)
    requires b.Valid() && work.Valid() && maximum <= MAX_OBJECT_ENTRIES && Fits(origin)
    modifies b, b.open.SpareArray(), work
    ensures b.Valid() && work.Valid() && (old(work.abortRequested) ==> work.abortRequested)
    ensures b.Content() == old(b.Content()) + written && written <= EncodeMap(f, es)
    ensures r.Ok? ==> written == EncodeMap(f, es) && KeysIncrease(es, f.less, None) && |es| <= maximum && !b.finished
    ensures r.Ok? ==> charged && origin + old(b.size) + |VarBytes(|es|)| <= U64_MAX
    ensures written != [] ==>
      |VarBytes(|es|)| <= old(b.open).Capacity() && Beyond(b.config, old(b.open).Wrote(|VarBytes(|es|)|), b.open)
    ensures written == [] ==> b.open == old(b.open)
    ensures r.Err? ==>
      || (r.error == Aborted && work.abortRequested)
      || (r.error == MalformedData && !KeysIncrease(es, f.less, None))
      || (r.error != MalformedData && !old(Writable(b, es, maximum, charged, work, f, bytes, items, origin)))
  {
    written := [];
    var failed := AdmitCount(b, |es|, maximum, charged, work, origin);
    if failed.Some? {
      return Err(failed.value), written;
    }
    r, written := WriteBody(b, work, f, es, bytes, items);
    if r.Ok? && work.Poll().Err? {
      r := Err(Aborted);
    }
  }
}
