/**
 An ordered map written into a builder, published, and read back through a
 parser, each with a work account of its own (src/codec/collection.h).
 */
module MapRoundTrip {
  import opened Units
  import opened Fragments
  import opened FragmentedBuffers
  import opened OpenTail
  import opened BufferBuilder
  import opened BufferParser
  import opened SizeClasses
  import opened MapCodec
  import opened CooperativeWork
  import opened OrderedMap
  import opened OrderedMapWriter
  import opened AppendOnly
  import opened Varuint

  /** Three bytes hold any count. */
  lemma CountFits(n: nat)
    requires n <= MAX_OBJECT_ENTRIES
    ensures |VarBytes(n)| <= 3
  {
    assert Pow2(5) == 32 && Pow2(10) == 1024 && Pow2(15) == 32768 && Pow2(17) == 131072;
    BitWidthSmall(n, 17);
    VarLength(n);
  }

  /** A builder of its own for n bytes, with room in its tail for any count. */
  method Prepare(config: Config, ghost n: nat) returns (r: Result<Builder>)
    requires config.Valid()
    ensures r.Err? ==> r.error != MalformedData
    ensures r.Ok? ==>
      && fresh(r.value) && r.value.Valid() && !r.value.finished
      && r.value.Content() == [] && 3 <= r.value.open.Capacity()
      && forall a :: a in r.value.open.SpareArray() ==> fresh(a)
    ensures Ample(config, n) && Ample(config, 3) && 3 <= config.maxFragment ==> r.Ok? && Room(r.value, n)
  {
    var b := new Builder(config);
    NextAllocationBounds(config, 0, 3);
    var reserved := b.Reserve(3);
    if reserved.Err? {
      return Err(reserved.error);
    }
    BeyondOpened(config, NOTHING, 3, b.open);
    if Ample(config, n) {
      PlentyLeft(config, NOTHING, b.open, 0, n);
    }
    return Ok(b);
  }

  /** What a caller must bring besides the builder: a bound on the count, and quanta large enough. */
  ghost predicate Allows<K, V>(es: seq<(K, V)>, maximum: nat, work: Work, bytes: nat, items: nat) {
    && |es| <= maximum
    && work.WithinQuantum(|VarBytes(|es|)|, 6) && work.WithinQuantum(bytes, Work.Cost(bytes, items))
  }

  /** Into a prepared builder, and out of it as a buffer. */
  method WriteOut<K, V>(b: Builder, f: Format<K, V>, es: seq<(K, V)>, maximum: nat, work: Work, bytes: nat, items: nat)
    returns (r: Result<FragmentedBuffer>)
    requires b.Valid() && !b.finished && b.Content() == [] && 3 <= b.open.Capacity()
    requires work.Valid() && maximum <= MAX_OBJECT_ENTRIES
    modifies b, b.open.SpareArray(), work
    ensures work.Valid()
    ensures r.Ok? ==>
      && fresh(r.value) && r.value.Valid() && r.value.Content() == EncodeMap(f, es)
      && KeysIncrease(es, f.less, None) && |es| <= maximum
    ensures r.Err? ==>
      || (r.error == Aborted && work.abortRequested)
      || (r.error == MalformedData && !KeysIncrease(es, f.less, None))
      || (r.error != MalformedData && !(Allows(es, maximum, work, bytes, items) && old(Room(b, |EncodeMap(f, es)|))))
  {
    if |es| <= maximum {
      CountFits(|es|);
    }
    var written;
    ghost var all;
    written, all := WriteOrderedMap(b, es, maximum, true, work, f, bytes, items, 0);
    if written.Err? {
      return Err(written.error);
    }
    assert [] + all == all;
    r := b.Finish();
  }

  /** Bounds and quanta large enough for a map. */
  ghost predicate Affords<K, V>(config: Config, f: Format<K, V>, es: seq<(K, V)>, maximum: nat, work: Work,
                                bytes: nat, items: nat) {
    && Allows(es, maximum, work, bytes, items)
    && Ample(config, |EncodeMap(f, es)|) && Ample(config, 3) && 3 <= config.maxFragment
  }

  /** A map in a buffer of its own, however that is fragmented: unless the keys are out of order, the caller
      cannot afford it or an abort is requested, it is written. */
  method WriteMap<K, V>(config: Config, f: Format<K, V>, es: seq<(K, V)>, maximum: nat, work: Work, bytes: nat,
                        items: nat)
    returns (r: Result<FragmentedBuffer>)
    requires config.Valid() && work.Valid() && maximum <= MAX_OBJECT_ENTRIES
    modifies work
    ensures work.Valid()
    ensures r.Ok? ==>
      && fresh(r.value) && r.value.Valid() && r.value.Content() == EncodeMap(f, es)
      && KeysIncrease(es, f.less, None) && |es| <= maximum
    ensures r.Err? ==>
      || (r.error == Aborted && work.abortRequested)
      || (r.error == MalformedData && !KeysIncrease(es, f.less, None))
      || (r.error != MalformedData && !Affords(config, f, es, maximum, work, bytes, items))
  {
    var prepared := Prepare(config, |EncodeMap(f, es)|);
    if prepared.Err? {
      return Err(prepared.error);
    }
    r := WriteOut(prepared.value, f, es, maximum, work, bytes, items);
  }

  /** A parser at the start of a buffer. */
  method Unparsed(buffer: FragmentedBuffer) returns (p: Parser)
    requires buffer.Valid()
    ensures fresh(p) && p.Valid() && p.buffer == buffer && p.depth == 0
    ensures Unread(p) == old(buffer.Content()) && buffer.Content() == old(buffer.Content())
    ensures p.at.consumed == 0
  {
    p := new Parser(buffer);
    FlatKept(buffer.fragments);
    assert p.Where().stack == [];
  }

  /** Reading it: the same entries, and nothing left unread. */
  method ReadMap<K(!new), V(!new)>(buffer: FragmentedBuffer, f: Format<K, V>, ghost es: seq<(K, V)>, maximum: nat,
                                   work: Work, bytes: nat, items: nat)
    returns (r: Result<nat>, sink: seq<(K, V)>)
    requires buffer.Valid() && buffer.Content() == EncodeMap(f, es) && KeysIncrease(es, f.less, None)
    requires work.Valid() && |es| <= maximum <= MAX_OBJECT_ENTRIES
    requires Bounded(f.key) && Bounded(f.value) && RoundTrips(f.key) && RoundTrips(f.value)
    modifies work
    ensures r.Ok? ==> r.value == |es| && sink == es
    ensures r.Err? && work.WithinQuantum(5, 6) ==>
      TermsOf(work, bytes, items, true).Withhold(r.error) || Balked(f, es, sink, r.error)
  {
    var p := Unparsed(buffer);
    ghost var ready, input, moved := CanStart(p, true, work, 0), Unread(p), 0;
    SmallCount();
    assert input == EncodeMap(f, es) + [];
    r, sink, moved := ReadOrderedMap(p, maximum, true, work, f, bytes, items, 0);
    WrittenIsRead(f, es, [], maximum, r, sink, moved, TermsOf(work, bytes, items, ready));
  }

  lemma SmallCount()
    ensures MAX_OBJECT_ENTRIES < Pow2(32)
  {
    assert Pow2(4) == 16 && Pow2(8) == 256 && Pow2(12) == 4096 && Pow2(16) == 65536;
    Pow2Monotone(17, 32);
  }

  /** Written, published, and read back: the same entries. Keys out of order, a bound or a quantum too small, or an
      abort are all that can stop the writing; an abort, a quantum too small or the sink's owner, the reading. */
  method WriteThenRead<K(!new), V(!new)>(config: Config, f: Format<K, V>, es: seq<(K, V)>, maximum: nat,
                                         writing: Work, reading: Work, bytes: nat, items: nat)
    returns (written: Result<FragmentedBuffer>, read: Result<nat>, sink: seq<(K, V)>)
    requires config.Valid() && writing.Valid() && reading.Valid() && writing != reading
    requires maximum <= MAX_OBJECT_ENTRIES
    requires Bounded(f.key) && Bounded(f.value) && RoundTrips(f.key) && RoundTrips(f.value)
    modifies writing, reading
    ensures written.Ok? ==> KeysIncrease(es, f.less, None)
    ensures written.Err? ==>
      || (written.error == Aborted && writing.abortRequested)
      || (written.error == MalformedData && !KeysIncrease(es, f.less, None))
      || (written.error != MalformedData && !Affords(config, f, es, maximum, writing, bytes, items))
    ensures written.Ok? && read.Ok? ==> read.value == |es| && sink == es
    ensures written.Ok? && read.Err? && reading.WithinQuantum(5, 6) ==>
      TermsOf(reading, bytes, items, true).Withhold(read.error) || Balked(f, es, sink, read.error)
  {
    read, sink := Err(Closed), [];
    written := WriteMap(config, f, es, maximum, writing, bytes, items);
    if written.Ok? {
      read, sink := ReadMap(written.value, f, es, maximum, reading, bytes, items);
    }
  }
}
