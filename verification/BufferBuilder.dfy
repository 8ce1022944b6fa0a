/**
 The only surface that writes buffer bytes: appends into the spare room of a tail
 fragment, splices of published fragments, zero-copy shares, rollback and
 publication (src/bytes/fragmented_buffer_builder.cc and its header).

 Several fragments, in this builder or in buffers already handed out, may lie on
 the array the builder still writes to. What keeps them apart is the spare
 region: the bytes of the tail past those written. Every step writes spare bytes
 only, and what is spare afterwards was spare before or is in new storage.
 */
module BufferBuilder {
  import opened Units
  import opened Fragments
  import opened FragmentedBuffers
  import opened OpenTail
  import opened BuilderSteps

  class Builder {
    const config: Config
    var open: Open
    var size: nat
    var finished: bool

    ghost predicate Valid()
      reads this
    {
      && Shaped(config, open)
      && size == Total(open.Shown()) <= config.maxTotal
      && (finished ==> open == NOTHING)
    }

    ghost function Content(): (b: seq<byte>)
      requires Valid()
      reads this, Arrays(open.Shown())
      ensures |b| == size
    {
      Flat(open.Shown())
    }

    constructor (config: Config)
      requires config.Valid()
      ensures Valid() && this.config == config && !finished && open == NOTHING
    {
      this.config, open, size, finished := config, NOTHING, 0, false;
    }

    /** ensure_appendable: why an append of this many bytes is refused outright. */
    function Refusal(incoming: nat): Option<Errc>
      reads this
    {
      if finished then Some(Closed)
      else if size + incoming > config.maxTotal then Some(ResourceExhausted)
      else None
    }

    /** Exactly when leading fragments can be taken over as they are. */
    predicate CanTake(fs: seq<Fragment>, count: nat)
      reads this
    {
      && count <= |fs|
      && (count == 0 || (Refusal(Total(fs[..count])).None? && Spliceable(config, open, fs[..count])))
    }

    /** Records an accepted step. */
    method Accept(next: Open, added: nat)
      requires Valid() && !finished && Shaped(config, next) && size + added <= config.maxTotal
      requires Total(next.Shown()) == size + added
      modifies this
      ensures Valid() && !finished && open == next
      ensures Flat(next.Shown()) == old(Flat(next.Shown()))
    {
      size := Add64(size, added);
      open := next;
      FlatKept(next.Shown());
    }

    /** Records an accepted transfer, after which `donor` presents only `rest`. */
    method TakeOver(next: Open, donor: FragmentedBuffer, rest: seq<Fragment>, bytes: nat, backing: nat)
      requires Valid() && !finished && Shaped(config, next) && size + bytes <= config.maxTotal
      requires Total(next.Shown()) == size + bytes
      requires donor.Valid() && Canonical(rest)
      requires Total(rest) + bytes == donor.size && Retained(rest) + backing == donor.retained
      modifies this, donor
      ensures Valid() && !finished && open == next
      ensures Flat(next.Shown()) == old(Flat(next.Shown())) && Flat(rest) == old(Flat(rest))
      ensures donor.Valid() && donor.fragments == rest && donor.generation == Bumped(old(donor.generation))
    {
      Accept(next, bytes);
      donor.Present(rest, bytes, backing);
      FlatKept(next.Shown());
      FlatKept(rest);
    }

    method TakeAll(next: Open, donor: FragmentedBuffer)
      requires Valid() && !finished && Shaped(config, next) && donor.Valid() && size + donor.size <= config.maxTotal
      requires Total(next.Shown()) == size + donor.size
      modifies this, donor
      ensures Valid() && !finished && open == next && Content() == old(Flat(next.Shown()))
      ensures donor.Valid() && donor.fragments == [] && donor.generation == Bumped(old(donor.generation))
    {
      TakeOver(next, donor, [], donor.size, donor.retained);
    }

    /** Copies bytes in. A refused append leaves the builder as it was. */
    method Append(bytes: seq<byte>) returns (r: Result<Unit>)
      requires Valid()
      modifies this, open.SpareArray()
      ensures Valid() && finished == old(finished) && Keeps(old(open), [], open)
      ensures r.Ok? <==> old(Refusal(|bytes|)).None? && Accepts(config, old(open), |bytes|)
      ensures r.Ok? ==> Content() == old(Content()) + bytes && Appended(config, old(open), |bytes|, open)
      ensures r.Err? ==> r.error == old(Refusal(|bytes|)).GetOr(ResourceExhausted)
      ensures r.Err? ==> open == old(open) && Content() == old(Content())
    {
      match Refusal(|bytes|) {
        case Some(error) =>
          KeepsSame(open, []);
          return Err(error);
        case None =>
      }
      var ok := Write(bytes);
      return if ok then Ok(Unit) else Err(ResourceExhausted);
    }

    method Write(bytes: seq<byte>) returns (ok: bool)
      requires Valid() && Refusal(|bytes|).None?
      modifies this, open.SpareArray()
      ensures Valid() && !finished && Keeps(old(open), [], open)
      ensures ok <==> Accepts(config, old(open), |bytes|)
      ensures ok ==> Content() == old(Content()) + bytes && Appended(config, old(open), |bytes|, open)
      ensures !ok ==> open == old(open) && Content() == old(Content())
    {
      var next;
      ok, next := AppendBytes(config, open, bytes);
      if ok {
        Accept(next, |bytes|);
      }
    }

    /** Copies one external range in, whole or not at all. `src` must not overlap the bytes written. */
    method AppendFragmentCopy(src: Fragment) returns (r: Result<Unit>)
      requires Valid() && src.InRange() && open.Clear(src)
      modifies this, open.SpareArray()
      ensures Valid() && finished == old(finished) && Keeps(old(open), [], open)
      ensures r.Ok? <==>
        old(Refusal(src.len)).None? && src.len <= config.maxFragment && CopyFits(config, old(open), src.len)
      ensures r.Ok? ==>
        Content() == old(Content()) + old(src.Bytes()) && CopiedIn(config, old(open), src.len, open)
      ensures r.Ok? && src.len > PACK_COPY_THRESHOLD ==>
        && open.fragments == old(open).Shown() + [open.Tail()] && open.Tail().Whole(src.len) && open.Capacity() == 0
        && open.retained == old(open).retained + src.len
      ensures r.Ok? && src.len <= Min(PACK_COPY_THRESHOLD, old(open).Capacity()) ==>
        open == old(open).Wrote(src.len)
      ensures r.Err? ==> r.error == old(Refusal(src.len)).GetOr(ResourceExhausted)
      ensures r.Err? ==> open == old(open) && Content() == old(Content())
    {
      KeepsSame(open, []);
      match Refusal(src.len) {
        case Some(error) => return Err(error);
        case None =>
      }
      if src.len > config.maxFragment {
        return Err(ResourceExhausted);
      }
      var ok := WriteWhole(src);
      return if ok then Ok(Unit) else Err(ResourceExhausted);
    }

    method WriteWhole(src: Fragment) returns (ok: bool)
      requires Valid() && src.InRange() && open.Clear(src) && Refusal(src.len).None? && src.len <= config.maxFragment
      modifies this, open.SpareArray()
      ensures Valid() && !finished && Keeps(old(open), [], open)
      ensures ok <==> CopyFits(config, old(open), src.len)
      ensures ok ==> Content() == old(Content()) + old(src.Bytes()) && CopiedIn(config, old(open), src.len, open)
      ensures !ok ==> open == old(open) && Content() == old(Content())
    {
      var next := CopyIn(config, open, src);
      ok := next.Some?;
      if ok {
        Accept(next.value, src.len);
      }
    }

    /** At least `bytes` of room in the tail; nothing is added to the content. */
    method Reserve(bytes: nat) returns (r: Result<Unit>)
      requires Valid()
      modifies this
      ensures Valid() && finished == old(finished) && Keeps(old(open), [], open)
      ensures Content() == old(Content())
      ensures
        r.Ok? <==>
        old(Refusal(bytes)).None? && bytes <= config.maxFragment && ReserveFits(config, old(open), bytes)
      ensures r.Ok? ==> Reserved(config, old(open), bytes, open) && bytes <= open.Capacity()
      ensures r.Err? ==> open == old(open)
      ensures r.Err? ==>
        r.error == if finished then Closed else if bytes > config.maxFragment then OutOfRange else ResourceExhausted
    {
      KeepsSame(open, []);
      if finished {
        return Err(Closed);
      }
      if bytes == 0 {
        return Ok(Unit);
      }
      if bytes > config.maxFragment {
        return Err(OutOfRange);
      }
      match Refusal(bytes) {
        case Some(error) => return Err(error);
        case None =>
      }
      var ok := Widen(bytes);
      return if ok then Ok(Unit) else Err(ResourceExhausted);
    }

    method Widen(bytes: nat) returns (ok: bool)
      requires Valid() && 0 < bytes <= config.maxFragment && Refusal(bytes).None?
      modifies this
      ensures Valid() && !finished && Keeps(old(open), [], open) && Content() == old(Content())
      ensures ok <==> ReserveFits(config, old(open), bytes)
      ensures ok ==> Reserved(config, old(open), bytes, open) && bytes <= open.Capacity()
      ensures !ok ==> open == old(open)
    {
      var next := MakeRoom(config, open, bytes);
      ok := next.Some?;
      if ok {
        Accept(next.value, 0);
      }
    }

    /** Takes over all of a published buffer, which is left empty; a refusal leaves both as they were. */
    method AppendBuffer(other: FragmentedBuffer) returns (r: Result<Unit>)
      requires Valid() && other.Valid() && AllClear(open, other.fragments)
      modifies this, other, open.SpareArray()
      ensures Valid() && other.Valid() && finished == old(finished) && Keeps(old(open), old(other.fragments), open)
      ensures r.Ok? <==> old(Refusal(other.size).None? && DonationFits(config, open, other.fragments))
      ensures r.Ok? ==> Content() == old(Content()) + old(other.Content())
      ensures r.Ok? ==> open == Donation(old(open), old(other.fragments))
      ensures old(Refusal(other.size)).None? && old(other.size) <= Min(PACK_COPY_THRESHOLD, old(open).Capacity()) ==>
        r.Ok? && open == old(open).Wrote(old(other.size))
      ensures r.Ok? ==> other.fragments == [] && other.generation == Bumped(old(other.generation))
      ensures r.Err? ==> r.error == old(Refusal(other.size)).GetOr(ResourceExhausted)
      ensures r.Err? ==> open == old(open) && Content() == old(Content())
      ensures r.Err? ==> unchanged(other) && other.Content() == old(other.Content())
    {
      match Refusal(other.size) {
        case Some(error) => return Err(error);
        case None =>
      }
      if other.size <= Min(PACK_COPY_THRESHOLD, open.Capacity()) {
        SmallDonation(config, open, other.fragments);
      }
      var ok := Absorb(other);
      r := if ok then Ok(Unit) else Err(ResourceExhausted);
    }

    method Absorb(other: FragmentedBuffer) returns (ok: bool)
      requires Valid() && other.Valid() && AllClear(open, other.fragments) && Refusal(other.size).None?
      modifies this, other, open.SpareArray()
      ensures Valid() && other.Valid() && !finished && Keeps(old(open), old(other.fragments), open)
      ensures ok <==> old(DonationFits(config, open, other.fragments))
      ensures ok ==> Content() == old(Content()) + old(other.Content())
      ensures ok ==> open == Donation(old(open), old(other.fragments))
      ensures ok ==> other.fragments == [] && other.generation == Bumped(old(other.generation))
      ensures !ok ==> open == old(open) && Content() == old(Content())
      ensures !ok ==> unchanged(other) && other.Content() == old(other.Content())
    {
      var next := TakeFragments(config, open, other.fragments);
      if next.None? {
        return false;
      }
      TakeAll(next.value, other);
      return true;
    }

    method SpliceIn(source: FragmentedBuffer, count: nat, logical: nat, backing: nat)
      requires Valid() && !finished && source.Valid() && 0 < count <= |source.fragments|
      requires logical == Total(source.fragments[..count]) && backing == Retained(source.fragments[..count])
      requires size + logical <= config.maxTotal
      requires Spliceable(config, open, source.fragments[..count])
      modifies this, source
      ensures Valid() && !finished && source.Valid() && open == Splice(old(open), old(source.fragments)[..count])
      ensures source.fragments == old(source.fragments)[count..] && source.generation == Bumped(old(source.generation))
      ensures logical <= |old(source.Content())|
      ensures source.Content() == old(source.Content())[logical..]
      ensures Content() == old(Content()) + old(source.Content())[..logical]
    {
      var front, rest := source.fragments[..count], source.fragments[count..];
      SuffixCanonical(source.fragments, count);
      LeadingBytes(source.fragments, count, front, rest, logical);
      ShapedSplice(config, open, front);
      TakeOver(Splice(open, front), source, rest, logical, backing);
    }

    /** Whether leading fragments can be taken over, and what they come to. */
    method WeighLeading(source: FragmentedBuffer, count: nat)
      returns (refused: Option<Errc>, logical: nat, backing: nat)
      requires Valid() && source.Valid()
      ensures refused.None? <==> !finished && CanTake(source.fragments, count)
      ensures refused.Some? ==>
        refused.value
        == if finished then Closed else if count > |source.fragments| then OutOfRange else ResourceExhausted
      ensures refused.None? ==>
        logical == Total(source.fragments[..count]) && backing == Retained(source.fragments[..count])
    {
      if finished {
        return Some(Closed), 0, 0;
      }
      if count > |source.fragments| {
        return Some(OutOfRange), 0, 0;
      }
      if count == 0 {
        return None, 0, 0;
      }
      logical, backing := SumLeading(source.fragments, count);
      if Refusal(logical).Some? {
        return Refusal(logical), logical, backing;
      }
      if count > config.maxFragments - |open.fragments| || open.retained + backing > config.maxRetained {
        return Some(ResourceExhausted), logical, backing;
      }
      refused := None;
    }

    /** Takes over exactly `count` leading fragments, with no byte copied. `moved` is what they hold. */
    method AppendFragments(source: FragmentedBuffer, count: nat) returns (r: Result<Unit>, ghost moved: nat)
      requires Valid() && source.Valid()
      modifies this, source
      ensures Valid() && source.Valid() && finished == old(finished)
      ensures r.Ok? <==> old(!finished && CanTake(source.fragments, count))
      ensures r.Ok? ==> Spliced(old(open), old(source.fragments)[..count], open)
      ensures r.Ok? ==> source.fragments == old(source.fragments)[count..]
      ensures source.generation == if r.Ok? && count > 0 then Bumped(old(source.generation)) else old(source.generation)
      ensures moved <= old(source.size) && moved == if r.Ok? then Total(old(source.fragments)[..count]) else 0
      ensures Content() == old(Content()) + old(source.Content())[..moved]
      ensures source.Content() == old(source.Content())[moved..]
      ensures r.Err? ==> open == old(open) && unchanged(source)
      ensures r.Err? ==>
        r.error == if finished then Closed else if count > |source.fragments| then OutOfRange else ResourceExhausted
    {
      moved := 0;
      assert source.Content()[..0] == [] && source.Content()[0..] == source.Content();
      var refused, logical, backing := WeighLeading(source, count);
      FlatKept(open.Shown());
      FlatKept(source.fragments);
      if refused.Some? {
        return Err(refused.value), moved;
      }
      if count > 0 {
        moved := logical;
        SpliceIn(source, count, logical, backing);
      }
      return Ok(Unit), moved;
    }

    /** A zero-copy share of bytes already written: it is clear of the spare bytes, so no later step
        of this builder changes it. */
    method Share(offset: nat, length: nat) returns (r: Result<FragmentedBuffer>)
      requires Valid() && Fits(offset) && Fits(length)
      ensures r.Ok? <==> !finished && offset + length <= size
      ensures r.Ok? ==> fresh(r.value) && r.value.Valid() && AllClear(open, r.value.fragments)
      ensures r.Ok? ==> r.value.fragments == Window(open.Shown(), offset, length)
      ensures r.Ok? ==> r.value.Content() == Content()[offset..offset + length]
      ensures r.Err? ==> r.error == if finished then Closed else OutOfRange
    {
      if finished {
        return Err(Closed);
      }
      var end := CheckedAdd(offset, length);
      if end.None? || end.value > size {
        return Err(OutOfRange);
      }
      if length == 0 {
        var empty := new FragmentedBuffer.Empty();
        return Ok(empty);
      }
      ShownTotals(open);
      WindowSound(open.Shown(), offset, length);
      var failed, windows, kept := ShareWindows(open.Shown(), offset, length);
      match failed {
        case Some(error) => return Err(error);
        case None =>
      }
      var shared := new FragmentedBuffer.Of(windows, length, kept);
      ShownClear(open);
      WindowClear(open, open.Shown(), offset, length);
      WindowFlat(open.Shown(), offset, length);
      return Ok(shared);
    }

    /** Publishes the content once. Neither of the two checks on what is published can fail. */
    method Finish() returns (r: Result<FragmentedBuffer>)
      requires Valid()
      modifies this
      ensures Valid() && finished
      ensures r == Err(Closed) <==> old(finished)
      ensures r.Ok? <==> !old(finished)
      ensures r.Ok? ==> fresh(r.value) && r.value.Valid() && r.value.Content() == old(Content())
      ensures r.Ok? ==> r.value.fragments == Dense(old(open).Shown()) && r.value.retained <= config.maxRetained
    {
      if finished {
        return Err(Closed);
      }
      var fs, count, backing := open.Shown(), size, open.retained;
      ShownTotals(open);
      NothingShaped(config);
      finished, open, size := true, NOTHING, 0;
      FlatKept(fs);
      r := Publish(fs, count, backing);
    }
  }
}
