/**
 A builder that is only ever appended to: what it holds, when it refuses, and how
 few fragments it needs (src/bytes/fragmented_buffer_builder.cc:220-253).
 */
module AppendOnly {
  import opened Units
  import opened Fragments
  import opened OpenTail
  import opened BufferBuilder

  /** The bytes of the parts that were taken. */
  function Joined(parts: seq<seq<byte>>, took: seq<bool>): seq<byte>
    requires |parts| == |took|
  {
    if parts == [] then []
    else
      var n := |parts| - 1;
      Joined(parts[..n], took[..n]) + if took[n] then parts[n] else []
  }

  lemma PrefixStep(parts: seq<seq<byte>>, i: nat)
    requires i < |parts|
    ensures parts[..i + 1] == parts[..i] + [parts[i]]
  {
  }

  lemma WholePrefix(parts: seq<seq<byte>>)
    ensures parts[..|parts|] == parts
  {
  }

  /** A new builder could take n bytes, however they are cut up. */
  ghost predicate Ample(config: Config, n: nat) {
    n <= config.maxTotal && Plenty(config, NOTHING, n)
  }

  /** These are the bytes taken, and every part there was room for is among them. */
  ghost predicate Accounted(config: Config, parts: seq<seq<byte>>, took: seq<bool>, content: seq<byte>) {
    && |took| == |parts| && content == Joined(parts, took)
    && forall k :: 0 <= k < |parts| && Ample(config, |Joined(parts[..k], took[..k])| + |parts[k]|) ==> took[k]
  }

  lemma OneMore(config: Config, parts: seq<seq<byte>>, took: seq<bool>, content: seq<byte>, part: seq<byte>, ok: bool)
    requires Accounted(config, parts, took, content) && (Ample(config, |content| + |part|) ==> ok)
    ensures Accounted(config, parts + [part], took + [ok], content + if ok then part else [])
  {
    var i, some, now := |took|, parts + [part], took + [ok];
    assert some[..i] == parts && now[..i] == took;
    forall k | 0 <= k <= i && Ample(config, |Joined(some[..k], now[..k])| + |some[k]|) ensures now[k] {
      if k < i {
        assert some[..k] == parts[..k] && now[..k] == took[..k];
      }
    }
  }

  /** Room for the bytes taken and n more means room for n more now. */
  lemma StillAmple(config: Config, o: Open, n: nat)
    requires Shaped(config, o) && Beyond(config, NOTHING, o) && Ample(config, Total(o.Shown()) + n)
    ensures Accepts(config, o, n)
  {
    PlentyLeft(config, NOTHING, o, Total(o.Shown()), n);
    PlentyAccepts(config, o, n);
  }

  method AppendPart(b: Builder, part: seq<byte>) returns (ok: bool)
    requires b.Valid() && !b.finished && Beyond(b.config, NOTHING, b.open)
    modifies b, b.open.SpareArray()
    ensures b.Valid() && !b.finished && Beyond(b.config, NOTHING, b.open)
    ensures b.Content() == old(b.Content()) + if ok then part else []
    ensures Ample(b.config, |old(b.Content())| + |part|) ==> ok
    ensures SpareFrom(old(b.open), b.open)
  {
    ghost var before := b.open;
    ghost var ample := Ample(b.config, |b.Content()| + |part|);
    if ample {
      StillAmple(b.config, b.open, |part|);
    }
    var r := b.Append(part);
    ok := r.Ok?;
    if ok {
      AppendedBeyond(b.config, before, |part|, b.open);
      BeyondOn(b.config, NOTHING, before, b.open);
    }
  }

  /** Nothing but appends so far: these parts, of which those were taken. */
  ghost predicate Going(b: Builder, done: seq<seq<byte>>, took: seq<bool>)
    reads b, if b.Valid() then Arrays(b.open.Shown()) else {}
  {
    b.Valid() && !b.finished && Beyond(b.config, NOTHING, b.open) && Accounted(b.config, done, took, b.Content())
  }

  method AppendNext(b: Builder, ghost done: seq<seq<byte>>, took: seq<bool>, part: seq<byte>)
    returns (now: seq<bool>, ghost more: seq<seq<byte>>)
    requires Going(b, done, took)
    modifies b, b.open.SpareArray()
    ensures more == done + [part] && Going(b, more, now) && SpareFrom(old(b.open), b.open)
  {
    ghost var content := b.Content();
    var ok := AppendPart(b, part);
    OneMore(b.config, done, took, content, part, ok);
    now, more := took + [ok], done + [part];
  }

  method AppendEach(config: Config, parts: seq<seq<byte>>)
    returns (b: Builder, took: seq<bool>, ghost done: seq<seq<byte>>)
    requires config.Valid()
    ensures fresh(b) && b.config == config && done == parts[..|parts|] && Going(b, done, took)
  {
    b := new Builder(config);
    took, done := [], [];
    for i := 0 to |parts|
      invariant fresh(b) && b.config == config && done == parts[..i] && Going(b, done, took)
      invariant b.open.Capacity() > 0 ==> fresh(b.open.Tail().data)
    {
      took, done := AppendNext(b, done, took, parts[i]);
      PrefixStep(parts, i);
    }
  }

  /** Whatever is appended, the builder holds the parts it took, in order; it takes every part there is room for
      however the parts are cut; and it has no more fragments than its bytes call for. */
  method AppendAll(config: Config, parts: seq<seq<byte>>) returns (b: Builder, took: seq<bool>)
    requires config.Valid()
    ensures fresh(b) && b.Valid() && b.config == config
    ensures Accounted(config, parts, took, b.Content())
    ensures b.open.fragments != [] ==> (|b.open.fragments| - 1) * config.initialFragment <= |b.Content()|
  {
    ghost var done;
    b, took, done := AppendEach(config, parts);
    WholePrefix(parts);
    if b.open.fragments != [] {
      ChunkyBound(config, b.open);
    }
  }
}
