/**
 Fixed-width unsigned reads with an explicit byte order
 (src/bytes/fragmented_buffer_parser.h).
 */
module FixedWidth {
  import opened Units
  import opened Fragments
  import opened BufferParser

  function Pow256(n: nat): (r: nat)
    ensures r > 0
  {
    if n == 0 then 1 else 256 * Pow256(n - 1)
  }

  /** Least significant byte first. */
  function LeValue(b: seq<byte>): (v: nat)
    ensures v < Pow256(|b|)
  {
    if b == [] then 0 else b[0] as nat + 256 * LeValue(b[1..])
  }

  function LeBytes(v: nat, width: nat): (b: seq<byte>)
    ensures |b| == width
  {
    if width == 0 then [] else [(v % 256) as byte] + LeBytes(v / 256, width - 1)
  }

  function Reverse(b: seq<byte>): (r: seq<byte>)
    ensures |r| == |b|
  {
    if b == [] then [] else Reverse(b[1..]) + [b[0]]
  }

  /** Most significant byte first. */
  function BeValue(b: seq<byte>): nat {
    LeValue(Reverse(b))
  }

  /** Every value of the width is read back from its bytes, and the bytes are the only ones. */
  lemma {:induction false} LeRoundTrip(v: nat, width: nat)
    requires v < Pow256(width)
    ensures LeValue(LeBytes(v, width)) == v
  {
    if width > 0 {
      LeRoundTrip(v / 256, width - 1);
    }
  }

  lemma {:induction false} LeUnique(b: seq<byte>)
    ensures LeBytes(LeValue(b), |b|) == b
  {
    if b != [] {
      LeUnique(b[1..]);
      assert (b[0] as nat + 256 * LeValue(b[1..])) % 256 == b[0] as nat;
      assert b == [b[0]] + b[1..];
    }
  }

  lemma {:induction false} LeSnoc(b: seq<byte>, x: byte)
    ensures LeValue(b + [x]) == LeValue(b) + x as nat * Pow256(|b|)
  {
    if b == [] {
      assert [] + [x] == [x];
    } else {
      assert (b + [x])[1..] == b[1..] + [x];
      LeSnoc(b[1..], x);
      assert x as nat * Pow256(|b|) == 256 * (x as nat * Pow256(|b| - 1));
    }
  }

  /** The read_le fold: byte i is shifted above the bits already set, so or-ing it in adds it. */
  method FoldLe(raw: seq<byte>) returns (value: nat)
    ensures value == LeValue(raw)
  {
    value := 0;
    for i := 0 to |raw|
      invariant value == LeValue(raw[..i]) < Pow256(i)
    {
      LeSnoc(raw[..i], raw[i]);
      assert raw[..i + 1] == raw[..i] + [raw[i]];
      value := value + raw[i] as nat * Pow256(i);
    }
    assert raw[..|raw|] == raw;
  }

  lemma ReverseCons(b: seq<byte>, i: nat)
    requires i < |b|
    ensures Reverse(b[i..]) == Reverse(b[i + 1..]) + [b[i]]
  {
    assert b[i..][1..] == b[i + 1..];
  }

  lemma {:induction false} BePrefix(b: seq<byte>, i: nat)
    requires i < |b|
    ensures BeValue(b[i..]) == BeValue(b[i + 1..]) + b[i] as nat * Pow256(|b| - 1 - i)
  {
    ReverseCons(b, i);
    LeSnoc(Reverse(b[i + 1..]), b[i]);
  }

  /** The read_be fold: byte i is shifted to the place it has from the other end. */
  method FoldBe(raw: seq<byte>) returns (value: nat)
    ensures value == BeValue(raw)
  {
    value := 0;
    assert raw[0..] == raw;
    for i := 0 to |raw|
      invariant value + BeValue(raw[i..]) == BeValue(raw)
    {
      BePrefix(raw, i);
      value := value + raw[i] as nat * Pow256(|raw| - 1 - i);
    }
  }

  /** Reads a value of `width` bytes, or moves nothing. */
  method ReadFixed(p: Parser, width: nat, bigEndian: bool) returns (r: Result<nat>)
    requires p.Valid() && width in {1, 2, 4, 8}
    modifies p`at, p`cache
    ensures p.Valid() && p.Where().stack == old(p.Where()).stack && p.Input() == old(p.Input())
    ensures r.Ok? <==> old(p.at.consumed) + width <= p.buffer.size
    ensures r.Err? ==> r.error == TruncatedData && p.at.consumed == old(p.at.consumed)
    ensures r.Ok? ==>
      var raw := p.Input()[old(p.at.consumed)..old(p.at.consumed) + width];
      && r.value == (if bigEndian then BeValue(raw) else LeValue(raw))
      && p.at.consumed == old(p.at.consumed) + width
  {
    var raw := new byte[width];
    FlatKept(p.buffer.fragments);
    var read := p.ReadTo(raw);
    if read.Err? {
      return Err(read.error);
    }
    label Read:
    var bytes := raw[..];
    var value;
    if bigEndian {
      value := FoldBe(bytes);
    } else {
      value := FoldLe(bytes);
    }
    FlatKept@Read(p.buffer.fragments);
    assert bytes == p.Input()[old(p.at.consumed)..old(p.at.consumed) + width];
    return Ok(value);
  }
}
