/**
 Minimal unsigned base-128 integers (src/codec/integer.cc).
 */
module Varuint {
  import opened Units
  import opened SizeClasses

  /** Seven bits to a byte, least significant first, a set top bit on all but the last. */
  function VarBytes(v: nat): (b: seq<byte>)
    ensures |b| > 0
  {
    if v < 128 then [v as byte] else [(v % 128 + 128) as byte] + VarBytes(v / 128)
  }

  /** What a probe finds: a value and its length, a byte no encoding has there, or too few bytes. */
  datatype Probe = Value(v: nat, size: nat) | Bad(at: nat) | Short

  /** The probe as a recursion on the bytes; `bits` is the width still open, `first` marks the front. */
  function Decode(b: seq<byte>, bits: nat, first: bool): Probe
    requires bits > 0
  {
    if b == [] then Short
    else
      var octet := b[0] as nat;
      if octet == 0 && !first then Bad(0)
      else if bits <= 7 && octet / Pow2(bits) != 0 then Bad(0)
      else if octet < 128 then Value(octet, 1)
      else if bits <= 7 then Bad(0)
      else
        match Decode(b[1..], bits - 7, false)
        case Value(v, n) => Value(octet - 128 + 128 * v, n + 1)
        case Bad(i) => Bad(i + 1)
        case Short => Short
  }

  lemma Pow2Seven(bits: nat)
    requires bits >= 7
    ensures Pow2(bits) == 128 * Pow2(bits - 7)
  {
    assert Pow2(bits) == 2 * Pow2(bits - 1) == 4 * Pow2(bits - 2) == 8 * Pow2(bits - 3);
    assert Pow2(bits - 3) == 2 * Pow2(bits - 4) == 4 * Pow2(bits - 5) == 8 * Pow2(bits - 6) == 16 * Pow2(bits - 7);
  }

  lemma {:induction false} LastByte(octet: nat, bits: nat)
    ensures octet / Pow2(bits) != 0 <==> octet >= Pow2(bits)
  {
    QuotientZero(octet, Pow2(bits));
  }

  lemma QuotientZero(n: nat, unit: nat)
    requires unit > 0
    ensures n / unit == 0 <==> n < unit
  {
    if n < unit {
      Quotient(n, unit, 0);
    }
  }

  /** A value found is in range, and the bytes are its encoding: no longer form of it is taken. */
  lemma {:induction false} DecodeSound(b: seq<byte>, bits: nat, first: bool)
    requires bits > 0
    ensures var r := Decode(b, bits, first);
      r.Value? ==> r.size <= |b| && b[..r.size] == VarBytes(r.v) && r.v < Pow2(bits) && (r.v == 0 ==> first)
  {
    if b != [] {
      var octet := b[0] as nat;
      LastByte(octet, bits);
      Pow2Monotone(Min(bits, 7), bits);
      assert Pow2(7) == 128;
      if bits > 7 {
        Pow2Seven(bits);
      }
      if octet >= 128 && bits > 7 {
        DecodeSound(b[1..], bits - 7, false);
        var r := Decode(b[1..], bits - 7, false);
        if r.Value? {
          var v := octet - 128 + 128 * r.v;
          assert v / 128 == r.v && v % 128 == octet - 128;
          assert b[..r.size + 1] == [b[0]] + b[1..][..r.size];
        }
      }
    }
  }

  /** And every value in range is found in its encoding, whatever follows. */
  lemma {:induction false} DecodeComplete(v: nat, rest: seq<byte>, bits: nat, first: bool)
    requires bits > 0 && v < Pow2(bits) && (v == 0 ==> first)
    ensures Decode(VarBytes(v) + rest, bits, first) == Value(v, |VarBytes(v)|)
    decreases v
  {
    var b := VarBytes(v) + rest;
    LastByte(b[0] as nat, bits);
    if v >= 128 {
      if bits <= 7 {
        assert Pow2(7) == 128;
        Pow2Monotone(bits, 7);
      }
      Pow2Seven(bits);
      DecodeComplete(v / 128, rest, bits - 7, false);
      assert b[1..] == VarBytes(v / 128) + rest;
    }
  }

  /** Bytes found bad stay bad, and bytes found short can be completed. */
  lemma {:induction false} DecodeBad(b: seq<byte>, rest: seq<byte>, bits: nat, first: bool)
    requires bits > 0 && Decode(b, bits, first).Bad?
    ensures Decode(b + rest, bits, first) == Decode(b, bits, first)
  {
    assert (b + rest)[0] == b[0];
    if b[0] as nat >= 128 && bits > 7 {
      assert (b + rest)[1..] == b[1..] + rest;
      if Decode(b[1..], bits - 7, false).Bad? {
        DecodeBad(b[1..], rest, bits - 7, false);
      }
    }
  }

  lemma {:induction false} DecodeShort(b: seq<byte>, bits: nat, first: bool)
    requires bits > 0 && Decode(b, bits, first).Short?
    ensures Decode(b + [1], bits, first).Value? && 7 * |b| < bits
  {
    if b == [] {
      assert [] + [1] == [1 as byte];
      LastByte(1, bits);
      Pow2Monotone(1, bits);
      assert Pow2(1) == 2;
    } else {
      assert (b + [1])[1..] == b[1..] + [1];
      DecodeShort(b[1..], bits - 7, false);
    }
  }

  /** Of the bytes of a value in range, any part but the whole is short. */
  lemma {:induction false} PartIsShort(v: nat, part: seq<byte>, bits: nat, first: bool)
    requires bits > 0 && v < Pow2(bits) && part < VarBytes(v)
    ensures Decode(part, bits, first).Short?
    decreases v
  {
    if part != [] {
      assert v >= 128 && part[0] == VarBytes(v)[0];
      if bits <= 7 {
        assert Pow2(7) == 128;
        Pow2Monotone(bits, 7);
      }
      Pow2Seven(bits);
      assert VarBytes(v)[1..] == VarBytes(v / 128);
      PartIsShort(v / 128, part[1..], bits - 7, false);
    }
  }

  function Pow128(n: nat): (r: nat)
    ensures r > 0
  {
    if n == 0 then 1 else 128 * Pow128(n - 1)
  }

  /** x shifted left by i groups of seven bits. */
  function Shifted(i: nat, x: nat): nat {
    Pow128(i) * x
  }

  /** A probe of the bytes from i on, seen from the front of them, i bytes of value `low` before it. */
  function Lift(i: nat, low: nat, r: Probe): Probe {
    match r
    case Value(v, n) => Value(low + Shifted(i, v), i + n)
    case Bad(j) => Bad(i + j)
    case Short => Short
  }

  lemma LiftStep(i: nat, low: nat, octet: nat, r: Probe)
    requires octet >= 128
    ensures
      Lift(i + 1, low + Shifted(i, octet - 128), r) ==
      Lift(i, low,
           match r
           case Value(v, n) => Value(octet - 128 + 128 * v, n + 1)
           case Bad(j) => Bad(j + 1)
           case Short => Short)
  {
    if r.Value? {
      assert Pow128(i) * (octet - 128 + 128 * r.v) == Pow128(i) * (octet - 128) + 128 * Pow128(i) * r.v;
    }
  }

  /** The probe loop; the shifted groups do not overlap, so or-ing them in adds them. */
  method ProbeLoop(encoded: seq<byte>, bits: nat) returns (r: Probe)
    requires bits > 0
    ensures r == Decode(encoded, bits, true)
  {
    var value: nat, bitsRead: nat := 0, 0;
    assert encoded[0..] == encoded;
    for index := 0 to |encoded|
      invariant bitsRead == 7 * index < bits
      invariant Decode(encoded, bits, true) == Lift(index, value, Decode(encoded[index..], bits - bitsRead, index == 0))
    {
      var octet := encoded[index] as nat;
      assert encoded[index..][1..] == encoded[index + 1..];
      if octet == 0 && bitsRead != 0 {
        return Bad(index);
      }
      var left := bits - bitsRead;
      LastByte(octet, left);
      if left <= 7 && octet / Pow2(left) != 0 {
        return Bad(index);
      }
      if octet < 128 {
        return Value(value + Shifted(index, octet), index + 1);
      }
      if left <= 7 {
        assert Pow2(7) == 128;
        Pow2Monotone(left, 7);
      }
      LiftStep(index, value, octet, Decode(encoded[index + 1..], left - 7, false));
      value := value + Shifted(index, octet - 128);
      bitsRead := bitsRead + 7;
    }
    assert encoded[|encoded|..] == [];
    return Short;
  }

  function MaxBytes(bits: nat): nat {
    (bits + 6) / 7
  }

  /** Nothing behind the widest encoding is looked at. */
  lemma DecodeInFront(front: seq<byte>, rest: seq<byte>, bits: nat)
    requires bits > 0 && (|front| == MaxBytes(bits) || (rest == [] && |front| < MaxBytes(bits)))
    ensures Decode(front + rest, bits, true) == Decode(front, bits, true)
  {
    var r := Decode(front, bits, true);
    if r.Bad? {
      DecodeBad(front, rest, bits, true);
    } else if r.Value? {
      DecodeSound(front, bits, true);
      var left := front[r.size..];
      assert front + rest == VarBytes(r.v) + (left + rest);
      DecodeComplete(r.v, left + rest, bits, true);
    } else {
      DecodeShort(front, bits, true);
      assert front + rest == front;
    }
  }

  /** No more than the widest encoding has to be looked at. */
  lemma DecodeWindow(b: seq<byte>, bits: nat)
    requires bits > 0
    ensures Decode(b[..Min(|b|, MaxBytes(bits))], bits, true) == Decode(b, bits, true)
  {
    var n := Min(|b|, MaxBytes(bits));
    assert b == b[..n] + b[n..];
    DecodeInFront(b[..n], b[n..], bits);
  }

  lemma BitWidthSeven(n: nat)
    requires n >= 128
    ensures BitWidth(n) == BitWidth(n / 128) + 7
  {
    var a := n / 2;
    var b := a / 2;
    var c := b / 2;
    var d := c / 2;
    var e := d / 2;
    var g := e / 2;
    assert BitWidth(n) == BitWidth(a) + 1 == BitWidth(b) + 2 == BitWidth(c) + 3 == BitWidth(d) + 4;
    assert BitWidth(d) == BitWidth(e) + 1 == BitWidth(g) + 2 == BitWidth(g / 2) + 3;
    assert g / 2 == n / 128;
  }

  lemma {:induction false} BitWidthSmall(n: nat, k: nat)
    requires n < Pow2(k)
    ensures BitWidth(n) <= k
    decreases k
  {
    if n > 0 {
      BitWidthSmall(n / 2, k - 1);
    }
  }

  /** The length of an encoding, from the width of the value: what is reserved for a count. */
  lemma {:induction false} VarLength(n: nat)
    ensures |VarBytes(n)| == Max(1, (BitWidth(n) + 6) / 7)
  {
    if n < 128 {
      assert Pow2(7) == 128;
      BitWidthSmall(n, 7);
    } else {
      VarLength(n / 128);
      BitWidthSeven(n);
      assert BitWidth(n / 128) >= 1;
    }
  }
}
