/**
 The wire form of an ordered map as a function of flat bytes: a count, then each
 key and value in strictly increasing key order (src/codec/collection.h).
 */
module MapCodec {
  import opened Units
  import opened SizeClasses
  import opened Varuint

  /** A codec: what it writes for a value, and what it makes of unread bytes (the value and how many
      of them it took, or an error). */
  datatype Codec<!T> = Codec(encode: T -> seq<byte>, decode: seq<byte> -> Result<(T, nat)>)

  /** It never takes more than there is. */
  ghost predicate Bounded<T(!new)>(c: Codec<T>) {
    forall b :: c.decode(b).Ok? ==> c.decode(b).value.1 <= |b|
  }

  /** It reads back what it wrote, whatever follows. */
  ghost predicate RoundTrips<T(!new)>(c: Codec<T>) {
    forall v, rest :: c.decode(c.encode(v) + rest) == Ok((v, |c.encode(v)|))
  }

  /** Two codecs, the order of the keys, whether the input is a complete parent, and what the owner of the
      sink says to one more entry after those it has: nothing, or why not. */
  datatype Format<!K, !V> = Format(
    key: Codec<K>, value: Codec<V>, less: (K, K) -> bool, complete: bool,
    insert: (seq<(K, V)>, (K, V)) -> Option<Errc>)

  /** Inside a complete parent, a shortage is malformed data. */
  function ReadError(e: Errc, complete: bool): Errc {
    if complete && e == TruncatedData then MalformedData else e
  }

  /** One entry off the front of the bytes: the key, its place after the last one, the value. */
  function ParseOne<K, V>(f: Format<K, V>, b: seq<byte>, last: Option<K>): (r: Result<((K, V), nat)>)
    ensures r.Ok? ==> r.value.1 <= |b| && (last.Some? ==> f.less(last.value, r.value.0.0))
  {
    match f.key.decode(b)
    case Err(e) => Err(ReadError(e, f.complete))
    case Ok((k, n)) =>
      if (last.Some? && !f.less(last.value, k)) || n > |b| then Err(MalformedData)
      else
        match f.value.decode(b[n..])
        case Err(e) => Err(ReadError(e, f.complete))
        case Ok((v, m)) => if n + m > |b| then Err(MalformedData) else Ok(((k, v), n + m))
  }

  /** One entry in two reads, of which the second gave `value`. */
  lemma EntryIs<K, V>(f: Format<K, V>, b: seq<byte>, last: Option<K>, k: K, n: nat, value: Result<V>, m: nat)
    returns (total: nat)
    requires n <= |b| && f.key.decode(b) == Ok((k, n)) && (last.Some? ==> f.less(last.value, k))
    requires match value
      case Ok(v) => m <= |b[n..]| && f.value.decode(b[n..]) == Ok((v, m))
      case Err(e) => f.value.decode(b[n..]) == Err(e)
    ensures match value
      case Ok(v) => total == n + m <= |b| && ParseOne(f, b, last) == Ok(((k, v), total)) && b[n..][m..] == b[total..]
      case Err(e) => ParseOne(f, b, last) == Err(ReadError(e, f.complete))
  {
    total := if value.Ok? then n + m else n;
  }

  /** Entries read in order, the bytes they took, and why reading stopped early. */
  datatype Parsed<K, V> = Parsed(entries: seq<(K, V)>, used: nat, stopped: Option<Errc>)

  /** The reference reader: up to `count` entries, each key after the one before it. */
  function Parse<K, V>(f: Format<K, V>, b: seq<byte>, count: nat, last: Option<K>): Parsed<K, V>
    decreases count
  {
    if count == 0 then Parsed([], 0, None)
    else
      match ParseOne(f, b, last)
      case Err(e) => Parsed([], 0, Some(e))
      case Ok((entry, n)) =>
        var rest := Parse(f, b[n..], count - 1, Some(entry.0));
        Parsed([entry] + rest.entries, n + rest.used, rest.stopped)
  }

  ghost predicate KeysIncrease<K, V>(es: seq<(K, V)>, less: (K, K) -> bool, last: Option<K>) {
    && (es != [] && last.Some? ==> less(last.value, es[0].0))
    && forall i :: 0 < i < |es| ==> less(es[i - 1].0, es[i].0)
  }

  /** Whatever the bytes, only strictly increasing keys are taken, and all `count` of them or a reason. */
  lemma {:induction false} ParseOrdered<K, V>(f: Format<K, V>, b: seq<byte>, count: nat, last: Option<K>)
    ensures var p := Parse(f, b, count, last);
      && KeysIncrease(p.entries, f.less, last)
      && p.used <= |b| && |p.entries| <= count
      && (p.stopped.None? <==> |p.entries| == count)
    decreases count
  {
    var one := ParseOne(f, b, last);
    if count > 0 && one.Ok? {
      var (entry, n) := one.value;
      ParseOrdered(f, b[n..], count - 1, Some(entry.0));
      var rest := Parse(f, b[n..], count - 1, Some(entry.0));
      var es := [entry] + rest.entries;
      forall i | 0 < i < |es| ensures f.less(es[i - 1].0, es[i].0) {
        if i > 1 {
          assert es[i] == rest.entries[i - 1] && es[i - 1] == rest.entries[i - 2];
        }
      }
    }
  }

  // ----- round trip -----

  function EncodeEntry<K, V>(f: Format<K, V>, entry: (K, V)): seq<byte> {
    f.key.encode(entry.0) + f.value.encode(entry.1)
  }

  /** What the writer appends for the entries. */
  function EncodeEntries<K, V>(f: Format<K, V>, es: seq<(K, V)>): seq<byte> {
    if es == [] then [] else EncodeEntry(f, es[0]) + EncodeEntries(f, es[1..])
  }

  function EncodeMap<K, V>(f: Format<K, V>, es: seq<(K, V)>): seq<byte> {
    VarBytes(|es|) + EncodeEntries(f, es)
  }

  lemma {:induction false} EncodeConcat<K, V>(f: Format<K, V>, a: seq<(K, V)>, b: seq<(K, V)>)
    ensures EncodeEntries(f, a + b) == EncodeEntries(f, a) + EncodeEntries(f, b)
  {
    if a == [] {
      assert a + b == b;
    } else {
      assert (a + b)[1..] == a[1..] + b;
      EncodeConcat(f, a[1..], b);
    }
  }

  /** The bytes of the first i entries, of one more, and of all. */
  lemma EncodePrefix<K, V>(f: Format<K, V>, es: seq<(K, V)>, i: nat, part: seq<byte>)
    requires i < |es| && part <= EncodeEntry(f, es[i])
    ensures EncodeEntries(f, es[..i + 1]) == EncodeEntries(f, es[..i]) + EncodeEntry(f, es[i])
    ensures EncodeEntries(f, es[..i]) + part <= EncodeEntries(f, es)
  {
    var front, rest := es[..i + 1], es[i + 1..];
    assert front == es[..i] + [es[i]] && [es[i]][1..] == [] && es == front + rest;
    EncodeConcat(f, es[..i], [es[i]]);
    EncodeConcat(f, front, rest);
    assert EncodeEntries(f, [es[i]]) == EncodeEntry(f, es[i]) + [];
  }

  /** The count and the first i entries have been written. */
  ghost predicate WrittenSo<K, V>(f: Format<K, V>, es: seq<(K, V)>, i: nat, written: seq<byte>)
    requires i <= |es|
  {
    written == VarBytes(|es|) + EncodeEntries(f, es[..i])
  }

  lemma WrittenStart<K, V>(f: Format<K, V>, es: seq<(K, V)>)
    ensures WrittenSo(f, es, 0, VarBytes(|es|))
  {
    assert VarBytes(|es|) + [] == VarBytes(|es|);
  }

  lemma WrittenStep<K, V>(f: Format<K, V>, es: seq<(K, V)>, i: nat, written: seq<byte>, part: seq<byte>)
    requires i < |es| && WrittenSo(f, es, i, written) && part <= EncodeEntry(f, es[i])
    ensures written + part <= EncodeMap(f, es)
    ensures part == EncodeEntry(f, es[i]) ==> WrittenSo(f, es, i + 1, written + part)
  {
    EncodePrefix(f, es, i, part);
    assert written + part == VarBytes(|es|) + (EncodeEntries(f, es[..i]) + part);
  }

  lemma WrittenAll<K, V>(f: Format<K, V>, es: seq<(K, V)>, written: seq<byte>)
    requires WrittenSo(f, es, |es|, written)
    ensures written == EncodeMap(f, es)
  {
    assert es[..|es|] == es;
  }

  lemma Drop2(x: seq<byte>, y: seq<byte>, tail: seq<byte>)
    ensures var b := (x + y) + tail;
      b == x + (y + tail) && b[|x|..] == y + tail && b[|x| + |y|..] == tail
  {
  }

  /** The first entry of what was written is read back, and the bytes after it are what is left. */
  lemma FirstEntry<K(!new), V(!new)>(f: Format<K, V>, entry: (K, V), tail: seq<byte>, last: Option<K>)
    requires RoundTrips(f.key) && RoundTrips(f.value) && (last.Some? ==> f.less(last.value, entry.0))
    ensures var b, n := EncodeEntry(f, entry) + tail, |EncodeEntry(f, entry)|;
      ParseOne(f, b, last) == Ok((entry, n)) && b[n..] == tail
  {
    Drop2(f.key.encode(entry.0), f.value.encode(entry.1), tail);
  }

  /** Reading what was written gives the same entries, whatever follows them. */
  lemma {:induction false} EntriesRoundTrip<K(!new), V(!new)>(f: Format<K, V>, es: seq<(K, V)>, rest: seq<byte>,
                                                              last: Option<K>)
    requires RoundTrips(f.key) && RoundTrips(f.value) && KeysIncrease(es, f.less, last)
    ensures Parse(f, EncodeEntries(f, es) + rest, |es|, last) == Parsed(es, |EncodeEntries(f, es)|, None)
    decreases |es|
  {
    if es != [] {
      var tail := EncodeEntries(f, es[1..]) + rest;
      assert EncodeEntries(f, es) + rest == EncodeEntry(f, es[0]) + tail;
      FirstEntry(f, es[0], tail, last);
      EntriesRoundTrip(f, es[1..], rest, Some(es[0].0));
      assert es == [es[0]] + es[1..];
    }
  }

  /** A whole map is read back: the count first, then the entries behind it. */
  lemma MapRoundTrip<K(!new), V(!new)>(f: Format<K, V>, es: seq<(K, V)>, rest: seq<byte>)
    requires RoundTrips(f.key) && RoundTrips(f.value) && KeysIncrease(es, f.less, None) && |es| < Pow2(32)
    ensures var b, n := EncodeMap(f, es) + rest, |VarBytes(|es|)|;
      && Decode(b, 32, true) == Value(|es|, n) && n <= |b|
      && Parse(f, b[n..], |es|, None) == Parsed(es, |EncodeEntries(f, es)|, None)
  {
    var count, entries := VarBytes(|es|), EncodeEntries(f, es);
    assert EncodeMap(f, es) + rest == count + (entries + rest);
    DecodeComplete(|es|, entries + rest, 32, true);
    assert (count + (entries + rest))[|count|..] == entries + rest;
    EntriesRoundTrip(f, es, rest, None);
  }

  // ----- what was written only in part -----

  /** Of what it writes, it finds any part but the whole short. */
  ghost predicate FindsShort<T(!new)>(c: Codec<T>) {
    forall v, part :: part < c.encode(v) ==> c.decode(part) == Err(TruncatedData)
  }

  /** How a cut is reported: more bytes may still come, unless the parent was complete. */
  function CutError(complete: bool): Errc {
    if complete then MalformedData else TruncatedData
  }

  lemma StopsHere<K, V>(f: Format<K, V>, b: seq<byte>, count: nat, last: Option<K>)
    requires count > 0 && ParseOne(f, b, last).Err?
    ensures Parse(f, b, count, last).stopped == Some(ParseOne(f, b, last).error)
  {
  }

  /** Past a whole entry, reading stops where it does in what follows. */
  lemma StopsLater<K(!new), V(!new)>(f: Format<K, V>, entry: (K, V), rest: seq<byte>, b: seq<byte>, count: nat,
                                     last: Option<K>)
    requires RoundTrips(f.key) && RoundTrips(f.value) && (last.Some? ==> f.less(last.value, entry.0))
    requires b == EncodeEntry(f, entry) + rest
    ensures Parse(f, b, count + 1, last).stopped == Parse(f, rest, count, Some(entry.0)).stopped
  {
    FirstEntry(f, entry, rest, last);
  }

  lemma CutAt(x: seq<byte>, y: seq<byte>, part: seq<byte>)
    requires part < x + y
    ensures |part| < |x| ==> part < x
    ensures |part| >= |x| ==> part == x + part[|x|..] && part[|x|..] < y
  {
  }

  lemma CutEntry<K(!new), V(!new)>(f: Format<K, V>, entry: (K, V), part: seq<byte>, last: Option<K>)
    requires RoundTrips(f.key) && FindsShort(f.key) && FindsShort(f.value)
    requires (last.Some? ==> f.less(last.value, entry.0)) && part < EncodeEntry(f, entry)
    ensures ParseOne(f, part, last) == Err(CutError(f.complete))
  {
    var k := f.key.encode(entry.0);
    CutAt(k, f.value.encode(entry.1), part);
  }

  lemma {:induction false} CutEntries<K(!new), V(!new)>(f: Format<K, V>, es: seq<(K, V)>, part: seq<byte>,
                                                        last: Option<K>)
    requires RoundTrips(f.key) && RoundTrips(f.value) && FindsShort(f.key) && FindsShort(f.value)
    requires KeysIncrease(es, f.less, last) && part < EncodeEntries(f, es)
    ensures Parse(f, part, |es|, last).stopped == Some(CutError(f.complete))
    decreases |es|
  {
    var one := EncodeEntry(f, es[0]);
    CutAt(one, EncodeEntries(f, es[1..]), part);
    if |part| < |one| {
      CutEntry(f, es[0], part, last);
      StopsHere(f, part, |es|, last);
    } else {
      var rest := part[|one|..];
      var others := es[1..];
      StopsLater(f, es[0], rest, part, |others|, last);
      CutEntries(f, others, rest, Some(es[0].0));
    }
  }

  /** Of a map's encoding any part but the whole is refused, as truncated while more may come and as malformed in a
      complete parent. */
  lemma CutMap<K(!new), V(!new)>(f: Format<K, V>, es: seq<(K, V)>, part: seq<byte>, maximum: nat)
    requires RoundTrips(f.key) && RoundTrips(f.value) && FindsShort(f.key) && FindsShort(f.value)
    requires KeysIncrease(es, f.less, None) && |es| < Pow2(32) && |es| <= maximum && part < EncodeMap(f, es)
    ensures Flaw(f, part, maximum) == Some(if f.complete then MalformedData else TruncatedData)
  {
    var count := VarBytes(|es|);
    CutAt(count, EncodeEntries(f, es), part);
    if |part| < |count| {
      PartIsShort(|es|, part, 32, true);
    } else {
      var rest := part[|count|..];
      DecodeComplete(|es|, rest, 32, true);
      CutEntries(f, es, rest, None);
    }
  }

  // ----- a reading in progress -----

  function LastKey<K, V>(es: seq<(K, V)>): Option<K> {
    if es == [] then None else Some(es[|es| - 1].0)
  }

  /** The bytes the entries took, if they are the first ones in the bytes. */
  ghost function Taken<K, V>(f: Format<K, V>, b: seq<byte>, es: seq<(K, V)>): (r: Option<nat>)
    ensures r.Some? ==> r.value <= |b|
  {
    if es == [] then Some(0)
    else
      var front := es[..|es| - 1];
      match Taken(f, b, front)
      case None => None
      case Some(used) =>
        match ParseOne(f, b[used..], LastKey(front))
        case Err(_) => None
        case Ok((entry, n)) => if entry == es[|es| - 1] then Some(used + n) else None
  }

  ghost predicate Took<K, V>(f: Format<K, V>, b: seq<byte>, es: seq<(K, V)>, used: nat) {
    Taken(f, b, es) == Some(used)
  }

  /** After the entries es, which took `used` bytes, the reference reader still has this to do. */
  ghost predicate Sofar<K, V>(f: Format<K, V>, b: seq<byte>, count: nat, es: seq<(K, V)>, used: nat) {
    && |es| <= count && used <= |b|
    && var rest := Parse(f, b[used..], count - |es|, LastKey(es));
       Parse(f, b, count, None) == Parsed(es + rest.entries, used + rest.used, rest.stopped)
  }

  lemma SofarStep<K, V>(f: Format<K, V>, b: seq<byte>, count: nat, es: seq<(K, V)>, used: nat, entry: (K, V), n: nat)
    requires Sofar(f, b, count, es, used) && |es| < count
    requires ParseOne(f, b[used..], LastKey(es)) == Ok((entry, n))
    ensures used + n <= |b| && Sofar(f, b, count, es + [entry], used + n)
  {
    assert b[used..][n..] == b[used + n..];
    var rest := Parse(f, b[used + n..], count - |es| - 1, Some(entry.0));
    assert es + ([entry] + rest.entries) == (es + [entry]) + rest.entries;
  }

  /** The last entry read, and what was taken before it. */
  lemma TakenBack<K, V>(f: Format<K, V>, b: seq<byte>, es: seq<(K, V)>)
    returns (front: seq<(K, V)>, last: (K, V), used: nat, n: nat)
    requires es != [] && Taken(f, b, es).Some?
    ensures es == front + [last] && used <= |b| && Taken(f, b, front) == Some(used)
    ensures ParseOne(f, b[used..], LastKey(front)) == Ok((last, n)) && Taken(f, b, es) == Some(used + n)
  {
    front, last := es[..|es| - 1], es[|es| - 1];
    used := Taken(f, b, front).value;
    n := ParseOne(f, b[used..], LastKey(front)).value.1;
  }

  lemma SofarStart<K, V>(f: Format<K, V>, b: seq<byte>, count: nat)
    ensures Sofar(f, b, count, [], 0)
  {
    assert b[0..] == b;
    var all := Parse(f, b, count, None);
    assert [] + all.entries == all.entries;
  }

  lemma {:induction false} TakenParse<K, V>(f: Format<K, V>, b: seq<byte>, count: nat, es: seq<(K, V)>)
    requires Taken(f, b, es).Some? && |es| <= count
    ensures Sofar(f, b, count, es, Taken(f, b, es).value)
    decreases |es|
  {
    if es == [] {
      SofarStart(f, b, count);
    } else {
      var front, last, used, n := TakenBack(f, b, es);
      TakenParse(f, b, count, front);
      SofarStep(f, b, count, front, used, last, n);
    }
  }

  /** Reading stops at an entry the reference cannot read. */
  lemma TakenStop<K, V>(f: Format<K, V>, b: seq<byte>, count: nat, es: seq<(K, V)>, e: Errc)
    requires Taken(f, b, es).Some? && |es| < count
    requires ParseOne(f, b[Taken(f, b, es).value..], LastKey(es)) == Err(e)
    ensures var all := Parse(f, b, count, None); all.stopped == Some(e) && all.entries == es
  {
    TakenParse(f, b, count, es);
    assert es + [] == es;
  }

  lemma TakenStep<K, V>(f: Format<K, V>, b: seq<byte>, es: seq<(K, V)>, used: nat, entry: (K, V), n: nat)
    returns (more: seq<(K, V)>, end: nat)
    requires Took(f, b, es, used) && ParseOne(f, b[used..], LastKey(es)) == Ok((entry, n))
    ensures end == used + n <= |b| && more == es + [entry] && Took(f, b, more, end)
    ensures b[used..][n..] == b[end..]
  {
    more, end := es + [entry], used + n;
    assert more[..|es|] == es;
  }

  /** All of them have been read. */
  lemma TakenAll<K, V>(f: Format<K, V>, b: seq<byte>, es: seq<(K, V)>, used: nat)
    requires Taken(f, b, es) == Some(used)
    ensures Parse(f, b, |es|, None) == Parsed(es, used, None)
  {
    TakenParse(f, b, |es|, es);
    assert es + [] == es;
  }

  lemma TakenPrefix<K, V>(f: Format<K, V>, b: seq<byte>, count: nat, es: seq<(K, V)>, used: nat, sink: seq<(K, V)>)
    requires Taken(f, b, es) == Some(used) && |es| <= count && sink <= es
    ensures sink <= Parse(f, b, count, None).entries
  {
    TakenParse(f, b, count, es);
  }

  // ----- how a whole reading ends -----

  /** What the caller's side can put in the way: an abort, a call that is refused outright, entries too dear for
      one quantum. */
  datatype Terms = Terms(aborted: bool, ready: bool, fits: bool) {
    predicate Withhold(e: Errc) {
      (e == Aborted && aborted) || (e == ResourceExhausted && !fits)
    }
  }

  /** The sink's owner took each of them when it had those before it. */
  ghost predicate Inserted<K, V>(f: Format<K, V>, sink: seq<(K, V)>) {
    forall i :: 0 <= i < |sink| ==> f.insert(sink[..i], sink[i]).None?
  }

  lemma InsertedMore<K, V>(f: Format<K, V>, sink: seq<(K, V)>, entry: (K, V))
    requires Inserted(f, sink) && f.insert(sink, entry).None?
    ensures Inserted(f, sink + [entry])
  {
    forall i | 0 <= i <= |sink| ensures f.insert((sink + [entry])[..i], (sink + [entry])[i]).None? {
      assert (sink + [entry])[..i] == sink[..i];
      assert sink[..|sink|] == sink;
    }
  }

  /** It would not take the next one. */
  ghost predicate Balked<K, V>(f: Format<K, V>, es: seq<(K, V)>, sink: seq<(K, V)>, e: Errc) {
    |sink| < |es| && f.insert(sink, es[|sink|]) == Some(e)
  }

  /** How the entries ended, against the reference: all of them, or an in-order prefix and the reference's own
      reason, unless the terms or the sink's owner stood in the way. */
  ghost predicate Ended<K, V>(f: Format<K, V>, all: Parsed<K, V>, failed: Option<Errc>, refused: bool,
                              sink: seq<(K, V)>, t: Terms) {
    && sink <= all.entries && Inserted(f, sink)
    && (failed.None? ==> all.stopped.None? && sink == all.entries)
    && (failed.Some? && !refused ==> all.stopped == failed)
    && (failed.Some? && refused ==> t.Withhold(failed.value) || Balked(f, all.entries, sink, failed.value))
  }

  lemma LoopEnded<K, V>(f: Format<K, V>, b: seq<byte>, count: nat, es: seq<(K, V)>, used: nat,
                        failed: Option<Errc>, refused: bool, sink: seq<(K, V)>, t: Terms)
    requires |es| <= count && Took(f, b, es, used) && sink <= es && Inserted(f, sink)
    requires failed.None? ==> |es| == count && sink == es
    requires failed.Some? && refused ==> t.Withhold(failed.value) || Balked(f, es, sink, failed.value)
    requires failed.Some? && !refused ==> |es| < count && ParseOne(f, b[used..], LastKey(es)) == Err(failed.value)
    ensures Ended(f, Parse(f, b, count, None), failed, refused, sink, t)
    ensures failed.None? ==> Parse(f, b, count, None).used == used
  {
    TakenPrefix(f, b, count, es, used, sink);
    TakenPrefix(f, b, count, es, used, es);
    if failed.None? {
      TakenAll(f, b, es, used);
    } else if !refused {
      TakenStop(f, b, count, es, failed.value);
    }
  }

  /** What the reference reader finds wrong: no count, too many entries, or an entry that cannot be read. */
  ghost function Flaw<K, V>(f: Format<K, V>, b: seq<byte>, maximum: nat): Option<Errc> {
    match Decode(b, 32, true)
    case Bad(_) => Some(MalformedData)
    case Short => Some(ReadError(TruncatedData, f.complete))
    case Value(count, n) =>
      if count > maximum then Some(ResourceExhausted)
      else if n > |b| then Some(MalformedData)
      else Parse(f, b[n..], count, None).stopped
  }

  /** The entries behind the count, as far as they can be read. */
  ghost function Readable<K, V>(f: Format<K, V>, b: seq<byte>): seq<(K, V)> {
    match Decode(b, 32, true)
    case Value(count, n) => if n <= |b| then Parse(f, b[n..], count, None).entries else []
    case _ => []
  }

  /** A whole map or none: with all its entries in order and the bytes it took, or with an in-order prefix and
      something in the way, or with the reference reader's own reason. */
  ghost predicate MapRead<K, V>(f: Format<K, V>, b: seq<byte>, maximum: nat, r: Result<nat>, sink: seq<(K, V)>,
                                moved: nat, t: Terms) {
    && sink <= Readable(f, b) && Inserted(f, sink) && KeysIncrease(sink, f.less, None)
    && (r.Err? ==>
          t.Withhold(r.error) || !t.ready || Balked(f, Readable(f, b), sink, r.error) ||
          Flaw(f, b, maximum) == Some(r.error))
    && (r.Ok? ==>
          && t.ready && Flaw(f, b, maximum).None? && r.value == Decode(b, 32, true).v == |sink|
          && var all := Parse(f, b[Decode(b, 32, true).size..], r.value, None);
             sink == all.entries && moved == Decode(b, 32, true).size + all.used)
  }

  lemma EntriesRead<K, V>(f: Format<K, V>, b: seq<byte>, maximum: nat, count: nat, n: nat, failed: Option<Errc>,
                          refused: bool, sink: seq<(K, V)>, t: Terms)
    requires Decode(b, 32, true) == Value(count, n) && n <= |b| && count <= maximum && t.ready
    requires Ended(f, Parse(f, b[n..], count, None), failed, refused, sink, t)
    ensures MapRead(f, b, maximum, if failed.None? then Ok(count) else Err(failed.value), sink,
                    n + Parse(f, b[n..], count, None).used, t)
  {
    ParseOrdered(f, b[n..], count, None);
  }

  lemma NothingRead<K, V>(f: Format<K, V>, b: seq<byte>, maximum: nat, e: Errc, t: Terms)
    requires t.Withhold(e) || !t.ready || Flaw(f, b, maximum) == Some(e)
    ensures MapRead(f, b, maximum, Err(e), [], 0, t)
  {
  }

  lemma AbortedRead<K, V>(f: Format<K, V>, b: seq<byte>, maximum: nat, r: Result<nat>, sink: seq<(K, V)>,
                          moved: nat, t: Terms)
    requires MapRead(f, b, maximum, r, sink, moved, t) && t.aborted
    ensures MapRead(f, b, maximum, Err(Aborted), sink, moved, t)
  {
  }

  /** Of bytes a writer wrote, a reading gives back the writer's entries and takes exactly its bytes, unless the
      terms or the sink's owner stood in the way. */
  lemma WrittenIsRead<K(!new), V(!new)>(f: Format<K, V>, es: seq<(K, V)>, rest: seq<byte>, maximum: nat,
                                        r: Result<nat>, sink: seq<(K, V)>, moved: nat, t: Terms)
    requires RoundTrips(f.key) && RoundTrips(f.value) && KeysIncrease(es, f.less, None)
    requires |es| < Pow2(32) && |es| <= maximum
    requires MapRead(f, EncodeMap(f, es) + rest, maximum, r, sink, moved, t)
    ensures sink <= es
    ensures r.Ok? ==> r.value == |es| && sink == es && moved == |EncodeMap(f, es)|
    ensures r.Err? ==> t.Withhold(r.error) || !t.ready || Balked(f, es, sink, r.error)
  {
    MapRoundTrip(f, es, rest);
  }
}
