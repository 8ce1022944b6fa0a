/**
 What any number of builders and published buffers should present, as plain byte
 sequences, and what each operation may do to them: the oracle of
 src/bytes/fragmented_buffer_fuzz.cc, for builders and buffers that share storage
 in every way the operations allow.
 */
module BuilderScene {
  import opened Units
  import opened Fragments
  import opened FragmentedBuffers
  import opened OpenTail
  import opened DeepCopy

  datatype BuilderView = BuilderView(config: Config, open: Open, finished: bool, content: seq<byte>)

  datatype BufferView = BufferView(fragments: seq<Fragment>, bytes: seq<byte>)

  datatype Scene = Scene(builders: seq<BuilderView>, pool: seq<BufferView>)

  datatype Op =
    | NewBuilder(config: Config)
    | NewBuffer(bytes: seq<byte>)
    | CopyBuffer(k: nat)
    | SliceBuffer(k: nat, offset: nat, length: nat)
    | TrimBuffer(k: nat, front: bool, n: nat)
    | Append(i: nat, bytes: seq<byte>)
    | AppendCopy(i: nat, bytes: seq<byte>)
    | Reserve(i: nat, room: nat)
    | GiveBuffer(i: nat, k: nat)
    | GiveFragments(i: nat, k: nat, count: nat)
    | Share(i: nat, offset: nat, length: nat)
    | Finish(i: nat)

  datatype Outcome = Refused | Done

  /** A builder within its bounds, and a buffer in canonical form. */
  ghost predicate SaneBuilder(u: BuilderView) {
    && Shaped(u.config, u.open) && Total(u.open.Shown()) == |u.content| <= u.config.maxTotal
    && (u.finished ==> u.open == NOTHING)
  }

  ghost predicate SaneBuffer(u: BufferView) {
    Canonical(u.fragments) && Total(u.fragments) == |u.bytes|
  }

  ghost predicate Sane(w: Scene) {
    && (forall i :: 0 <= i < |w.builders| ==> SaneBuilder(w.builders[i]))
    && (forall k :: 0 <= k < |w.pool| ==> SaneBuffer(w.pool[k]))
  }

  // ----- when an operation can go ahead -----

  predicate Takes(u: BuilderView, n: nat) {
    !u.finished && |u.content| + n <= u.config.maxTotal
  }

  ghost predicate TakesBytes(u: BuilderView, n: nat)
    requires SaneBuilder(u)
  {
    Takes(u, n) && Accepts(u.config, u.open, n)
  }

  ghost predicate TakesRange(u: BuilderView, n: nat)
    requires SaneBuilder(u)
  {
    Takes(u, n) && n <= u.config.maxFragment && CopyFits(u.config, u.open, n)
  }

  ghost predicate HasRoom(u: BuilderView, n: nat)
    requires SaneBuilder(u)
  {
    Takes(u, n) && n <= u.config.maxFragment && ReserveFits(u.config, u.open, n)
  }

  ghost predicate TakesBuffer(u: BuilderView, g: BufferView)
    requires SaneBuilder(u)
  {
    Takes(u, |g.bytes|) && DonationFits(u.config, u.open, g.fragments)
  }

  /** Leading fragments can be taken over as they are. */
  predicate TakesLeading(u: BuilderView, fs: seq<Fragment>, count: nat) {
    && !u.finished && count <= |fs|
    && (count == 0 || (Takes(u, Total(fs[..count])) && Spliceable(u.config, u.open, fs[..count])))
  }

  /** Exactly when an operation is refused. */
  ghost predicate Refuses(w: Scene, op: Op)
    requires Sane(w)
  {
    match op
    case NewBuilder(config) => !config.Valid()
    case NewBuffer(bytes) => |bytes| > MAX_BYTES
    case CopyBuffer(k) => k >= |w.pool|
    case SliceBuffer(k, offset, length) => k >= |w.pool| || offset + length > |w.pool[k].bytes|
    case TrimBuffer(k, _, n) => k >= |w.pool| || n > |w.pool[k].bytes|
    case Append(i, bytes) => i >= |w.builders| || !TakesBytes(w.builders[i], |bytes|)
    case AppendCopy(i, bytes) => i >= |w.builders| || !TakesRange(w.builders[i], |bytes|)
    case Reserve(i, room) => i >= |w.builders| || !HasRoom(w.builders[i], room)
    case GiveBuffer(i, k) => i >= |w.builders| || k >= |w.pool| || !TakesBuffer(w.builders[i], w.pool[k])
    case GiveFragments(i, k, count) =>
      i >= |w.builders| || k >= |w.pool| || !TakesLeading(w.builders[i], w.pool[k].fragments, count)
    case Share(i, offset, length) =>
      i >= |w.builders| || w.builders[i].finished || offset + length > |w.builders[i].content|
    case Finish(i) => i >= |w.builders| || w.builders[i].finished
  }

  // ----- what it does -----

  /** One builder has so many bytes more; everything else is as it was. */
  ghost predicate Extended(w: Scene, v: Scene, i: nat, bytes: seq<byte>) {
    && i < |w.builders| == |v.builders| && v.pool == w.pool
    && v.builders == w.builders[i := v.builders[i]] && BuilderExtended(w.builders[i], v.builders[i], bytes)
  }

  ghost predicate BuilderExtended(u: BuilderView, u': BuilderView, bytes: seq<byte>) {
    u'.config == u.config && !u.finished && !u'.finished && u'.content == u.content + bytes
  }

  /** One buffer more. */
  ghost predicate Grown(w: Scene, v: Scene, g: BufferView) {
    v == w.(pool := w.pool + [g])
  }

  /** One buffer more, of these bytes, on new allocations of these sizes. */
  ghost predicate Copied(w: Scene, v: Scene, bytes: seq<byte>, sizes: seq<nat>) {
    && |v.pool| == |w.pool| + 1 && Grown(w, v, v.pool[|w.pool|])
    && v.pool[|w.pool|].bytes == bytes && OfSizes(v.pool[|w.pool|].fragments, sizes)
  }

  ghost predicate Given(w: Scene, v: Scene, i: nat, k: nat, n: nat) {
    && i < |w.builders| == |v.builders| && k < |w.pool| == |v.pool| && n <= |w.pool[k].bytes|
    && v == Scene(w.builders[i := v.builders[i]], w.pool[k := v.pool[k]])
    && BuilderExtended(w.builders[i], v.builders[i], w.pool[k].bytes[..n])
    && v.pool[k].bytes == w.pool[k].bytes[n..]
  }

  function Trimmed(bytes: seq<byte>, front: bool, n: nat): seq<byte>
    requires n <= |bytes|
  {
    if front then bytes[n..] else bytes[..|bytes| - n]
  }

  ghost function Cropped(g: BufferView, front: bool, n: nat): seq<Fragment>
    requires n <= |g.bytes| == Total(g.fragments)
  {
    if front then Drop(g.fragments, n) else Take(g.fragments, |g.bytes| - n)
  }

  ghost function Shut(u: BuilderView): BuilderView {
    BuilderView(u.config, NOTHING, true, [])
  }

  /** What an operation leaves of the builder it extends, and of the donor. */
  ghost predicate ExtendedBy(w: Scene, op: Op, v: Scene)
    requires Sane(w) && Sane(v) && !Refuses(w, op)
  {
    match op
    case Append(i, bytes) =>
      Extended(w, v, i, bytes) && Appended(w.builders[i].config, w.builders[i].open, |bytes|, v.builders[i].open)
    case AppendCopy(i, bytes) =>
      Extended(w, v, i, bytes) && CopiedIn(w.builders[i].config, w.builders[i].open, |bytes|, v.builders[i].open)
    case Reserve(i, room) =>
      Extended(w, v, i, []) && Reserved(w.builders[i].config, w.builders[i].open, room, v.builders[i].open)
    case GiveBuffer(i, k) =>
      && Given(w, v, i, k, |w.pool[k].bytes|) && v.pool[k].fragments == []
      && v.builders[i].open == Donation(w.builders[i].open, w.pool[k].fragments)
    case GiveFragments(i, k, count) =>
      && Given(w, v, i, k, Total(w.pool[k].fragments[..count])) && v.pool[k].fragments == w.pool[k].fragments[count..]
      && Spliced(w.builders[i].open, w.pool[k].fragments[..count], v.builders[i].open)
    case _ => false
  }

  /** What an operation that is not refused leaves: contents, windows and accounts, all but the identity of new
      storage. */
  ghost predicate Accepted(w: Scene, op: Op, v: Scene)
    requires Sane(w) && Sane(v) && !Refuses(w, op)
  {
    match op
    case NewBuilder(config) => v == w.(builders := w.builders + [BuilderView(config, NOTHING, false, [])])
    case NewBuffer(bytes) => Copied(w, v, bytes, PieceSizes(|bytes|))
    case CopyBuffer(k) => Copied(w, v, w.pool[k].bytes, CopySizes(|w.pool[k].bytes|, MinimumChunk(|w.pool[k].bytes|)))
    case SliceBuffer(k, offset, length) =>
      var g := w.pool[k];
      Grown(w, v, BufferView(Slice(g.fragments, offset, length), g.bytes[offset..offset + length]))
    case TrimBuffer(k, front, n) =>
      v == w.(pool := w.pool[k := BufferView(Cropped(w.pool[k], front, n), Trimmed(w.pool[k].bytes, front, n))])
    case Share(i, offset, length) =>
      var u := w.builders[i];
      Grown(w, v, BufferView(Window(u.open.Shown(), offset, length), u.content[offset..offset + length]))
    case Finish(i) =>
      var u := w.builders[i];
      Grown(w.(builders := w.builders[i := Shut(u)]), v, BufferView(Dense(u.open.Shown()), u.content))
    case _ => ExtendedBy(w, op, v)
  }

  /** A refused operation had its grounds and changes nothing, not even a bound or a fragment; with no grounds it is
      not refused. */
  ghost predicate Next(w: Scene, op: Op, out: Outcome, v: Scene) {
    Sane(w) && Sane(v) && (out.Refused? <==> Refuses(w, op)) && if out.Refused? then v == w else Accepted(w, op, v)
  }

  // ----- steps told by the one view they change -----

  ghost function WithBuilder(w: Scene, i: nat, u: BuilderView): Scene
    requires i < |w.builders|
  {
    w.(builders := w.builders[i := u])
  }

  lemma SameBuilder(w: Scene, i: nat, u: BuilderView)
    requires i < |w.builders| && u == w.builders[i]
    ensures WithBuilder(w, i, u) == w
  {
  }

  /** Bytes went in, a range did, or room was made; or there were grounds for nothing. */
  ghost predicate BytesTaken(u: BuilderView, bytes: seq<byte>, out: Outcome, u': BuilderView)
    requires SaneBuilder(u)
  {
    && (out.Done? <==> TakesBytes(u, |bytes|))
    && if out.Refused? then u' == u
       else BuilderExtended(u, u', bytes) && Appended(u.config, u.open, |bytes|, u'.open)
  }

  ghost predicate RangeTaken(u: BuilderView, bytes: seq<byte>, out: Outcome, u': BuilderView)
    requires SaneBuilder(u)
  {
    && (out.Done? <==> TakesRange(u, |bytes|))
    && if out.Refused? then u' == u
       else BuilderExtended(u, u', bytes) && CopiedIn(u.config, u.open, |bytes|, u'.open)
  }

  ghost predicate RoomMade(u: BuilderView, room: nat, out: Outcome, u': BuilderView)
    requires SaneBuilder(u)
  {
    && (out.Done? <==> HasRoom(u, room))
    && if out.Refused? then u' == u
       else BuilderExtended(u, u', []) && Reserved(u.config, u.open, room, u'.open)
  }

  /** An operation on one builder: it went ahead, or it had its grounds not to. */
  lemma BuilderNext(w: Scene, op: Op, out: Outcome, i: nat, u: BuilderView)
    requires Sane(w) && i < |w.builders| && Sane(WithBuilder(w, i, u))
    requires match op
      case Append(j, bytes) => j == i && BytesTaken(w.builders[i], bytes, out, u)
      case AppendCopy(j, bytes) => j == i && RangeTaken(w.builders[i], bytes, out, u)
      case Reserve(j, room) => j == i && RoomMade(w.builders[i], room, out, u)
      case _ => false
    ensures Next(w, op, out, WithBuilder(w, i, u))
  {
    if out.Refused? {
      SameBuilder(w, i, u);
    }
  }

  ghost function WithBoth(w: Scene, i: nat, u: BuilderView, k: nat, g: BufferView): Scene
    requires i < |w.builders| && k < |w.pool|
  {
    Scene(w.builders[i := u], w.pool[k := g])
  }

  /** All of a buffer went over, or there were grounds for none of it. */
  ghost predicate AllGiven(u: BuilderView, g: BufferView, out: Outcome, u': BuilderView, rest: BufferView)
    requires SaneBuilder(u)
  {
    && (out.Done? <==> TakesBuffer(u, g))
    && if out.Refused? then u' == u && rest == g
       else
         && BuilderExtended(u, u', g.bytes) && rest == BufferView([], [])
         && DonationFits(u.config, u.open, g.fragments) && u'.open == Donation(u.open, g.fragments)
  }

  /** Leading fragments went over with their bytes, or there were grounds for none of them. */
  ghost predicate LeadingGiven(u: BuilderView, g: BufferView, count: nat, out: Outcome, u': BuilderView,
                               rest: BufferView)
    requires SaneBuilder(u)
  {
    && (out.Done? <==> TakesLeading(u, g.fragments, count))
    && if out.Refused? then u' == u && rest == g
       else
         && count <= |g.fragments| && rest.fragments == g.fragments[count..]
         && Spliced(u.open, g.fragments[..count], u'.open)
         && BytesGiven(u, g, Total(g.fragments[..count]), u', rest)
  }

  ghost predicate BytesGiven(u: BuilderView, g: BufferView, n: nat, u': BuilderView, rest: BufferView) {
    n <= |g.bytes| && BuilderExtended(u, u', g.bytes[..n]) && rest.bytes == g.bytes[n..]
  }

  lemma WholeGiven(bytes: seq<byte>)
    ensures bytes[..|bytes|] == bytes && bytes[|bytes|..] == []
  {
  }

  lemma SameBoth(w: Scene, i: nat, k: nat)
    requires i < |w.builders| && k < |w.pool|
    ensures WithBoth(w, i, w.builders[i], k, w.pool[k]) == w
  {
  }

  lemma GiveBufferNext(w: Scene, out: Outcome, i: nat, u: BuilderView, k: nat, g: BufferView)
    requires Sane(w) && i < |w.builders| && k < |w.pool| && Sane(WithBoth(w, i, u, k, g))
    requires AllGiven(w.builders[i], w.pool[k], out, u, g)
    ensures Next(w, GiveBuffer(i, k), out, WithBoth(w, i, u, k, g))
  {
    WholeGiven(w.pool[k].bytes);
    SameBoth(w, i, k);
  }

  lemma GiveFragmentsNext(w: Scene, out: Outcome, i: nat, u: BuilderView, k: nat, g: BufferView, count: nat)
    requires Sane(w) && i < |w.builders| && k < |w.pool| && Sane(WithBoth(w, i, u, k, g))
    requires LeadingGiven(w.builders[i], w.pool[k], count, out, u, g)
    ensures Next(w, GiveFragments(i, k, count), out, WithBoth(w, i, u, k, g))
  {
    SameBoth(w, i, k);
  }

  /** A buffer more: the one an operation was to make. */
  lemma BufferNext(w: Scene, op: Op, v: Scene, g: BufferView)
    requires Sane(w) && Sane(v) && !Refuses(w, op) && v == w.(pool := w.pool + [g])
    requires match op
      case NewBuffer(bytes) => g.bytes == bytes && OfSizes(g.fragments, PieceSizes(|bytes|))
      case CopyBuffer(k) =>
        var n := |w.pool[k].bytes|;
        g.bytes == w.pool[k].bytes && OfSizes(g.fragments, CopySizes(n, MinimumChunk(n)))
      case SliceBuffer(k, offset, length) =>
        g == BufferView(Slice(w.pool[k].fragments, offset, length), w.pool[k].bytes[offset..offset + length])
      case Share(i, offset, length) =>
        var u := w.builders[i];
        g == BufferView(Window(u.open.Shown(), offset, length), u.content[offset..offset + length])
      case _ => false
    ensures Next(w, op, Done, v)
  {
  }

  lemma FinishNext(w: Scene, out: Outcome, i: nat, v: Scene)
    requires Sane(w) && Sane(v) && i < |w.builders| && (out.Refused? <==> w.builders[i].finished)
    requires var u := w.builders[i];
      v == if out.Refused? then w
           else Scene(w.builders[i := Shut(u)], w.pool + [BufferView(Dense(u.open.Shown()), u.content)])
    ensures Next(w, Finish(i), out, v)
  {
  }
}
