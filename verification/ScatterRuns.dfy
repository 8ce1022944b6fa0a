/**
 One buffer and any number of export cursors over runs of exports, trims and
 donations: what a cursor has sent is always the front of the one presentation it
 is bound to, and once the buffer presents anything else it sends no more
 (src/bytes/fragmented_buffer.cc:463-599, src/bytes/fragmented_buffer.h:90-106).
 */
module ScatterRuns {
  import opened Units
  import opened Fragments
  import opened FragmentedBuffers
  import opened OpenTail
  import opened BufferBuilder
  import opened DeepCopy
  import opened ScatterExport

  datatype Act =
    | NewCursor
    | Trim(front: bool, n: nat)
    | GiveAll(config: Config)
    | GiveLeading(config: Config, count: nat)
    | MoveAway
    | Replace(bytes: seq<byte>)
    | AssignSelf
    | Export(c: nat, maxVectors: nat, maxBytes: nat)

  datatype Reply = Refused(error: Errc) | Done | Sent(batch: ScatterBatch)

  /** A cursor on paper: the presentation it is bound to, by number and by its windows, and the bytes sent. */
  datatype Mark = Unbound | Bound(version: nat, presented: seq<Fragment>, bytes: nat)

  /** The presentations are numbered without end; the buffer's own counter stops at its maximum. */
  datatype Ledger = Ledger(fragments: seq<Fragment>, version: nat, marks: seq<Mark>)

  // ----- what an action does on paper -----

  function SentSoFar(m: Mark): nat {
    if m.Unbound? then 0 else m.bytes
  }

  /** Bound to a presentation that is no longer the buffer's. */
  predicate Stale(l: Ledger, m: Mark) {
    m.Bound? && m.version != l.version
  }

  predicate Fresh(config: Config, fs: seq<Fragment>) {
    config.Valid() && Total(fs) <= config.maxTotal && Spliceable(config, NOTHING, fs)
  }

  /** Exactly when an action is refused, and how. */
  function Refusal(l: Ledger, act: Act): Option<Errc> {
    match act
    case NewCursor | MoveAway | AssignSelf => None
    case Replace(bytes) => if |bytes| > MAX_BYTES then Some(ResourceExhausted) else None
    case Trim(_, n) => if n > Total(l.fragments) then Some(OutOfRange) else None
    case GiveAll(config) =>
      if !config.Valid() then Some(InvalidArgument)
      else if !Fresh(config, l.fragments) then Some(ResourceExhausted)
      else None
    case GiveLeading(config, count) =>
      if !config.Valid() then Some(InvalidArgument)
      else if count > |l.fragments| then Some(OutOfRange)
      else if count > 0 && !Fresh(config, l.fragments[..count]) then Some(ResourceExhausted)
      else None
    case Export(c, v, m) =>
      if c >= |l.marks| || v == 0 || m == 0 || Stale(l, l.marks[c]) then Some(InvalidArgument)
      else if l.version >= U64_MAX then Some(ResourceExhausted)
      else None
  }

  ghost predicate Next(l: Ledger, act: Act, reply: Reply, l': Ledger) {
    match Refusal(l, act)
    case Some(error) => reply == Refused(error) && l' == l
    case None =>
      match act
      case NewCursor => reply == Done && l' == l.(marks := l.marks + [Unbound])
      case Trim(front, n) =>
        var rest := if front then Drop(l.fragments, n) else Take(l.fragments, Total(l.fragments) - n);
        reply == Done && l' == if n == 0 then l else Ledger(rest, l.version + 1, l.marks)
      case GiveAll(_) => reply == Done && l' == Ledger([], l.version + 1, l.marks)
      case GiveLeading(_, count) =>
        reply == Done && l' == if count == 0 then l else Ledger(l.fragments[count..], l.version + 1, l.marks)
      case MoveAway => reply == Done && l' == Ledger([], l.version + 1, l.marks)
      case Replace(bytes) =>
        && reply == Done && OfSizes(l'.fragments, PieceSizes(|bytes|))
        && l' == Ledger(l'.fragments, l.version + 1, l.marks)
      case AssignSelf => reply == Done && l' == l
      case Export(c, v, m) =>
        && reply.Sent?
        && var start := SentSoFar(l.marks[c]);
           var end := start + reply.batch.bytes;
           && Batch(reply.batch, l.fragments, start, end, v, m)
           && l' == l.(marks := l.marks[c := Bound(l.version, l.fragments, end)])
  }

  // ----- the buffer and its cursors against the paper -----

  ghost predicate CursorAgrees(cursor: ScatterCursor, buffer: FragmentedBuffer, version: nat, m: Mark)
    reads cursor, buffer
  {
    && cursor.Tracks(buffer)
    && match m
       case Unbound => cursor.owner == null
       case Bound(v, fs, bytes) =>
         && cursor.owner == buffer && cursor.generation == v <= version && cursor.presented == fs
         && cursor.fragment <= |fs| && cursor.Position(fs) == bytes
  }

  ghost predicate Agrees(buffer: FragmentedBuffer, cursors: seq<ScatterCursor>, l: Ledger)
    reads buffer, cursors
  {
    && buffer.Valid() && buffer.fragments == l.fragments && buffer.generation == Min(l.version, U64_MAX)
    && |cursors| == |l.marks|
    && (forall i, j :: 0 <= i < j < |cursors| ==> cursors[i] != cursors[j])
    && (forall c :: 0 <= c < |cursors| ==> CursorAgrees(cursors[c], buffer, l.version, l.marks[c]))
  }

  /** The same presentation under the same number, or another under the next one. */
  twostate predicate Moved(buffer: FragmentedBuffer, l: Ledger, new l': Ledger)
    reads buffer
  {
    && buffer.Valid() && buffer.fragments == l'.fragments && buffer.generation == Min(l'.version, U64_MAX)
    && l'.marks == l.marks
    && (if l'.version == l.version then l'.fragments == l.fragments else l'.version == l.version + 1)
  }

  datatype Before = Before(buffer: FragmentedBuffer, cursors: seq<ScatterCursor>, l: Ledger)

  /** Neither costs a cursor its claim. */
  twostate lemma StillAgree(m: Before, new l': Ledger)
    requires old(Agrees(m.buffer, m.cursors, m.l)) && Moved(m.buffer, m.l, l')
    requires forall c :: 0 <= c < |m.cursors| ==> unchanged(m.cursors[c])
    ensures Agrees(m.buffer, m.cursors, l')
  {
    forall c | 0 <= c < |m.cursors| ensures CursorAgrees(m.cursors[c], m.buffer, l'.version, l'.marks[c]) {
      assert old(CursorAgrees(m.cursors[c], m.buffer, m.l.version, m.l.marks[c]));
      if l'.version != m.l.version {
        PresentationChanged(Bookmark(m.cursors[c], m.buffer));
      }
    }
  }

  method DoTrim(buffer: FragmentedBuffer, front: bool, n: nat, ghost l: Ledger) returns (reply: Reply, ghost l': Ledger)
    requires buffer.Valid() && buffer.fragments == l.fragments && buffer.generation == Min(l.version, U64_MAX)
    modifies buffer
    ensures Moved(buffer, l, l') && Next(l, Trim(front, n), reply, l')
  {
    TakeAll(buffer.fragments);
    var r;
    if front {
      r := buffer.TrimFront(n);
    } else {
      r := buffer.TrimBack(n);
    }
    if r.Err? {
      return Refused(r.error), l;
    }
    reply, l' := Done, if n == 0 then l else Ledger(buffer.fragments, l.version + 1, l.marks);
  }

  method DoGiveAll(buffer: FragmentedBuffer, config: Config, ghost l: Ledger) returns (reply: Reply, ghost l': Ledger)
    requires buffer.Valid() && buffer.fragments == l.fragments && buffer.generation == Min(l.version, U64_MAX)
    modifies buffer
    ensures Moved(buffer, l, l') && Next(l, GiveAll(config), reply, l')
  {
    if !config.Valid() {
      return Refused(InvalidArgument), l;
    }
    var b := new Builder(config);
    var r := b.AppendBuffer(buffer);
    if r.Err? {
      return Refused(r.error), l;
    }
    reply, l' := Done, Ledger([], l.version + 1, l.marks);
  }

  method DoGiveLeading(buffer: FragmentedBuffer, config: Config, count: nat, ghost l: Ledger)
    returns (reply: Reply, ghost l': Ledger)
    requires buffer.Valid() && buffer.fragments == l.fragments && buffer.generation == Min(l.version, U64_MAX)
    modifies buffer
    ensures Moved(buffer, l, l') && Next(l, GiveLeading(config, count), reply, l')
  {
    if !config.Valid() {
      return Refused(InvalidArgument), l;
    }
    var b := new Builder(config);
    var r;
    ghost var moved;
    r, moved := b.AppendFragments(buffer, count);
    if r.Err? {
      return Refused(r.error), l;
    }
    reply, l' := Done, if count == 0 then l else Ledger(l.fragments[count..], l.version + 1, l.marks);
  }

  /** Moved from, or assigned to: from a buffer made of these bytes, or from itself. */
  method DoMove(buffer: FragmentedBuffer, act: Act, ghost l: Ledger) returns (reply: Reply, ghost l': Ledger)
    requires buffer.Valid() && buffer.fragments == l.fragments && buffer.generation == Min(l.version, U64_MAX)
    requires act.MoveAway? || act.Replace? || act.AssignSelf?
    modifies buffer
    ensures Moved(buffer, l, l') && Next(l, act, reply, l')
  {
    reply, l' := Done, l;
    if act.MoveAway? {
      var taken := new FragmentedBuffer.Moved(buffer);
      l' := Ledger([], l.version + 1, l.marks);
    } else if act.AssignSelf? {
      buffer.Assign(buffer);
    } else {
      var r := CopyOf(act.bytes);
      if r.Err? {
        return Refused(r.error), l;
      }
      buffer.Assign(r.value);
      l' := Ledger(buffer.fragments, l.version + 1, l.marks);
    }
  }

  method DoExport(buffer: FragmentedBuffer, cursors: seq<ScatterCursor>, c: nat, v: nat, m: nat, ghost l: Ledger)
    returns (reply: Reply, ghost l': Ledger)
    requires Agrees(buffer, cursors, l)
    modifies cursors
    ensures Agrees(buffer, cursors, l') && Next(l, Export(c, v, m), reply, l')
  {
    if c >= |cursors| {
      return Refused(InvalidArgument), l;
    }
    assert CursorAgrees(cursors[c], buffer, l.version, l.marks[c]);
    var r := ExportScatter(buffer, v, m, cursors[c]);
    if r.Err? {
      return Refused(r.error), l;
    }
    ghost var end := SentSoFar(l.marks[c]) + r.value.bytes;
    reply, l' := Sent(r.value), l.(marks := l.marks[c := Bound(l.version, l.fragments, end)]);
    forall k | 0 <= k < |cursors| ensures CursorAgrees(cursors[k], buffer, l.version, l'.marks[k]) {
      assert k != c ==> old(CursorAgrees(cursors[k], buffer, l.version, l.marks[k]));
    }
  }

  method DoNewCursor(buffer: FragmentedBuffer, cursors: seq<ScatterCursor>, ghost l: Ledger)
    returns (cursor: ScatterCursor, ghost l': Ledger)
    requires Agrees(buffer, cursors, l)
    ensures fresh(cursor) && Agrees(buffer, cursors + [cursor], l') && Next(l, NewCursor, Done, l')
  {
    cursor := new ScatterCursor();
    l' := l.(marks := l.marks + [Unbound]);
    forall k | 0 <= k < |cursors| ensures CursorAgrees(cursors[k], buffer, l.version, l.marks[k]) {
      assert old(CursorAgrees(cursors[k], buffer, l.version, l.marks[k]));
    }
  }

  method Do(buffer: FragmentedBuffer, cursors: seq<ScatterCursor>, act: Act, ghost l: Ledger)
    returns (reply: Reply, more: seq<ScatterCursor>, ghost l': Ledger)
    requires Agrees(buffer, cursors, l)
    modifies buffer, cursors
    ensures Agrees(buffer, more, l') && Next(l, act, reply, l')
    ensures forall k :: 0 <= k < |more| ==> more[k] in cursors || fresh(more[k])
  {
    more := cursors;
    match act {
      case NewCursor =>
        var cursor;
        cursor, l' := DoNewCursor(buffer, cursors, l);
        reply, more := Done, cursors + [cursor];
      case Trim(front, n) =>
        reply, l' := DoTrim(buffer, front, n, l);
        StillAgree(Before(buffer, cursors, l), l');
      case MoveAway =>
        reply, l' := DoMove(buffer, act, l);
        StillAgree(Before(buffer, cursors, l), l');
      case Replace(_) =>
        reply, l' := DoMove(buffer, act, l);
        StillAgree(Before(buffer, cursors, l), l');
      case AssignSelf =>
        reply, l' := DoMove(buffer, act, l);
        StillAgree(Before(buffer, cursors, l), l');
      case GiveAll(config) =>
        reply, l' := DoGiveAll(buffer, config, l);
        StillAgree(Before(buffer, cursors, l), l');
      case GiveLeading(config, count) =>
        reply, l' := DoGiveLeading(buffer, config, count, l);
        StillAgree(Before(buffer, cursors, l), l');
      case Export(c, v, m) =>
        reply, l' := DoExport(buffer, cursors, c, v, m, l);
    }
  }

  // ----- any run -----

  ghost predicate Replayed(acts: seq<Act>, replies: seq<Reply>, ledgers: seq<Ledger>) {
    && |replies| == |acts| && |ledgers| == |acts| + 1 && ledgers[0].marks == []
    && forall i :: 0 <= i < |acts| ==> Next(ledgers[i], acts[i], replies[i], ledgers[i + 1])
  }

  /** Whatever is done, the buffer and its cursors do as the ledger says. */
  method Run(buffer: FragmentedBuffer, acts: seq<Act>)
    returns (cursors: seq<ScatterCursor>, replies: seq<Reply>, ghost ledgers: seq<Ledger>)
    requires buffer.Valid()
    modifies buffer
    ensures Replayed(acts, replies, ledgers) && Agrees(buffer, cursors, ledgers[|acts|])
    ensures ledgers[0] == Ledger(old(buffer.fragments), old(buffer.generation), [])
  {
    cursors, replies, ledgers := [], [], [Ledger(buffer.fragments, buffer.generation, [])];
    for i := 0 to |acts|
      invariant |ledgers| == i + 1 && ledgers[0] == Ledger(old(buffer.fragments), old(buffer.generation), [])
      invariant Replayed(acts[..i], replies, ledgers) && Agrees(buffer, cursors, ledgers[i])
      invariant forall k :: 0 <= k < |cursors| ==> fresh(cursors[k])
    {
      var reply;
      ghost var l;
      reply, cursors, l := Do(buffer, cursors, acts[i], ledgers[i]);
      OneMore(acts, i, replies, ledgers, reply, l);
      replies, ledgers := replies + [reply], ledgers + [l];
    }
    assert acts[..|acts|] == acts;
  }

  lemma OneMore(acts: seq<Act>, i: nat, replies: seq<Reply>, ledgers: seq<Ledger>, reply: Reply, l: Ledger)
    requires i < |acts| && Replayed(acts[..i], replies, ledgers) && Next(ledgers[i], acts[i], reply, l)
    ensures Replayed(acts[..i + 1], replies + [reply], ledgers + [l])
  {
  }

  // ----- what a cursor sends -----

  predicate SendsBy(act: Act, reply: Reply, c: nat) {
    act.Export? && act.c == c && reply.Sent?
  }

  /** The batches sent through cursor c. */
  function SentBy(acts: seq<Act>, replies: seq<Reply>, c: nat): seq<ScatterBatch>
    requires |replies| == |acts|
  {
    if acts == [] then []
    else
      var n := |acts| - 1;
      SentBy(acts[..n], replies[..n], c)
      + if SendsBy(acts[n], replies[n], c) then [replies[n].batch] else []
  }

  /** And the caps each was sent under. */
  function CapsBy(acts: seq<Act>, replies: seq<Reply>, c: nat): (caps: seq<Caps>)
    requires |replies| == |acts|
    ensures |caps| == |SentBy(acts, replies, c)|
  {
    if acts == [] then []
    else
      var n := |acts| - 1;
      CapsBy(acts[..n], replies[..n], c)
      + if SendsBy(acts[n], replies[n], c) then [Caps(acts[n].maxVectors, acts[n].maxBytes)] else []
  }

  /** What cursor c has sent, by its mark. */
  ghost predicate Accounted(batches: seq<ScatterBatch>, caps: seq<Caps>, marks: seq<Mark>, c: nat) {
    if c < |marks| && marks[c].Bound? then Covers(batches, caps, marks[c].presented, marks[c].bytes)
    else batches == [] && caps == []
  }

  /** A bound cursor that is not stale is bound to what the buffer presents. */
  ghost predicate Faithful(l: Ledger) {
    forall c :: 0 <= c < |l.marks| && l.marks[c].Bound? ==>
      l.marks[c].version <= l.version && (l.marks[c].version == l.version ==> l.marks[c].presented == l.fragments)
  }

  lemma FaithfulNext(l: Ledger, act: Act, reply: Reply, l': Ledger)
    requires Next(l, act, reply, l') && Faithful(l)
    ensures Faithful(l')
  {
  }

  lemma AccountedNext(l: Ledger, act: Act, reply: Reply, l': Ledger, batches: seq<ScatterBatch>,
                      caps: seq<Caps>, c: nat)
    requires Next(l, act, reply, l') && Faithful(l) && Accounted(batches, caps, l.marks, c)
    ensures if SendsBy(act, reply, c)
            then Accounted(batches + [reply.batch], caps + [Caps(act.maxVectors, act.maxBytes)], l'.marks, c)
            else Accounted(batches, caps, l'.marks, c)
  {
    if SendsBy(act, reply, c) {
      var start := SentSoFar(l.marks[c]);
      CoversMore(batches, caps, reply.batch, Caps(act.maxVectors, act.maxBytes), l.fragments,
                 start, start + reply.batch.bytes);
    }
  }

  lemma Shorter(acts: seq<Act>, replies: seq<Reply>, ledgers: seq<Ledger>, n: nat)
    requires Replayed(acts, replies, ledgers) && n <= |acts|
    ensures Replayed(acts[..n], replies[..n], ledgers[..n + 1])
  {
  }

  /** Over any run, what a cursor has sent is the front of the one presentation it is bound to: no byte missing,
      none twice, and none of another presentation. */
  lemma {:induction false} SentInOrder(acts: seq<Act>, replies: seq<Reply>, ledgers: seq<Ledger>, c: nat)
    requires Replayed(acts, replies, ledgers)
    ensures Faithful(ledgers[|acts|])
    ensures Accounted(SentBy(acts, replies, c), CapsBy(acts, replies, c), ledgers[|acts|].marks, c)
  {
    if acts != [] {
      var n := |acts| - 1;
      Shorter(acts, replies, ledgers, n);
      SentInOrder(acts[..n], replies[..n], ledgers[..n + 1], c);
      FaithfulNext(ledgers[n], acts[n], replies[n], ledgers[n + 1]);
      var batches, caps := SentBy(acts[..n], replies[..n], c), CapsBy(acts[..n], replies[..n], c);
      AccountedNext(ledgers[n], acts[n], replies[n], ledgers[n + 1], batches, caps, c);
      assert batches + [] == batches && caps + [] == caps;
    }
  }

  lemma StaleNext(l: Ledger, act: Act, reply: Reply, l': Ledger, c: nat)
    requires Next(l, act, reply, l') && Faithful(l) && c < |l.marks| && Stale(l, l.marks[c])
    ensures c < |l'.marks| && l'.marks[c] == l.marks[c] && Stale(l', l'.marks[c])
    ensures act.Export? && act.c == c ==> reply == Refused(InvalidArgument)
  {
  }

  /** Once the buffer presents anything else, a bound cursor is refused for good, whatever the counter does. */
  lemma {:induction false} StaleForGood(acts: seq<Act>, replies: seq<Reply>, ledgers: seq<Ledger>, c: nat,
                                        i: nat, j: nat)
    requires Replayed(acts, replies, ledgers) && i <= j < |acts|
    requires c < |ledgers[i].marks| && Stale(ledgers[i], ledgers[i].marks[c])
    ensures c < |ledgers[j].marks| && ledgers[j].marks[c] == ledgers[i].marks[c]
    ensures Stale(ledgers[j], ledgers[j].marks[c])
    ensures acts[j].Export? && acts[j].c == c ==> replies[j] == Refused(InvalidArgument)
  {
    Shorter(acts, replies, ledgers, j);
    SentInOrder(acts[..j], replies[..j], ledgers[..j + 1], c);
    if i < j {
      StaleForGood(acts, replies, ledgers, c, i, j - 1);
      Shorter(acts, replies, ledgers, j - 1);
      SentInOrder(acts[..j - 1], replies[..j - 1], ledgers[..j], c);
      StaleNext(ledgers[j - 1], acts[j - 1], replies[j - 1], ledgers[j], c);
    }
    StaleNext(ledgers[j], acts[j], replies[j], ledgers[j + 1], c);
  }
}
