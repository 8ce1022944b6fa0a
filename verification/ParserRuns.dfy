/**
 Any run of parser operations against a flat cursor, and the fixed-width reads on
 top of it (src/bytes/fragmented_buffer_parser.cc and its header).
 */
module ParserRuns {
  import opened Units
  import opened Fragments
  import opened ParserSteps
  import opened BufferParser

  /** `owned` tells the zero-copy form of a read or a peek from the copying one. */
  datatype Op = Skip(n: nat) | Peek(n: nat, owned: bool) | Read(n: nat, owned: bool) | Push | Rollback | Commit

  datatype Reply = Got(bytes: seq<byte>) | Fail(error: Errc)

  /** The reference parser: bytes, an index, a stack of indices. It knows no fragments. */
  function FlatStep(bytes: seq<byte>, c: Cursor, op: Op): (Cursor, Reply)
    requires c.index <= |bytes|
  {
    match op
    case Skip(n) =>
      if c.index + n > |bytes| then (c, Fail(OutOfRange)) else (c.(index := c.index + n), Got([]))
    case Peek(n, _) =>
      if c.index + n > |bytes| then (c, Fail(TruncatedData)) else (c, Got(bytes[c.index..c.index + n]))
    case Read(n, _) =>
      if c.index + n > |bytes| then (c, Fail(TruncatedData))
      else (c.(index := c.index + n), Got(bytes[c.index..c.index + n]))
    case Push =>
      if |c.stack| == MAX_CHECKPOINTS then (c, Fail(ResourceExhausted)) else (c.(stack := c.stack + [c.index]), Got([]))
    case Rollback =>
      if c.stack == [] then (c, Fail(InvalidArgument))
      else (Cursor(c.stack[|c.stack| - 1], c.stack[..|c.stack| - 1]), Got([]))
    case Commit =>
      if c.stack == [] then (c, Fail(InvalidArgument)) else (c.(stack := c.stack[..|c.stack| - 1]), Got([]))
  }

  /** Indices never leave the input. */
  ghost predicate InInput(bytes: seq<byte>, c: Cursor) {
    c.index <= |bytes| && forall i :: 0 <= i < |c.stack| ==> c.stack[i] <= |bytes|
  }

  lemma FlatStepStays(bytes: seq<byte>, c: Cursor, op: Op)
    requires InInput(bytes, c)
    ensures InInput(bytes, FlatStep(bytes, c, op).0)
  {
  }

  ghost function FlatRun(bytes: seq<byte>, c: Cursor, ops: seq<Op>): (Cursor, seq<Reply>)
    requires InInput(bytes, c)
    decreases |ops|
  {
    if ops == [] then (c, [])
    else
      FlatStepStays(bytes, c, ops[0]);
      var (d, reply) := FlatStep(bytes, c, ops[0]);
      var (e, replies) := FlatRun(bytes, d, ops[1..]);
      (e, [reply] + replies)
  }

  // ----- what the reference parser promises -----

  /** The checkpoints below `depth` stay on the stack throughout. */
  ghost predicate StaysAbove(bytes: seq<byte>, c: Cursor, ops: seq<Op>, depth: nat)
    requires InInput(bytes, c)
    decreases |ops|
  {
    && depth <= |c.stack|
    && (ops == [] ||
        (FlatStepStays(bytes, c, ops[0]); StaysAbove(bytes, FlatStep(bytes, c, ops[0]).0, ops[1..], depth)))
  }

  lemma {:induction false} StackKept(bytes: seq<byte>, c: Cursor, ops: seq<Op>, depth: nat)
    requires InInput(bytes, c) && StaysAbove(bytes, c, ops, depth)
    ensures var d := FlatRun(bytes, c, ops).0;
      InInput(bytes, d) && depth <= |d.stack| && d.stack[..depth] == c.stack[..depth]
    decreases |ops|
  {
    if ops != [] {
      FlatStepStays(bytes, c, ops[0]);
      var d := FlatStep(bytes, c, ops[0]).0;
      assert d.stack[..depth] == c.stack[..depth];
      StackKept(bytes, d, ops[1..], depth);
    }
  }

  /** Whatever is read, skipped or checkpointed in between, rolling back to a checkpoint restores the parser as it was
      when the checkpoint was made, and committing it forgets the checkpoint and keeps the place. */
  lemma CheckpointsNest(bytes: seq<byte>, c: Cursor, pushed: Cursor, ops: seq<Op>)
    requires InInput(bytes, c) && InInput(bytes, pushed) && FlatStep(bytes, c, Push) == (pushed, Got([]))
    requires StaysAbove(bytes, pushed, ops, |pushed.stack|)
    requires |FlatRun(bytes, pushed, ops).0.stack| == |pushed.stack|
    ensures var d := FlatRun(bytes, pushed, ops).0;
      && d.index <= |bytes|
      && FlatStep(bytes, d, Rollback) == (c, Got([]))
      && FlatStep(bytes, d, Commit) == (c.(index := d.index), Got([]))
  {
    StackKept(bytes, pushed, ops, |c.stack| + 1);
    var d := FlatRun(bytes, pushed, ops).0;
    assert d.stack == d.stack[..|c.stack| + 1] == pushed.stack[..|c.stack| + 1] == c.stack + [c.index];
    assert (c.stack + [c.index])[..|c.stack|] == c.stack;
  }

  /** The bytes of the replies, one after the other. */
  ghost function Together(replies: seq<Reply>): seq<byte> {
    if replies == [] then []
    else (if replies[0].Got? then replies[0].bytes else []) + Together(replies[1..])
  }

  /** Reads, failed ones among them, give every byte from where they began to where they ended, once and in order. */
  lemma {:induction false} ReadsJoin(bytes: seq<byte>, c: Cursor, ops: seq<Op>)
    requires InInput(bytes, c) && forall i :: 0 <= i < |ops| ==> ops[i].Read?
    ensures var (d, replies) := FlatRun(bytes, c, ops);
      c.index <= d.index <= |bytes| && d.stack == c.stack && Together(replies) == bytes[c.index..d.index]
    decreases |ops|
  {
    if ops != [] {
      FlatStepStays(bytes, c, ops[0]);
      var (d, reply) := FlatStep(bytes, c, ops[0]);
      ReadsJoin(bytes, d, ops[1..]);
      var (e, replies) := FlatRun(bytes, d, ops[1..]);
      assert ([reply] + replies)[1..] == replies;
      assert bytes[c.index..d.index] + bytes[d.index..e.index] == bytes[c.index..e.index];
    }
  }

  lemma ParserInInput(p: Parser)
    requires p.Valid()
    ensures InInput(p.Input(), p.Where())
  {
    PosBound(p.buffer.fragments, p.at);
    forall i | 0 <= i < p.depth ensures p.checkpoints[i].consumed <= p.buffer.size {
      PosBound(p.buffer.fragments, p.checkpoints[i]);
    }
  }

  function Answer(bytes: seq<byte>, index: nat, n: nat): Reply {
    if index + n > |bytes| then Fail(TruncatedData) else Got(bytes[index..index + n])
  }

  /** Zero-copy peeks and reads. */
  method DoOwned(p: Parser, n: nat, advance: bool) returns (ghost reply: Reply)
    requires p.Valid()
    modifies p`at, p`cache
    ensures p.Valid() && p.Input() == old(p.Input()) && p.Where().stack == old(p.Where()).stack
    ensures reply == Answer(p.Input(), old(p.at.consumed), n)
    ensures p.at.consumed == old(p.at.consumed) + if advance && reply.Got? then n else 0
  {
    var r;
    if advance {
      r := p.ReadBuffer(n);
    } else {
      r := p.PeekBuffer(n);
    }
    reply := if r.Ok? then Got(r.value.Content()) else Fail(r.error);
  }

  /** Copying peeks and reads: they answer alike. */
  method DoCopied(p: Parser, n: nat, advance: bool) returns (ghost reply: Reply)
    requires p.Valid()
    modifies p`at, p`cache
    ensures p.Valid() && p.Input() == old(p.Input()) && p.Where().stack == old(p.Where()).stack
    ensures reply == Answer(p.Input(), old(p.at.consumed), n)
    ensures p.at.consumed == old(p.at.consumed) + if advance && reply.Got? then n else 0
  {
    var dst := new byte[n];
    FlatKept(p.buffer.fragments);
    var r;
    if advance {
      r := p.ReadTo(dst);
    } else {
      r := p.PeekTo(dst);
    }
    reply := if r.Ok? then Got(dst[..]) else Fail(r.error);
  }

  method DoRead(p: Parser, n: nat, owned: bool, advance: bool) returns (ghost reply: Reply)
    requires p.Valid()
    modifies p`at, p`cache
    ensures p.Valid() && p.Input() == old(p.Input()) && p.Where().stack == old(p.Where()).stack
    ensures reply == Answer(p.Input(), old(p.at.consumed), n)
    ensures p.at.consumed == old(p.at.consumed) + if advance && reply.Got? then n else 0
  {
    if owned {
      reply := DoOwned(p, n, advance);
    } else {
      reply := DoCopied(p, n, advance);
    }
  }

  method DoSkip(p: Parser, n: nat) returns (ghost reply: Reply)
    requires p.Valid()
    modifies p
    ensures p.Valid() && p.Input() == old(p.Input())
    ensures old(p.at.consumed) <= p.buffer.size
    ensures (p.Where(), reply) == FlatStep(p.Input(), old(p.Where()), Skip(n))
  {
    PosBound(p.buffer.fragments, p.at);
    var r := p.Skip(n);
    FlatKept(p.buffer.fragments);
    reply := if r.Ok? then Got([]) else Fail(r.error);
  }

  method DoStack(p: Parser, op: Op) returns (ghost reply: Reply)
    requires p.Valid() && (op.Push? || op.Rollback? || op.Commit?)
    modifies p
    ensures p.Valid() && p.Input() == old(p.Input())
    ensures old(p.at.consumed) <= p.buffer.size
    ensures (p.Where(), reply) == FlatStep(p.Input(), old(p.Where()), op)
  {
    PosBound(p.buffer.fragments, p.at);
    var r;
    match op {
      case Push => r := p.PushCheckpoint();
      case Rollback => r := p.Rollback();
      case Commit => r := p.Commit();
    }
    FlatKept(p.buffer.fragments);
    reply := if r.Ok? then Got([]) else Fail(r.error);
  }

  method Do(p: Parser, op: Op) returns (ghost reply: Reply)
    requires p.Valid()
    modifies p
    ensures p.Valid() && p.Input() == old(p.Input())
    ensures old(p.at.consumed) <= p.buffer.size
    ensures (p.Where(), reply) == FlatStep(p.Input(), old(p.Where()), op)
  {
    PosBound(p.buffer.fragments, p.at);
    match op {
      case Peek(n, owned) => reply := DoRead(p, n, owned, false);
      case Read(n, owned) => reply := DoRead(p, n, owned, true);
      case Skip(n) => reply := DoSkip(p, n);
      case _ => reply := DoStack(p, op);
    }
  }

  /** A run of any length gives the flat parser's replies and ends where it ends, however the input
      is fragmented. */
  method Run(p: Parser, ops: seq<Op>) returns (ghost replies: seq<Reply>)
    requires p.Valid()
    modifies p
    ensures p.Valid() && p.Input() == old(p.Input())
    ensures InInput(p.Input(), old(p.Where()))
    ensures (p.Where(), replies) == FlatRun(p.Input(), old(p.Where()), ops)
  {
    ParserInInput(p);
    ghost var bytes, start := p.Input(), p.Where();
    replies := [];
    assert ops[0..] == ops && [] + FlatRun(bytes, start, ops).1 == FlatRun(bytes, start, ops).1;
    for i := 0 to |ops|
      invariant p.Valid() && p.Input() == bytes && InInput(bytes, p.Where())
      invariant var rest := FlatRun(bytes, p.Where(), ops[i..]);
        FlatRun(bytes, start, ops) == (rest.0, replies + rest.1)
    {
      assert ops[i..][1..] == ops[i + 1..];
      ghost var before := p.Where();
      FlatStepStays(bytes, before, ops[i]);
      ghost var reply;
      reply := Do(p, ops[i]);
      Regroup(replies, reply, FlatRun(bytes, p.Where(), ops[i + 1..]).1);
      replies := replies + [reply];
    }
    assert ops[|ops|..] == [] && replies + [] == replies;
  }
}
