/**
 The parser: a position in a buffer that only reads, the fragment cached for it,
 and at most a fixed number of checkpoints
 (src/bytes/fragmented_buffer_parser.cc and its header).

 Every operation is stated against a flat cursor: the bytes, an index and a stack
 of indices. A read takes all of its bytes or none of them.
 */
module BufferParser {
  import opened Units
  import opened Fragments
  import opened FragmentedBuffers
  import opened ParserSteps

  datatype Cursor = Cursor(index: nat, stack: seq<nat>)

  ghost function Counts(ps: seq<Position>): seq<nat> {
    seq(|ps|, i requires 0 <= i < |ps| => ps[i].consumed)
  }

  class Parser {
    const buffer: FragmentedBuffer
    var at: Position
    var cache: Option<Fragment>
    var checkpoints: seq<Position>
    var depth: nat

    ghost predicate Valid()
      reads this, buffer
    {
      && buffer.Valid()
      && ParserOk(buffer.fragments, at, cache, checkpoints, depth)
    }

    /** The flat bytes being parsed. */
    ghost function Input(): (b: seq<byte>)
      requires buffer.Valid()
      reads buffer, Arrays(buffer.fragments)
      ensures |b| == buffer.size
    {
      buffer.Content()
    }

    ghost function Where(): Cursor
      requires depth <= |checkpoints|
      reads this
    {
      Cursor(at.consumed, Counts(checkpoints[..depth]))
    }

    constructor (buffer: FragmentedBuffer)
      requires buffer.Valid()
      ensures Valid() && this.buffer == buffer && Where() == Cursor(0, [])
    {
      var start := Position(0, 0, 0);
      var p, c := Normalize(buffer.fragments, start);
      this.buffer, at, cache, depth := buffer, p, c, 0;
      checkpoints := seq(MAX_CHECKPOINTS, _ => start);
    }

    function BytesRemaining(): (n: nat)
      requires Valid()
      reads this, buffer
      ensures n + at.consumed == buffer.size
    {
      PosBound(buffer.fragments, at);
      CheckedSub(buffer.size, at.consumed).GetOr(0)
    }

    /** Moves the cursor on by bytes known to be there; its malformed-data branches are dead. */
    method Advance(n: nat) returns (r: Result<Unit>)
      requires Valid() && at.consumed + n <= buffer.size
      modifies this`at, this`cache
      ensures r == Ok(Unit) && Valid() && at.consumed == old(at.consumed) + n
    {
      var failed, p := Walk(buffer.fragments, at, n);
      match failed {
        case Some(error) => return Err(error);
        case None =>
      }
      at, cache := p, Cache(buffer.fragments, p.fragment);
      return Ok(Unit);
    }

    method Skip(n: nat) returns (r: Result<Unit>)
      requires Valid()
      modifies this`at, this`cache
      ensures Valid() && Where().stack == old(Where()).stack
      ensures r == if old(at.consumed) + n <= buffer.size then Ok(Unit) else Err(OutOfRange)
      ensures at.consumed == old(at.consumed) + if r.Ok? then n else 0
    {
      if n > BytesRemaining() {
        return Err(OutOfRange);
      }
      if n == 0 {
        return Ok(Unit);
      }
      r := Advance(n);
    }

    /** Fills the destination from a position: the cached window when it covers the read, else the
        walk. Either way the bytes are the flat ones, and neither malformed-data branch is met. */
    method CopyOut(dst: array<byte>, from: Position) returns (r: Result<Unit>)
      requires Valid() && PosOk(buffer.fragments, from) && from.consumed <= at.consumed
      requires dst !in Arrays(buffer.fragments)
      modifies dst
      ensures r == if at.consumed + dst.Length <= buffer.size then Ok(Unit) else Err(TruncatedData)
      ensures Input() == old(Input())
      ensures dst[..] == if r.Ok? then Input()[from.consumed..from.consumed + dst.Length] else old(dst[..])
    {
      if dst.Length > BytesRemaining() {
        return Err(TruncatedData);
      }
      if from == at && cache.Some? && cache.value.len - from.offset >= dst.Length {
        CopyCached(buffer.fragments, from, cache.value, dst);
        FlatKept(buffer.fragments);
        return Ok(Unit);
      }
      var failed := CopyAcross(buffer.fragments, from, dst);
      FlatKept(buffer.fragments);
      match failed {
        case Some(error) => return Err(error);
        case None => return Ok(Unit);
      }
    }

    method PeekTo(dst: array<byte>) returns (r: Result<Unit>)
      requires Valid() && dst !in Arrays(buffer.fragments)
      modifies dst
      ensures r == if at.consumed + dst.Length <= buffer.size then Ok(Unit) else Err(TruncatedData)
      ensures Input() == old(Input())
      ensures dst[..] == if r.Ok? then Input()[at.consumed..at.consumed + dst.Length] else old(dst[..])
    {
      PosBound(buffer.fragments, at);
      if dst.Length == 0 {
        return Ok(Unit);
      }
      r := CopyOut(dst, at);
    }

    /** A read that comes up short reports Truncated and consumes nothing. */
    method ReadTo(dst: array<byte>) returns (r: Result<Unit>)
      requires Valid() && dst !in Arrays(buffer.fragments)
      modifies this`at, this`cache, dst
      ensures Valid() && Where().stack == old(Where()).stack && Input() == old(Input())
      ensures r == if old(at.consumed) + dst.Length <= buffer.size then Ok(Unit) else Err(TruncatedData)
      ensures at.consumed == old(at.consumed) + if r.Ok? then dst.Length else 0
      ensures dst[..] == if r.Ok? then Input()[old(at.consumed)..at.consumed] else old(dst[..])
    {
      PosBound(buffer.fragments, at);
      if dst.Length == 0 {
        return Ok(Unit);
      }
      r := CopyOut(dst, at);
      if r.Err? {
        return;
      }
      label Copied:
      r := Advance(dst.Length);
      FlatKept@Copied(buffer.fragments);
    }

    /** The next bytes as windows of the input, with no byte copied. */
    method SliceNext(n: nat) returns (r: Result<FragmentedBuffer>)
      requires Valid()
      ensures r.Ok? <==> at.consumed + n <= buffer.size
      ensures r.Err? ==> r.error == TruncatedData
      ensures
        r.Ok? ==>
        fresh(r.value) && r.value.Valid() && r.value.fragments == Slice(buffer.fragments, at.consumed, n)
    {
      if n > BytesRemaining() {
        return Err(TruncatedData);
      }
      if n == 0 {
        var empty := new FragmentedBuffer.Empty();
        return Ok(empty);
      }
      PosBound(buffer.fragments, at);
      r := buffer.ShareFrom(at.fragment, at.offset, n);
    }

    /** An owning slice of the next bytes. */
    method PeekBuffer(n: nat) returns (r: Result<FragmentedBuffer>)
      requires Valid()
      ensures r.Ok? <==> at.consumed + n <= buffer.size
      ensures r.Err? ==> r.error == TruncatedData
      ensures Input() == old(Input())
      ensures r.Ok? ==> fresh(r.value) && r.value.Valid() && r.value.Content() == Input()[at.consumed..at.consumed + n]
    {
      r := SliceNext(n);
      FlatKept(buffer.fragments);
      if r.Ok? {
        SliceFlat(buffer.fragments, at.consumed, n);
      }
    }

    method ReadBuffer(n: nat) returns (r: Result<FragmentedBuffer>)
      requires Valid()
      modifies this`at, this`cache
      ensures Valid() && Where().stack == old(Where()).stack && Input() == old(Input())
      ensures r.Ok? <==> old(at.consumed) + n <= buffer.size
      ensures r.Err? ==> r.error == TruncatedData
      ensures at.consumed == old(at.consumed) + if r.Ok? then n else 0
      ensures r.Ok? ==> fresh(r.value) && r.value.Valid()
      ensures r.Ok? ==> r.value.Content() == Input()[old(at.consumed)..old(at.consumed) + n]
    {
      r := PeekBuffer(n);
      if r.Err? || n == 0 {
        return;
      }
      label Peeked:
      var advanced := Advance(n);
      match advanced {
        case Err(error) => return Err(error);
        case Ok(_) =>
      }
      FlatKept@Peeked(r.value.fragments);
      FlatKept@Peeked(buffer.fragments);
    }

    /** The unread bytes of the current fragment: a prefix of what is left, empty only at the end. */
    method PeekCurrentFragment() returns (view: Option<Fragment>)
      requires Valid()
      ensures view.None? <==> at.consumed == buffer.size
      ensures view.Some? ==>
        && view.value.Ok() && view.value.len > 0 && at.consumed + view.value.len <= buffer.size
        && view.value.Bytes() == Input()[at.consumed..at.consumed + view.value.len]
    {
      PosBound(buffer.fragments, at);
      if cache.None? || at.offset >= cache.value.len {
        return None;
      }
      UnreadWindow(buffer.fragments, at);
      return Some(cache.value.Cut(at.offset, cache.value.len - at.offset));
    }

    method PushCheckpoint() returns (r: Result<Unit>)
      requires Valid()
      modifies this`checkpoints, this`depth
      ensures Valid()
      ensures r == if old(depth) == MAX_CHECKPOINTS then Err(ResourceExhausted) else Ok(Unit)
      ensures depth == old(depth) + if r.Ok? then 1 else 0
      ensures Where() == if r.Err? then old(Where()) else Cursor(at.consumed, old(Where()).stack + [at.consumed])
    {
      if depth == MAX_CHECKPOINTS {
        return Err(ResourceExhausted);
      }
      checkpoints := checkpoints[depth := at];
      depth := depth + 1;
      return Ok(Unit);
    }

    method Rollback() returns (r: Result<Unit>)
      requires Valid()
      modifies this`at, this`cache, this`depth
      ensures Valid()
      ensures r == if old(depth) == 0 then Err(InvalidArgument) else Ok(Unit)
      ensures r.Err? ==> Where() == old(Where())
      ensures r.Ok? ==> var was := old(Where()).stack; Where() == Cursor(was[|was| - 1], was[..|was| - 1])
    {
      if depth == 0 {
        return Err(InvalidArgument);
      }
      depth := depth - 1;
      at := checkpoints[depth];
      cache := Cache(buffer.fragments, at.fragment);
      return Ok(Unit);
    }

    method Commit() returns (r: Result<Unit>)
      requires Valid()
      modifies this`depth
      ensures Valid()
      ensures r == if old(depth) == 0 then Err(InvalidArgument) else Ok(Unit)
      ensures r.Err? ==> Where() == old(Where())
      ensures r.Ok? ==> var was := old(Where()); Where() == was.(stack := was.stack[..|was.stack| - 1])
    {
      if depth == 0 {
        return Err(InvalidArgument);
      }
      depth := depth - 1;
      return Ok(Unit);
    }
  }
}
