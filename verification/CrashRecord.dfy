/**
 The text record of a crash-loop tracker: printing and parsing
 (src/broker/crash_limiter.cc).
 */
module CrashRecord {
  import opened Units
  import opened SizeClasses

  const I64_MAX: nat := 0x7FFF_FFFF_FFFF_FFFF
  const U32_MAX: nat := 0xFFFF_FFFF
  const METADATA_LIMIT: nat := 160
  const HEADER: string := "kwaque-crash-loop-v1\n"

  datatype Record = Record(count: nat, checksum: string, time: nat)

  predicate IsHexDigit(c: char) {
    '0' <= c <= '9' || 'a' <= c <= 'f'
  }

  predicate IsChecksum(s: string) {
    |s| == 64 && forall i :: 0 <= i < |s| ==> IsHexDigit(s[i])
  }

  predicate ValidRecord(r: Record) {
    r.count <= U64_MAX && r.time <= I64_MAX && IsChecksum(r.checksum)
  }

  // ----- integers -----

  function DigitChar(d: nat): (c: char)
    requires d < 16
    ensures IsHexDigit(c)
  {
    if d < 10 then '0' + d as char else 'a' + (d - 10) as char
  }

  /** from_chars takes letters of either case. */
  function DigitValue(c: char, base: nat): Option<nat> {
    var d: nat :=
      if '0' <= c <= '9' then (c - '0') as nat
      else if 'a' <= c <= 'f' then (c - 'a') as nat + 10
      else if 'A' <= c <= 'F' then (c - 'A') as nat + 10
      else 16;
    if d < base then Some(d) else None
  }

  /** to_chars: no leading zero, lower case. */
  function Print(n: nat, base: nat): (s: string)
    requires 2 <= base <= 16
    ensures s != [] && forall i :: 0 <= i < |s| ==> IsHexDigit(s[i])
    decreases n
  {
    if n < base then [DigitChar(n)]
    else
      DivideStep(n, base);
      Print(n / base, base) + [DigitChar(n % base)]
  }

  /** from_chars over the whole of a string: digits only, and a value the type can hold. */
  function Parse(s: string, base: nat, max: nat): Option<nat>
    requires 2 <= base <= 16
  {
    if s == "" then None
    else
      match DigitValue(s[|s| - 1], base)
      case None => None
      case Some(d) =>
        if |s| == 1 then (if d <= max then Some(d) else None)
        else
          match Parse(s[..|s| - 1], base, max)
          case None => None
          case Some(high) => if high * base + d <= max then Some(high * base + d) else None
  }

  /** A signed type also takes a minus sign. A negative value is refused by the caller, so only zero is left. */
  function ParseTime(s: string): Option<nat> {
    if s != "" && s[0] == '-' then (if Parse(s[1..], 10, I64_MAX + 1) == Some(0) then Some(0) else None)
    else Parse(s, 10, I64_MAX)
  }

  lemma DigitRoundTrip(d: nat, base: nat)
    requires d < base <= 16
    ensures DigitValue(DigitChar(d), base) == Some(d)
  {
  }

  lemma {:induction false} PrintParse(n: nat, base: nat, max: nat)
    requires 2 <= base <= 16 && n <= max
    ensures Parse(Print(n, base), base, max) == Some(n)
    decreases n
  {
    if n < base {
      DigitRoundTrip(n, base);
    } else {
      var high, d := n / base, n % base;
      DivideStep(n, base);
      PrintParse(high, base, max);
      DigitRoundTrip(d, base);
      var s := Print(high, base) + [DigitChar(d)];
      assert s[..|s| - 1] == Print(high, base);
    }
  }

  lemma DivideStep(n: nat, base: nat)
    requires 2 <= base <= n
    ensures n / base < n && n / base * base + n % base == n && n / base <= n
  {
  }

  function Pow(base: nat, k: nat): (r: nat)
    ensures base > 0 ==> r > 0
  {
    if k == 0 then 1 else base * Pow(base, k - 1)
  }

  /** A number below a power of the base has no more digits than the exponent. */
  lemma {:induction false} PrintLength(n: nat, base: nat, k: nat)
    requires 2 <= base <= 16 && 0 < k && n < Pow(base, k)
    ensures |Print(n, base)| <= k
    decreases k
  {
    assert Pow(base, 1) == base * Pow(base, 0) == base;
    if n >= base {
      SmallerQuotient(n, base, Pow(base, k - 1));
      PrintLength(n / base, base, k - 1);
    }
  }

  lemma SmallerQuotient(n: nat, base: nat, m: nat)
    requires base > 0 && n < base * m
    ensures n / base < m
  {
    var q := n / base;
    assert q * base <= n;
    if q >= m {
      MulMonotone(m, q, base);
    }
  }

  // ----- lines -----

  /** The first newline, or the end. */
  function Newline(s: string): (i: nat)
    ensures i <= |s| && (i < |s| ==> s[i] == '\n') && forall j :: 0 <= j < i ==> s[j] != '\n'
  {
    if s == "" || s[0] == '\n' then 0 else Newline(s[1..]) + 1
  }

  /** A line and what follows its newline. */
  function TakeLine(s: string): (r: Option<(string, string)>)
    ensures r.Some? ==> s == r.value.0 + ("\n" + r.value.1)
  {
    var i := Newline(s);
    if i == |s| then None else Some((s[..i], s[i + 1..]))
  }

  ghost predicate NoNewline(s: string) {
    forall i :: 0 <= i < |s| ==> s[i] != '\n'
  }

  lemma TakeLineOf(line: string, rest: string)
    requires NoNewline(line)
    ensures TakeLine(line + ("\n" + rest)) == Some((line, rest))
  {
    var s := line + ("\n" + rest);
    assert s[|line|] == '\n' && forall j :: 0 <= j < |line| ==> s[j] == line[j];
    assert s[..|line|] == line && s[|line| + 1..] == rest;
  }

  // ----- the record -----

  /** The lines the checksum of the record covers, after the header. */
  function Body(r: Record, last: string): string {
    Print(r.count, 10) + ("\n" + (Print(r.time, 10) + ("\n" + (r.checksum + ("\n" + last)))))
  }

  function Encode(r: Record, crc: string -> nat): string {
    var covered := HEADER + Body(r, "");
    covered + (Print(crc(covered), 16) + "\n")
  }

  datatype Lines = Lines(count: string, time: string, checksum: string, integrity: string)

  /** Exactly four lines. */
  function Split(s: string): (r: Option<Lines>)
    ensures r.Some? ==> |r.value.integrity| + 1 <= |s|
  {
    match TakeLine(s)
    case None => None
    case Some((count, afterCount)) =>
      match TakeLine(afterCount)
      case None => None
      case Some((time, afterTime)) =>
        match TakeLine(afterTime)
        case None => None
        case Some((checksum, afterChecksum)) =>
          match TakeLine(afterChecksum)
          case None => None
          case Some((integrity, rest)) => if rest != "" then None else Some(Lines(count, time, checksum, integrity))
  }

  /** The fields, if every line parses and the last one covers the others. */
  function Fields(covered: string, l: Lines, crc: string -> nat): Option<Record> {
    var c, t, x := Parse(l.count, 10, U64_MAX), ParseTime(l.time), Parse(l.integrity, 16, U32_MAX);
    if c.None? || t.None? || !IsChecksum(l.checksum) || |l.integrity| > 8 || x.None? then None
    else if crc(covered) != x.value then None
    else Some(Record(c.value, l.checksum, t.value))
  }

  function Decode(s: string, crc: string -> nat): Option<Record> {
    if |s| > METADATA_LIMIT || !(HEADER <= s) then None
    else
      match Split(s[|HEADER|..])
      case None => None
      case Some(lines) => Fields(s[..|s| - |lines.integrity| - 1], lines, crc)
  }

  ghost predicate Crc32(crc: string -> nat) {
    forall s :: crc(s) <= U32_MAX
  }

  /** Twenty digits, nineteen, sixty-four and eight: no record outgrows its file. */
  lemma RecordFits(r: Record, crc: string -> nat)
    requires ValidRecord(r) && Crc32(crc)
    ensures |Encode(r, crc)| <= METADATA_LIMIT
    ensures |Print(crc(HEADER + Body(r, "")), 16)| <= 8
  {
    PowersOfTen();
    PrintLength(r.count, 10, 20);
    PrintLength(r.time, 10, 19);
    PrintLength(crc(HEADER + Body(r, "")), 16, 8);
  }

  lemma PowersOfTen()
    ensures U64_MAX < Pow(10, 20) && I64_MAX < Pow(10, 19) && U32_MAX < Pow(16, 8)
  {
    assert Pow(10, 5) == 100000;
    assert Pow(10, 10) == 10000000000 by {
      assert Pow(10, 6) == 1000000 && Pow(10, 8) == 100000000;
    }
    assert Pow(10, 15) == 1000000000000000 by {
      assert Pow(10, 12) == 1000000000000;
    }
    assert Pow(10, 19) == 10000000000000000000 by {
      assert Pow(10, 17) == 100000000000000000;
    }
    assert Pow(10, 20) == 100000000000000000000;
    assert Pow(16, 4) == 65536;
    assert Pow(16, 8) == 4294967296;
  }

  function FourLines(a: string, b: string, c: string, d: string): string {
    a + ("\n" + (b + ("\n" + (c + ("\n" + (d + ("\n" + "")))))))
  }

  lemma SplitFour(a: string, b: string, c: string, d: string)
    requires NoNewline(a) && NoNewline(b) && NoNewline(c) && NoNewline(d)
    ensures Split(FourLines(a, b, c, d)) == Some(Lines(a, b, c, d))
  {
    var s4 := d + ("\n" + "");
    var s3 := c + ("\n" + s4);
    TakeLineOf(d, "");
    TakeLineOf(c, s4);
    TakeLineOf(b, s3);
    TakeLineOf(a, b + ("\n" + s3));
  }

  lemma BodyEnd(r: Record, last: string)
    ensures Body(r, "") + last == Body(r, last)
  {
    var a, b, c := Print(r.count, 10), Print(r.time, 10), r.checksum;
    assert c + ("\n" + "") + last == c + ("\n" + last);
    assert b + ("\n" + (c + ("\n" + ""))) + last == b + ("\n" + (c + ("\n" + "") + last));
  }

  lemma EncodedShape(r: Record, crc: string -> nat)
    ensures var s, covered := Encode(r, crc), HEADER + Body(r, "");
      var x := Print(crc(covered), 16);
      && HEADER <= s && s[|HEADER|..] == FourLines(Print(r.count, 10), Print(r.time, 10), r.checksum, x)
      && |x| + 1 <= |s| && s[..|s| - |x| - 1] == covered
  {
    var covered := HEADER + Body(r, "");
    var x := Print(crc(covered), 16);
    BodyEnd(r, x + "\n");
    assert x + ("\n" + "") == x + "\n";
    assert Encode(r, crc) == HEADER + Body(r, x + "\n");
  }

  lemma TimeRoundTrip(t: nat)
    requires t <= I64_MAX
    ensures ParseTime(Print(t, 10)) == Some(t)
  {
    PrintParse(t, 10, I64_MAX);
  }

  lemma FieldsRoundTrip(r: Record, crc: string -> nat)
    requires ValidRecord(r) && Crc32(crc)
    ensures var covered := HEADER + Body(r, "");
      Fields(covered, Lines(Print(r.count, 10), Print(r.time, 10), r.checksum, Print(crc(covered), 16)), crc) == Some(r)
  {
    RecordFits(r, crc);
    PrintParse(r.count, 10, U64_MAX);
    TimeRoundTrip(r.time);
    PrintParse(crc(HEADER + Body(r, "")), 16, U32_MAX);
  }

  /** Every valid record is read back from its text. */
  lemma RecordRoundTrip(r: Record, crc: string -> nat)
    requires ValidRecord(r) && Crc32(crc)
    ensures Decode(Encode(r, crc), crc) == Some(r)
  {
    RecordFits(r, crc);
    EncodedShape(r, crc);
    FieldsRoundTrip(r, crc);
    SplitFour(Print(r.count, 10), Print(r.time, 10), r.checksum, Print(crc(HEADER + Body(r, "")), 16));
  }

  lemma {:induction false} ParseBounded(s: string, base: nat, max: nat)
    requires 2 <= base <= 16 && Parse(s, base, max).Some?
    ensures Parse(s, base, max).value <= max
  {
  }

  /** Whatever the text, what is accepted is a valid record that its last line covers. */
  lemma DecodeSound(s: string, crc: string -> nat)
    requires Decode(s, crc).Some?
    ensures ValidRecord(Decode(s, crc).value) && |s| <= METADATA_LIMIT && HEADER <= s
    ensures var x := Split(s[|HEADER|..]).value.integrity;
      Parse(x, 16, U32_MAX) == Some(crc(s[..|s| - |x| - 1]))
  {
    var l := Split(s[|HEADER|..]).value;
    ParseBounded(l.count, 10, U64_MAX);
    if l.time == "" || l.time[0] != '-' {
      ParseBounded(l.time, 10, I64_MAX);
    }
  }
}
