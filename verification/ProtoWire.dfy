/**
 * The protobuf wire-format reader (packages/apple-notes/fulcra_apple_notes/protobuf.py) against the
 * Protocol Buffers encoding guide, "Base 128 Varints" and "Message Structure".
 */
module ProtoWire {
  import opened Wrappers

  type Byte = x: int | 0 <= x < 256

  type Bytes = seq<Byte>

  datatype WireError = TruncatedVarint | VarintTooLong | FieldZero | Overrun | TruncatedFixed | UnsupportedType

  const WIRE_VARINT := 0
  const WIRE_64BIT := 1
  const WIRE_LEN := 2
  const WIRE_32BIT := 5

  function Pow(base: nat, e: nat): (p: nat)
    ensures base > 0 ==> p > 0
  {
    if e == 0 then 1 else MulPos(base, Pow(base, e - 1))
  }

  function MulPos(a: nat, b: nat): (p: nat)
    ensures p == a * b && (a > 0 && b > 0 ==> p > 0)
  {
    a * b
  }

  // ---- Varints ----------------------------------------------------------------------------------

  datatype Reading = Reading(value: nat, used: nat)

  /** A varint at the front of `s`, after `i` of its bytes: low groups first, at most ten bytes. */
  function Varint(s: Bytes, i: nat): (r: Result<Reading, WireError>)
    ensures r.Ok? ==> 1 <= r.value.used <= |s| && i + r.value.used <= 10
    decreases |s|
  {
    if s == [] then Err(TruncatedVarint)
    else if i >= 10 then Err(VarintTooLong)
    else if s[0] < 128 then Ok(Reading(s[0], 1))
    else match Varint(s[1..], i + 1)
         case Err(e) => Err(e)
         case Ok(r) => Ok(Reading(s[0] - 128 + 128 * r.value, r.used + 1))
  }

  /** `result | value << shift`, when `result` is below `1 << shift`. */
  function Shifted(result: nat, value: nat, shift: nat): nat {
    result + MulPos(Pow(2, shift), value)
  }

  lemma {:induction false} SevenMore(shift: nat)
    ensures Pow(2, shift + 7) == 128 * Pow(2, shift)
  {
    assert Pow(2, shift + 7) == 2 * Pow(2, shift + 6) && Pow(2, shift + 6) == 2 * Pow(2, shift + 5);
    assert Pow(2, shift + 5) == 2 * Pow(2, shift + 4) && Pow(2, shift + 4) == 2 * Pow(2, shift + 3);
    assert Pow(2, shift + 3) == 2 * Pow(2, shift + 2) && Pow(2, shift + 2) == 2 * Pow(2, shift + 1);
  }

  lemma {:induction false} ShiftIn(result: nat, low: nat, high: nat, shift: nat)
    ensures Shifted(result, low + 128 * high, shift) == Shifted(Shifted(result, low, shift), high, shift + 7)
  {
    var scale := Pow(2, shift);
    SevenMore(shift);
    assert scale * (low + 128 * high) == scale * low + scale * (128 * high);
    assert scale * (128 * high) == (128 * scale) * high;
  }

  lemma {:induction false} StaysBelow(result: nat, low: nat, shift: nat)
    requires result < Pow(2, shift) && low < 128
    ensures Shifted(result, low, shift) < Pow(2, shift + 7)
  {
    hide Pow;
    SevenMore(shift);
    BelowScale(result, low, Pow(2, shift));
  }

  lemma {:induction false} BelowScale(result: nat, low: nat, scale: nat)
    requires result < scale && low < 128
    ensures result + scale * low < 128 * scale
  {
    assert scale * 127 - scale * low == scale * (127 - low);
  }

  function Ahead(r: Result<Reading, WireError>, start: nat): Result<Reading, WireError> {
    match r case Ok(got) => Ok(Reading(got.value, start + got.used)) case Err(e) => Err(e)
  }

  /** A reading that goes on after `i` bytes gave `result`. */
  function ShiftedIn(result: nat, i: nat, r: Result<Reading, WireError>): Result<Reading, WireError> {
    match r case Ok(got) => Ok(Reading(Shifted(result, got.value, 7 * i), i + got.used)) case Err(e) => Err(e)
  }

  lemma LastByte(s: Bytes, i: nat, result: nat)
    requires s != [] && i < 10 && s[0] < 128
    ensures ShiftedIn(result, i, Varint(s, i)) == Ok(Reading(Shifted(result, s[0] % 128, 7 * i), i + 1))
  {
  }

  lemma {:induction false} OneByteMore(s: Bytes, i: nat, result: nat)
    requires s != [] && i < 10 && s[0] >= 128
    ensures ShiftedIn(result, i, Varint(s, i))
            == ShiftedIn(Shifted(result, s[0] % 128, 7 * i), i + 1, Varint(s[1..], i + 1))
  {
    if Varint(s[1..], i + 1).Ok? { ShiftIn(result, s[0] % 128, Varint(s[1..], i + 1).value.value, 7 * i); }
  }

  lemma VarintStops(s: Bytes, i: nat, result: nat)
    ensures s == [] ==> ShiftedIn(result, i, Varint(s, i)) == Err(TruncatedVarint)
    ensures s != [] && i >= 10 ==> ShiftedIn(result, i, Varint(s, i)) == Err(VarintTooLong)
  {
  }

  lemma NothingShifted(r: Result<Reading, WireError>)
    ensures ShiftedIn(0, 0, r) == r && 0 < Pow(2, 0)
  {
  }

  /** `_read_varint`: each byte's low seven bits are shifted in above the ones before. */
  method ReadVarint(buf: Bytes, start: nat) returns (r: Result<Reading, WireError>)
    requires start <= |buf|
    ensures r == Ahead(Varint(buf[start..], 0), start)
  {
    hide Pow, MulPos, Shifted, ShiftedIn, Varint;
    var result: nat, shift: nat, pos: nat := 0, 0, start;
    ghost var i: nat := 0;
    NothingShifted(Varint(buf[start..], 0));
    while true
      invariant pos == start + i <= |buf| && shift == 7 * i && result < Pow(2, shift)
      invariant ShiftedIn(result, i, Varint(buf[pos..], i)) == Varint(buf[start..], 0)
      decreases |buf| - pos
    {
      VarintStops(buf[pos..], i, result);
      if pos >= |buf| { return Err(TruncatedVarint); }
      if shift > 63 { return Err(VarintTooLong); }
      var byte := buf[pos];
      assert buf[pos..][0] == byte && buf[pos..][1..] == buf[pos + 1..];
      StaysBelow(result, byte % 128, shift);
      if byte < 128 { LastByte(buf[pos..], i, result); } else { OneByteMore(buf[pos..], i, result); }
      result := Shifted(result, byte % 128, shift);
      pos := pos + 1;
      if byte < 128 { return Ok(Reading(result, pos)); }
      shift := shift + 7;
      i := i + 1;
    }
  }

  /** The canonical encoding of a number. */
  function EncodeVarint(v: nat): (s: Bytes)
    ensures |s| > 0
  {
    if v < 128 then [v] else [v % 128 + 128] + EncodeVarint(v / 128)
  }

  lemma {:induction false} EncodedLength(v: nat, k: nat)
    requires k > 0 && v < Pow(128, k)
    ensures |EncodeVarint(v)| <= k
    decreases k
  {
    if v >= 128 {
      assert Pow(128, k) == 128 * Pow(128, k - 1);
      assert Pow(128, 0) == 1;
      EncodedLength(v / 128, k - 1);
    }
  }

  lemma {:induction false} VarintRoundTrip(v: nat, rest: Bytes, i: nat)
    requires i + |EncodeVarint(v)| <= 10
    ensures Varint(EncodeVarint(v) + rest, i) == Ok(Reading(v, |EncodeVarint(v)|))
    decreases v
  {
    if v >= 128 {
      VarintRoundTrip(v / 128, rest, i + 1);
      assert (EncodeVarint(v) + rest)[1..] == EncodeVarint(v / 128) + rest;
    }
  }

  /** A varint decodes to less than 2^70, from at most ten bytes. */
  lemma {:induction false} VarintBounds(s: Bytes, i: nat)
    requires Varint(s, i).Ok?
    ensures i < 10 && Varint(s, i).value.value < Pow(128, 10 - i) && Varint(s, i).value.used <= 10 - i
    decreases |s|
  {
    assert Pow(128, 10 - i) == 128 * Pow(128, 10 - i - 1);
    if s[0] >= 128 { VarintBounds(s[1..], i + 1); }
  }

  const LIMIT_32 := 0x1_0000_0000
  const LIMIT_64 := 0x1_0000_0000_0000_0000
  const LIMIT_70 := 0x40_0000_0000_0000_0000

  lemma {:induction false} Limits()
    ensures Pow(128, 10) == LIMIT_70 && Pow(256, 8) == LIMIT_64 && Pow(256, 4) == LIMIT_32
  {
    PowTen();
    PowFour(256);
    PowAdd(256, 4, 4);
  }

  lemma {:induction false} PowSeven(b: nat)
    ensures Pow(b, 7) == b * (b * (b * (b * (b * (b * (b * 1))))))
  {
    assert Pow(b, 7) == b * Pow(b, 6) && Pow(b, 6) == b * Pow(b, 5) && Pow(b, 5) == b * Pow(b, 4);
    assert Pow(b, 4) == b * Pow(b, 3) && Pow(b, 3) == b * Pow(b, 2) && Pow(b, 2) == b * Pow(b, 1)
           && Pow(b, 1) == b * Pow(b, 0);
  }

  lemma {:induction false} PowFour(b: nat)
    ensures Pow(b, 4) == b * (b * (b * (b * 1)))
  {
    assert Pow(b, 4) == b * Pow(b, 3) && Pow(b, 3) == b * Pow(b, 2) && Pow(b, 2) == b * Pow(b, 1)
           && Pow(b, 1) == b * Pow(b, 0);
  }

  lemma {:induction false} PowTen()
    ensures Pow(128, 10) == LIMIT_70
  {
    PowAdd(128, 7, 3);
    PowSeven(128);
    assert Pow(128, 3) == 128 * Pow(128, 2) && Pow(128, 2) == 128 * Pow(128, 1) && Pow(128, 1) == 128 * Pow(128, 0);
  }

  lemma {:induction false} PowAdd(b: nat, m: nat, n: nat)
    ensures Pow(b, m + n) == Pow(b, m) * Pow(b, n)
  {
    if m == 0 {
    } else {
      PowAdd(b, m - 1, n);
      assert b * (Pow(b, m - 1) * Pow(b, n)) == (b * Pow(b, m - 1)) * Pow(b, n);
    }
  }

  /** Every number below 2^64 reads back unchanged. */
  lemma {:induction false} VarintReturns64(v: nat, rest: Bytes)
    requires v < LIMIT_64
    ensures |EncodeVarint(v)| <= 10 && Varint(EncodeVarint(v) + rest, 0) == Ok(Reading(v, |EncodeVarint(v)|))
  {
    Limits();
    EncodedLength(v, 10);
    VarintRoundTrip(v, rest, 0);
  }

  // ---- Fields -----------------------------------------------------------------------------------

  datatype Value = Num(n: nat) | Raw(b: Bytes)

  datatype Field = Field(number: nat, wire: nat, value: Value)

  datatype Got = Got(field: Field, used: nat)

  /** `int.from_bytes(s, "little")`. */
  function LittleEndian(s: Bytes): nat {
    if s == [] then 0 else s[0] + 256 * LittleEndian(s[1..])
  }

  /** The value of a field whose key has been read. */
  function Payload(s: Bytes, wire: nat): (r: Result<(Value, nat), WireError>)
    ensures r.Ok? ==> r.value.1 <= |s|
  {
    if wire == WIRE_VARINT then
      match Varint(s, 0) case Err(e) => Err(e) case Ok(r) => Ok((Num(r.value), r.used))
    else if wire == WIRE_LEN then
      match Varint(s, 0)
      case Err(e) => Err(e)
      case Ok(r) => if r.used + r.value > |s| then Err(Overrun)
        else Ok((Raw(s[r.used..r.used + r.value]), r.used + r.value))
    else if wire == WIRE_64BIT then
      if |s| < 8 then Err(TruncatedFixed) else Ok((Num(LittleEndian(s[..8])), 8))
    else if wire == WIRE_32BIT then
      if |s| < 4 then Err(TruncatedFixed) else Ok((Num(LittleEndian(s[..4])), 4))
    else Err(UnsupportedType)
  }

  /** One field at the front of `s`. */
  function FieldAt(s: Bytes): (r: Result<Got, WireError>)
    ensures r.Ok? ==> 1 <= r.value.used <= |s|
  {
    match Varint(s, 0)
    case Err(e) => Err(e)
    case Ok(key) =>
      if key.value / 8 == 0 then Err(FieldZero)
      else match Payload(s[key.used..], key.value % 8)
           case Err(e) => Err(e)
           case Ok(p) => Ok(Got(Field(key.value / 8, key.value % 8, p.0), key.used + p.1))
  }

  function Prepend(f: Field, rest: Result<seq<Field>, WireError>): Result<seq<Field>, WireError> {
    match rest case Ok(fields) => Ok([f] + fields) case Err(e) => Err(e)
  }

  /** The fields of a buffer, in order. */
  function Fields(s: Bytes): Result<seq<Field>, WireError>
    decreases |s|
  {
    if s == [] then Ok([])
    else match FieldAt(s)
         case Err(e) => Err(e)
         case Ok(got) => Prepend(got.field, Fields(s[got.used..]))
  }

  function After(done: seq<Field>, rest: Result<seq<Field>, WireError>): Result<seq<Field>, WireError> {
    match rest case Ok(fields) => Ok(done + fields) case Err(e) => Err(e)
  }

  datatype Next = Next(value: Value, pos: nat)

  function PayloadNext(r: Result<(Value, nat), WireError>, start: nat): Result<Next, WireError> {
    match r case Ok(p) => Ok(Next(p.0, start + p.1)) case Err(e) => Err(e)
  }

  lemma SliceAt(buf: Bytes, pos: nat, lo: nat, hi: nat)
    requires pos <= |buf| && lo <= hi <= |buf| - pos
    ensures buf[pos..][lo..hi] == buf[pos + lo..pos + hi]
  {
  }

  /** The value part of one turn of the loop. */
  method ReadPayload(buf: Bytes, start: nat, wire: nat) returns (r: Result<Next, WireError>)
    requires start <= |buf|
    ensures r == PayloadNext(Payload(buf[start..], wire), start)
  {
    if wire == WIRE_VARINT {
      var read := ReadVarint(buf, start);
      if read.Err? { return Err(read.error); }
      r := Ok(Next(Num(read.value.value), read.value.used));
    } else if wire == WIRE_LEN {
      var length := ReadVarint(buf, start);
      if length.Err? { return Err(length.error); }
      var pos, size := length.value.used, length.value.value;
      if pos + size > |buf| { return Err(Overrun); }
      SliceAt(buf, start, pos - start, pos - start + size);
      r := Ok(Next(Raw(buf[pos..pos + size]), pos + size));
    } else if wire == WIRE_64BIT {
      if start + 8 > |buf| { return Err(TruncatedFixed); }
      SliceAt(buf, start, 0, 8);
      r := Ok(Next(Num(LittleEndian(buf[start..start + 8])), start + 8));
    } else if wire == WIRE_32BIT {
      if start + 4 > |buf| { return Err(TruncatedFixed); }
      SliceAt(buf, start, 0, 4);
      r := Ok(Next(Num(LittleEndian(buf[start..start + 4])), start + 4));
    } else {
      r := Err(UnsupportedType);
    }
  }

  function FieldNext(r: Result<Got, WireError>, start: nat): Result<(Field, nat), WireError> {
    match r case Ok(got) => Ok((got.field, start + got.used)) case Err(e) => Err(e)
  }

  /** One turn of the loop. */
  method ReadField(buf: Bytes, start: nat) returns (r: Result<(Field, nat), WireError>)
    requires start < |buf|
    ensures r == FieldNext(FieldAt(buf[start..]), start)
  {
    var key := ReadVarint(buf, start);
    if key.Err? { return Err(key.error); }
    var number, wire := key.value.value / 8, key.value.value % 8;
    if number == 0 { return Err(FieldZero); }
    SliceAt(buf, start, key.value.used - start, |buf| - start);
    assert buf[start..][key.value.used - start..] == buf[key.value.used..];
    var payload := ReadPayload(buf, key.value.used, wire);
    if payload.Err? { return Err(payload.error); }
    r := Ok((Field(number, wire, payload.value.value), payload.value.pos));
  }

  /** `iter_fields`, to its end. */
  method IterFields(buf: Bytes) returns (r: Result<seq<Field>, WireError>)
    ensures r == Fields(buf)
  {
    hide FieldAt;
    var pos := 0;
    var done: seq<Field> := [];
    assert buf[0..] == buf;
    AfterNone(Fields(buf));
    while pos < |buf|
      invariant pos <= |buf|
      invariant After(done, Fields(buf[pos..])) == Fields(buf)
    {
      var read := ReadField(buf, pos);
      if read.Err? { return Err(read.error); }
      var (field, next) := read.value;
      assert buf[pos..][next - pos..] == buf[next..];
      AfterOne(done, field, Fields(buf[next..]));
      done, pos := done + [field], next;
    }
    assert buf[pos..] == [] && done + [] == done;
    r := Ok(done);
  }

  lemma {:induction false} AfterNone(rest: Result<seq<Field>, WireError>)
    ensures After([], rest) == rest
  {
    if rest.Ok? { assert [] + rest.value == rest.value; }
  }

  lemma {:induction false} AfterOne(done: seq<Field>, f: Field, rest: Result<seq<Field>, WireError>)
    ensures After(done, Prepend(f, rest)) == After(done + [f], rest)
  {
    if rest.Ok? { assert done + ([f] + rest.value) == done + [f] + rest.value; }
  }

  // ---- Concatenation ----------------------------------------------------------------------------

  lemma {:induction false} VarintOfLonger(s: Bytes, more: Bytes, i: nat)
    requires Varint(s, i).Ok?
    ensures Varint(s + more, i) == Varint(s, i)
    decreases |s|
  {
    if s[0] >= 128 {
      VarintOfLonger(s[1..], more, i + 1);
      assert (s + more)[1..] == s[1..] + more;
    }
  }

  lemma {:induction false} PayloadOfLonger(s: Bytes, more: Bytes, wire: nat)
    requires Payload(s, wire).Ok?
    ensures Payload(s + more, wire) == Payload(s, wire)
  {
    if wire == WIRE_VARINT || wire == WIRE_LEN { VarintOfLonger(s, more, 0); }
    if wire == WIRE_LEN {
      var r := Varint(s, 0).value;
      assert (s + more)[r.used..r.used + r.value] == s[r.used..r.used + r.value];
    }
    if wire == WIRE_64BIT { assert (s + more)[..8] == s[..8]; }
    if wire == WIRE_32BIT { assert (s + more)[..4] == s[..4]; }
  }

  lemma {:induction false} FieldOfLonger(s: Bytes, more: Bytes)
    requires FieldAt(s).Ok?
    ensures FieldAt(s + more) == FieldAt(s)
  {
    VarintOfLonger(s, more, 0);
    var key := Varint(s, 0).value;
    PayloadOfLonger(s[key.used..], more, key.value % 8);
    assert (s + more)[key.used..] == s[key.used..] + more;
  }

  lemma {:induction false} VarintPrefix(s: Bytes, i: nat)
    requires Varint(s, i).Ok?
    ensures Varint(s[..Varint(s, i).value.used], i) == Varint(s, i)
    decreases |s|
  {
    if s[0] >= 128 {
      VarintPrefix(s[1..], i + 1);
      assert s[..Varint(s, i).value.used][1..] == s[1..][..Varint(s[1..], i + 1).value.used];
    }
  }

  lemma PrefixSlice(s: Bytes, used: nat, lo: nat, hi: nat)
    requires lo <= hi <= used <= |s|
    ensures s[..used][lo..hi] == s[lo..hi]
  {
  }

  lemma {:induction false} PayloadPrefix(s: Bytes, wire: nat)
    requires Payload(s, wire).Ok?
    ensures Payload(s[..Payload(s, wire).value.1], wire) == Payload(s, wire)
  {
    var used := Payload(s, wire).value.1;
    if wire == WIRE_VARINT { VarintPrefix(s, 0); }
    if wire == WIRE_LEN {
      var r := Varint(s, 0).value;
      VarintPrefix(s, 0);
      VarintOfLonger(s[..r.used], s[r.used..used], 0);
      assert s[..r.used] + s[r.used..used] == s[..used];
      PrefixSlice(s, used, r.used, r.used + r.value);
    }
    if wire == WIRE_64BIT { assert s[..8][..8] == s[..8]; }
    if wire == WIRE_32BIT { assert s[..4][..4] == s[..4]; }
  }

  lemma {:induction false} FieldPrefix(s: Bytes)
    requires FieldAt(s).Ok?
    ensures FieldAt(s[..FieldAt(s).value.used]) == FieldAt(s)
  {
    var key, used := Varint(s, 0).value, FieldAt(s).value.used;
    VarintPrefix(s, 0);
    VarintOfLonger(s[..key.used], s[key.used..used], 0);
    assert s[..key.used] + s[key.used..used] == s[..used];
    PayloadPrefix(s[key.used..], key.value % 8);
    assert s[..used][key.used..] == s[key.used..][..used - key.used];
  }

  /** Bytes that are one field and nothing else. */
  predicate IsChunk(chunk: Bytes, f: Field) {
    FieldAt(chunk) == Ok(Got(f, |chunk|))
  }

  /** A field's bytes in front of others are read first, and alone. */
  lemma {:induction false} ChunkFirst(chunk: Bytes, f: Field, rest: Bytes)
    requires IsChunk(chunk, f)
    ensures Fields(chunk + rest) == Prepend(f, Fields(rest))
  {
    FieldOfLonger(chunk, rest);
    assert (chunk + rest)[|chunk|..] == rest;
  }

  lemma {:induction false} PrependAfter(f: Field, done: seq<Field>, rest: Result<seq<Field>, WireError>)
    ensures Prepend(f, After(done, rest)) == After([f] + done, rest)
  {
    if rest.Ok? { assert [f] + (done + rest.value) == [f] + done + rest.value; }
  }

  /** Buffers decode one after the other: parsing `a + b` is parsing `a`, then `b`, errors of `b` included. */
  lemma {:induction false} FieldsConcat(a: Bytes, b: Bytes)
    requires Fields(a).Ok?
    ensures Fields(a + b) == After(Fields(a).value, Fields(b))
    decreases |a|
  {
    hide FieldAt;
    if a == [] {
      assert a + b == b;
      AfterNone(Fields(b));
    } else {
      var got := FieldAt(a).value;
      var chunk, rest := a[..got.used], a[got.used..];
      FieldPrefix(a);
      FieldsConcat(rest, b);
      ChunkFirst(chunk, got.field, rest + b);
      assert chunk + (rest + b) == a + b;
      PrependAfter(got.field, Fields(rest).value, Fields(b));
    }
  }

  predicate Chunked(chunks: seq<Bytes>, fields: seq<Field>) {
    |chunks| == |fields| && forall i | 0 <= i < |fields| :: IsChunk(chunks[i], fields[i])
  }

  function Flatten(chunks: seq<Bytes>): Bytes {
    if chunks == [] then [] else chunks[0] + Flatten(chunks[1..])
  }

  /** Success consumes the buffer exactly: it is its fields' bytes, one after the other, and no more. */
  lemma {:induction false} SuccessConsumesAll(s: Bytes) returns (chunks: seq<Bytes>)
    requires Fields(s).Ok?
    ensures Flatten(chunks) == s && Chunked(chunks, Fields(s).value)
    decreases |s|
  {
    if s == [] {
      chunks := [];
    } else {
      var used := FieldAt(s).value.used;
      var later := SuccessConsumesAll(s[used..]);
      FieldPrefix(s);
      chunks := [s[..used]] + later;
      assert chunks[1..] == later && s[..used] + s[used..] == s;
    }
  }

  /** And any such bytes are decoded. */
  lemma {:induction false} ChunksDecode(chunks: seq<Bytes>, fields: seq<Field>)
    requires Chunked(chunks, fields)
    ensures Fields(Flatten(chunks)) == Ok(fields)
    decreases |chunks|
  {
    if chunks != [] {
      var chunk, rest := chunks[0], Flatten(chunks[1..]);
      assert IsChunk(chunk, fields[0]);
      assert Chunked(chunks[1..], fields[1..]) by {
        assert forall i | 0 <= i < |fields| - 1 :: chunks[1..][i] == chunks[i + 1] && fields[1..][i] == fields[i + 1];
      }
      ChunksDecode(chunks[1..], fields[1..]);
      ChunkFirst(chunk, fields[0], rest);
      assert [fields[0]] + fields[1..] == fields;
    }
  }

  // ---- The canonical encoding -------------------------------------------------------------------

  function EncodeLittle(v: nat, width: nat): (s: Bytes)
    ensures |s| == width
  {
    if width == 0 then [] else [v % 256] + EncodeLittle(v / 256, width - 1)
  }

  lemma {:induction false} LittleRoundTrip(v: nat, width: nat)
    requires v < Pow(256, width)
    ensures LittleEndian(EncodeLittle(v, width)) == v
    decreases width
  {
    if width > 0 {
      assert Pow(256, width) == 256 * Pow(256, width - 1);
      LittleRoundTrip(v / 256, width - 1);
      assert EncodeLittle(v, width)[1..] == EncodeLittle(v / 256, width - 1);
    }
  }

  /** A field the encoding guide knows: a positive number, a supported type, a value of its width. */
  predicate WellFormed(f: Field) {
    && f.number > 0 && f.wire < 8 && f.number * 8 + f.wire < LIMIT_70
    && match f.value
       case Num(n) => (f.wire == WIRE_VARINT && n < LIMIT_70) || (f.wire == WIRE_64BIT && n < LIMIT_64)
         || (f.wire == WIRE_32BIT && n < LIMIT_32)
       case Raw(b) => f.wire == WIRE_LEN && |b| < LIMIT_70
  }

  function EncodePayload(f: Field): Bytes {
    match f.value
    case Num(n) => if f.wire == WIRE_VARINT then EncodeVarint(n)
      else if f.wire == WIRE_64BIT then EncodeLittle(n, 8) else EncodeLittle(n, 4)
    case Raw(b) => EncodeVarint(|b|) + b
  }

  function EncodeField(f: Field): Bytes {
    EncodeVarint(f.number * 8 + f.wire) + EncodePayload(f)
  }

  function Encode(fields: seq<Field>): Bytes {
    if fields == [] then [] else EncodeField(fields[0]) + Encode(fields[1..])
  }

  lemma {:induction false} PayloadRoundTrip(f: Field)
    requires WellFormed(f)
    ensures Payload(EncodePayload(f), f.wire) == Ok((f.value, |EncodePayload(f)|))
  {
    var s := EncodePayload(f);
    Limits();
    match f.value {
      case Num(n) =>
        if f.wire == WIRE_VARINT {
          EncodedLength(n, 10);
          VarintRoundTrip(n, [], 0);
          assert EncodeVarint(n) + [] == s;
        } else if f.wire == WIRE_64BIT {
          LittleRoundTrip(n, 8);
          assert s[..8] == s;
        } else {
          LittleRoundTrip(n, 4);
          assert s[..4] == s;
        }
      case Raw(b) =>
        EncodedLength(|b|, 10);
        VarintRoundTrip(|b|, b, 0);
        var used := |EncodeVarint(|b|)|;
        assert s[used..used + |b|] == b;
    }
  }

  lemma {:induction false} FieldRoundTrip(f: Field)
    requires WellFormed(f)
    ensures FieldAt(EncodeField(f)) == Ok(Got(f, |EncodeField(f)|))
  {
    var key := f.number * 8 + f.wire;
    Limits();
    EncodedLength(key, 10);
    VarintRoundTrip(key, EncodePayload(f), 0);
    PayloadRoundTrip(f);
    assert EncodeField(f)[|EncodeVarint(key)|..] == EncodePayload(f);
    assert key / 8 == f.number && key % 8 == f.wire;
  }

  /** Reading inverts writing, for every list of well-formed fields. */
  lemma {:induction false} FieldsRoundTrip(fields: seq<Field>)
    requires forall i | 0 <= i < |fields| :: WellFormed(fields[i])
    ensures Fields(Encode(fields)) == Ok(fields)
    decreases |fields|
  {
    if fields != [] {
      var f, rest := fields[0], fields[1..];
      FieldRoundTrip(f);
      assert forall i | 0 <= i < |rest| :: rest[i] == fields[i + 1];
      FieldsRoundTrip(rest);
      ChunkFirst(EncodeField(f), f, Encode(rest));
      assert [f] + rest == fields;
    }
  }

  // ---- Parsing ----------------------------------------------------------------------------------

  type Message = map<nat, seq<Value>>

  /** The values of one field number, in order. */
  function ValuesOf(fields: seq<Field>, number: nat): seq<Value>
    decreases |fields|
  {
    if fields == [] then []
    else
      ValuesOf(fields[..|fields| - 1], number)
        + if fields[|fields| - 1].number == number then [fields[|fields| - 1].value] else []
  }

  function Numbers(fields: seq<Field>): set<nat>
    decreases |fields|
  {
    if fields == [] then {} else Numbers(fields[..|fields| - 1]) + {fields[|fields| - 1].number}
  }

  function Grouped(fields: seq<Field>): Message {
    map number | number in Numbers(fields) :: ValuesOf(fields, number)
  }

  /** `parse`: each field is appended to its number's list. */
  method Parse(buf: Bytes) returns (r: Result<Message, WireError>)
    ensures r == match Fields(buf) case Ok(fields) => Ok(Grouped(fields)) case Err(e) => Err(e)
  {
    var read := IterFields(buf);
    if read.Err? { return Err(read.error); }
    var fields, out: Message := read.value, map[];
    assert Grouped(fields[..0]) == map[];
    hide Grouped, Fields;
    for i := 0 to |fields|
      invariant out == Grouped(fields[..i])
    {
      var f := fields[i];
      var before := if f.number in out then out[f.number] else [];
      GroupOne(fields[..i], f);
      assert fields[..i + 1] == fields[..i] + [f];
      out := out[f.number := before + [f.value]];
    }
    assert fields[..|fields|] == fields;
    r := Ok(out);
  }

  lemma {:induction false} NoValues(fields: seq<Field>, number: nat)
    requires number !in Numbers(fields)
    ensures ValuesOf(fields, number) == []
    decreases |fields|
  {
    if fields != [] {
      NoValues(fields[..|fields| - 1], number);
    }
  }

  lemma {:induction false} GroupOne(fields: seq<Field>, f: Field)
    ensures var before := Grouped(fields);
            Grouped(fields + [f])
              == before[f.number := (if f.number in before then before[f.number] else []) + [f.value]]
  {
    var all, before := fields + [f], Grouped(fields);
    var next := before[f.number := (if f.number in before then before[f.number] else []) + [f.value]];
    assert all[..|fields|] == fields;
    assert Grouped(all).Keys == next.Keys;
    if f.number !in Numbers(fields) { NoValues(fields, f.number); }
    forall number | number in next ensures Grouped(all)[number] == next[number] {
      assert ValuesOf(fields, number) + [] == ValuesOf(fields, number);
    }
  }

  lemma {:induction false} ValuesConcat(a: seq<Field>, b: seq<Field>, number: nat)
    ensures ValuesOf(a + b, number) == ValuesOf(a, number) + ValuesOf(b, number)
    decreases |b|
  {
    if b == [] {
      assert a + b == a;
    } else {
      ValuesConcat(a, b[..|b| - 1], number);
      assert (a + b)[..|a + b| - 1] == a + b[..|b| - 1];
    }
  }

  lemma {:induction false} NumbersConcat(a: seq<Field>, b: seq<Field>)
    ensures Numbers(a + b) == Numbers(a) + Numbers(b)
    decreases |b|
  {
    if b == [] {
      assert a + b == a;
    } else {
      NumbersConcat(a, b[..|b| - 1]);
      assert (a + b)[..|a + b| - 1] == a + b[..|b| - 1];
    }
  }

  function Parsed(buf: Bytes): Result<Message, WireError> {
    match Fields(buf) case Ok(fields) => Ok(Grouped(fields)) case Err(e) => Err(e)
  }

  function At(m: Message, number: nat): seq<Value> {
    if number in m then m[number] else []
  }

  /** Parsing two messages joined gives, field by field, the two lists joined. */
  lemma {:induction false} ParseConcat(a: Bytes, b: Bytes, number: nat)
    requires Parsed(a).Ok? && Parsed(b).Ok?
    ensures Parsed(a + b).Ok?
    ensures At(Parsed(a + b).value, number) == At(Parsed(a).value, number) + At(Parsed(b).value, number)
  {
    FieldsConcat(a, b);
    var fa, fb := Fields(a).value, Fields(b).value;
    ValuesConcat(fa, fb, number);
    NumbersConcat(fa, fb);
    if number !in Numbers(fa) { NoValues(fa, number); }
    if number !in Numbers(fb) { NoValues(fb, number); }
  }

  /** Parsing inverts encoding: each number has its values, in the order they were written. */
  lemma {:induction false} ParseRoundTrip(fields: seq<Field>, number: nat)
    requires forall i | 0 <= i < |fields| :: WellFormed(fields[i])
    ensures Parsed(Encode(fields)).Ok? && At(Parsed(Encode(fields)).value, number) == ValuesOf(fields, number)
  {
    FieldsRoundTrip(fields);
    if number !in Numbers(fields) { NoValues(fields, number); }
  }
}
