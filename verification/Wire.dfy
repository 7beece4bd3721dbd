/** The Protocol Buffers wire format, as far as the two clipboard messages use it:
    base 128 varints, tags, and length-delimited records.

    Bytes are integers below 256 and machine integers are bounded subset types; every
    wrap-around or truncation of the program is written out where it happens. */
module Wire {

  type byte = b: int | 0 <= b < 256
  type Bytes = seq<byte>

  const TWO_32: int := 0x1_0000_0000
  const TWO_63: int := 0x8000_0000_0000_0000
  const TWO_64: int := 0x1_0000_0000_0000_0000

  type uint32 = n: int | 0 <= n < 0x1_0000_0000
  type uint64 = n: int | 0 <= n < 0x1_0000_0000_0000_0000
  type int32 = n: int | -0x8000_0000 <= n < 0x8000_0000
  type int64 = n: int | -0x8000_0000_0000_0000 <= n < 0x8000_0000_0000_0000

  /** The bytes of a spelled-out ASCII text. */
  function Ascii(text: string): Bytes {
    seq(|text|, i requires 0 <= i < |text| => if text[i] < 128 as char then text[i] as int as byte else 0)
  }

  datatype Option<+T> = None | Some(value: T)

  // ---- Two's complement ----

  /** A signed number as the unsigned 64-bit word a varint carries. */
  function ToWord(n: int64): uint64 {
    if n < 0 then n + TWO_64 else n
  }

  function FromWord(w: uint64): int64 {
    if w < TWO_63 then w else w - TWO_64
  }

  /** Keeps the low 32 bits of a word and reads them as signed. */
  function TruncateToInt32(w: uint64): int32 {
    var low := w % TWO_32;
    if low < 0x8000_0000 then low else low - TWO_32
  }

  lemma {:induction false} WordRoundTrip(n: int64)
    ensures FromWord(ToWord(n)) == n
    ensures -0x8000_0000 <= n < 0x8000_0000 ==> TruncateToInt32(ToWord(n)) == n
  {
    if -0x8000_0000 <= n < 0 {
      assert ToWord(n) == (TWO_32 - 1) * TWO_32 + (n + TWO_32);
    }
  }

  /** A number reduced to a 64-bit signed word. */
  function Wrap64(n: int): int64 {
    (n + TWO_63) % TWO_64 - TWO_63
  }

  // ---- Varints ----

  function EncodeVarint(n: nat): (b: Bytes)
    ensures b != []
    decreases n
  {
    if n < 128 then [n] else [128 + n % 128] + EncodeVarint(n / 128)
  }

  /** The values that fit when `k` of the ten bytes are spent; the tenth byte holds one bit. */
  function Room(k: nat): nat
    requires k <= 9
    decreases 9 - k
  {
    if k == 9 then 2 else 128 * Room(k + 1)
  }

  /** Reads a varint whose first `k` bytes have been read already; the value and what follows it. */
  function DecodeVarintFrom(b: Bytes, k: nat): (r: Option<(nat, Bytes)>)
    requires k <= 9
    ensures r.Some? ==> r.value.0 < Room(k) && |r.value.1| < |b|
    decreases 9 - k
  {
    if b == [] || (k == 9 && b[0] >= 2) then None
    else if b[0] < 128 then (if k < 9 then RoomGrows(k); Some((b[0], b[1..])) else Some((b[0], b[1..])))
    else
      match DecodeVarintFrom(b[1..], k + 1)
      case None => None
      case Some((high, rest)) => Some((128 * high + (b[0] - 128), rest))
  }

  lemma {:induction false} RoomGrows(k: nat)
    requires k < 9
    ensures Room(k) >= 128
    decreases 9 - k
  {
    if k + 1 < 9 { RoomGrows(k + 1); }
  }

  lemma {:induction false} RoomForWord()
    ensures Room(0) == TWO_64
  {
    assert Room(8) == 256;
    assert Room(7) == 128 * 256;
    assert Room(6) == 128 * 128 * 256;
    assert Room(5) == 128 * 128 * 128 * 256;
    assert Room(4) == 128 * 128 * 128 * 128 * 256;
    assert Room(3) == 128 * 128 * 128 * 128 * 128 * 256;
    assert Room(2) == 128 * 128 * 128 * 128 * 128 * 128 * 256;
    assert Room(1) == 128 * 128 * 128 * 128 * 128 * 128 * 128 * 256;
  }

  function DecodeVarint(b: Bytes): (r: Option<(uint64, Bytes)>)
    ensures r.Some? ==> |r.value.1| < |b|
  {
    RoomForWord();
    match DecodeVarintFrom(b, 0)
    case None => None
    case Some((n, rest)) => Some((n, rest))
  }

  lemma {:induction false} VarintRoundTripFrom(n: nat, rest: Bytes, k: nat)
    requires k <= 9 && n < Room(k)
    ensures DecodeVarintFrom(EncodeVarint(n) + rest, k) == Some((n, rest))
    decreases 9 - k
  {
    var b := EncodeVarint(n) + rest;
    if n < 128 {
      assert b[1..] == rest;
    } else {
      assert b[1..] == EncodeVarint(n / 128) + rest;
      VarintRoundTripFrom(n / 128, rest, k + 1);
    }
  }

  /** Every 64-bit word, negative numbers' ten-byte words included, survives. */
  lemma {:induction false} VarintRoundTrip(n: uint64, rest: Bytes)
    ensures DecodeVarint(EncodeVarint(n) + rest) == Some((n, rest))
  {
    RoomForWord();
    VarintRoundTripFrom(n, rest, 0);
  }

  /** The number a varint spells, seven bits a byte with the lowest first. */
  function Spelled(b: Bytes): nat {
    if b == [] then 0 else b[0] % 128 + 128 * Spelled(b[1..])
  }

  /** What the format says of a varint: the spelling of its number, every byte but the last marked as
      continued, and none more than needed. */
  lemma {:induction false} VarintSpells(n: nat)
    ensures Spelled(EncodeVarint(n)) == n
    ensures var b := EncodeVarint(n);
            && (forall i :: 0 <= i < |b| - 1 ==> b[i] >= 128) && b[|b| - 1] < 128 && (|b| > 1 ==> b[|b| - 1] > 0)
    decreases n
  {
    if n >= 128 {
      VarintSpells(n / 128);
      assert EncodeVarint(n)[1..] == EncodeVarint(n / 128);
    }
  }

  function Pow128(k: nat): nat {
    if k == 0 then 1 else 128 * Pow128(k - 1)
  }

  lemma {:induction false} VarintLengthAtMost(n: nat, k: nat)
    requires k >= 1 && n < Pow128(k)
    ensures |EncodeVarint(n)| <= k
    decreases k
  {
    if n >= 128 {
      assert k > 1;
      VarintLengthAtMost(n / 128, k - 1);
    }
  }

  /** How many bytes the varints of this program take. */
  lemma {:induction false} VarintLengths(n: uint64)
    ensures n < 128 ==> |EncodeVarint(n)| == 1
    ensures n < 0x20_0000 ==> |EncodeVarint(n)| <= 3
    ensures n < 0x1000_0000 ==> |EncodeVarint(n)| <= 4
    ensures n < TWO_32 ==> |EncodeVarint(n)| <= 5
    ensures |EncodeVarint(n)| <= 10
  {
    assert Pow128(3) == 0x20_0000;
    assert Pow128(4) == 128 * Pow128(3);
    assert Pow128(5) == 128 * Pow128(4);
    assert Pow128(7) == 128 * Pow128(6) == 128 * 128 * Pow128(5);
    assert Pow128(9) == 128 * Pow128(8) == 128 * 128 * Pow128(7);
    assert Pow128(10) == 128 * Pow128(9);
    if n < 0x20_0000 { VarintLengthAtMost(n, 3); }
    if n < 0x1000_0000 { VarintLengthAtMost(n, 4); }
    if n < TWO_32 { VarintLengthAtMost(n, 5); }
    VarintLengthAtMost(n, 10);
  }

  // ---- Records ----

  /** One record of a message: a field number and a value of one of the wire types. */
  datatype Field =
    | VarintField(num: nat, word: uint64)
    | Fixed64Field(num: nat, fixed: Bytes)
    | BytesField(num: nat, data: Bytes)
    | Fixed32Field(num: nat, fixed: Bytes)
  {
    predicate InRange() {
      && 1 <= num < 0x2000_0000
      && (Fixed64Field? ==> |fixed| == 8)
      && (Fixed32Field? ==> |fixed| == 4)
      && (BytesField? ==> |data| < TWO_63)
    }
  }

  function EncodeField(f: Field): (b: Bytes)
    ensures b != []
  {
    match f
    case VarintField(num, word) => EncodeVarint(8 * num) + EncodeVarint(word)
    case Fixed64Field(num, fixed) => EncodeVarint(8 * num + 1) + fixed
    case BytesField(num, data) => EncodeVarint(8 * num + 2) + EncodeVarint(|data|) + data
    case Fixed32Field(num, fixed) => EncodeVarint(8 * num + 5) + fixed
  }

  /** Reads the value of a record whose tag named field `num` and wire type `kind`. */
  function DecodeValue(num: nat, kind: nat, body: Bytes): (r: Option<(Field, Bytes)>)
    ensures r.Some? ==> |r.value.1| <= |body|
  {
    if kind == 0 then
      match DecodeVarint(body)
      case None => None
      case Some((word, rest)) => Some((VarintField(num, word), rest))
    else if kind == 1 then
      if |body| < 8 then None else Some((Fixed64Field(num, body[..8]), body[8..]))
    else if kind == 2 then
      match DecodeVarint(body)
      case None => None
      case Some((size, rest)) =>
        if size > |rest| then None else Some((BytesField(num, rest[..size]), rest[size..]))
    else if kind == 5 then
      if |body| < 4 then None else Some((Fixed32Field(num, body[..4]), body[4..]))
    else None
  }

  /** Reads one record. Field numbers outside 1..2^29-1 and the group wire types are errors. */
  function DecodeField(b: Bytes): (r: Option<(Field, Bytes)>)
    ensures r.Some? ==> |r.value.1| < |b|
  {
    match DecodeVarint(b)
    case None => None
    case Some((tag, body)) =>
      if 1 <= tag / 8 < 0x2000_0000 then DecodeValue(tag / 8, tag % 8, body) else None
  }

  function EncodeFields(fields: seq<Field>): Bytes {
    if fields == [] then [] else EncodeField(fields[0]) + EncodeFields(fields[1..])
  }

  function DecodeFields(b: Bytes): Option<seq<Field>>
    decreases |b|
  {
    if b == [] then Some([])
    else
      match DecodeField(b)
      case None => None
      case Some((field, rest)) =>
        match DecodeFields(rest)
        case None => None
        case Some(fields) => Some([field] + fields)
  }

  lemma {:induction false} TagRoundTrip(num: nat, kind: nat, body: Bytes)
    requires 1 <= num < 0x2000_0000 && kind < 8
    ensures DecodeField(EncodeVarint(8 * num + kind) + body) == DecodeValue(num, kind, body)
  {
    hide EncodeVarint;
    hide DecodeVarintFrom;
    VarintRoundTrip(8 * num + kind, body);
    assert (8 * num + kind) / 8 == num && (8 * num + kind) % 8 == kind;
  }

  lemma {:induction false} Regroup(a: Bytes, b: Bytes, c: Bytes)
    ensures a + b + c == a + (b + c)
  {
  }

  lemma {:induction false} SplitAt(a: Bytes, b: Bytes)
    ensures (a + b)[..|a|] == a && (a + b)[|a|..] == b
  {
  }

  lemma {:induction false} WordFieldRoundTrip(num: nat, word: uint64, rest: Bytes)
    requires 1 <= num < 0x2000_0000
    ensures DecodeField(EncodeField(VarintField(num, word)) + rest) == Some((VarintField(num, word), rest))
  {
    Regroup(EncodeVarint(8 * num), EncodeVarint(word), rest);
    TagRoundTrip(num, 0, EncodeVarint(word) + rest);
    VarintRoundTrip(word, rest);
  }

  lemma {:induction false} BytesFieldRoundTrip(num: nat, data: Bytes, rest: Bytes)
    requires 1 <= num < 0x2000_0000 && |data| < TWO_63
    ensures DecodeField(EncodeField(BytesField(num, data)) + rest) == Some((BytesField(num, data), rest))
  {
    var tag, size := EncodeVarint(8 * num + 2), EncodeVarint(|data|);
    Regroup(tag, size, data);
    Regroup(tag, size + data, rest);
    Regroup(size, data, rest);
    TagRoundTrip(num, 2, size + (data + rest));
    VarintRoundTrip(|data|, data + rest);
    SplitAt(data, rest);
  }

  lemma {:induction false} FixedFieldRoundTrip(num: nat, fixed: Bytes, rest: Bytes)
    requires 1 <= num < 0x2000_0000
    ensures |fixed| == 8 ==>
              DecodeField(EncodeField(Fixed64Field(num, fixed)) + rest) == Some((Fixed64Field(num, fixed), rest))
    ensures |fixed| == 4 ==>
              DecodeField(EncodeField(Fixed32Field(num, fixed)) + rest) == Some((Fixed32Field(num, fixed), rest))
  {
    SplitAt(fixed, rest);
    Regroup(EncodeVarint(8 * num + 1), fixed, rest);
    TagRoundTrip(num, 1, fixed + rest);
    Regroup(EncodeVarint(8 * num + 5), fixed, rest);
    TagRoundTrip(num, 5, fixed + rest);
  }

  lemma {:induction false} FieldRoundTrip(f: Field, rest: Bytes)
    requires f.InRange()
    ensures DecodeField(EncodeField(f) + rest) == Some((f, rest))
  {
    match f
    case VarintField(num, word) => WordFieldRoundTrip(num, word, rest);
    case Fixed64Field(num, fixed) => FixedFieldRoundTrip(num, fixed, rest);
    case BytesField(num, data) => BytesFieldRoundTrip(num, data, rest);
    case Fixed32Field(num, fixed) => FixedFieldRoundTrip(num, fixed, rest);
  }

  /** Any list of records in range survives the wire. */
  lemma {:induction false} FieldsRoundTrip(fields: seq<Field>)
    requires forall f :: f in fields ==> f.InRange()
    ensures DecodeFields(EncodeFields(fields)) == Some(fields)
    decreases |fields|
  {
    if fields != [] {
      FieldRoundTrip(fields[0], EncodeFields(fields[1..]));
      FieldsRoundTrip(fields[1..]);
      assert fields == [fields[0]] + fields[1..];
    }
  }
}
