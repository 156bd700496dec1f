/**
 The wire primitives under the reflective codec: base-128 varints, field tags,
 little-endian fixed-width numbers, length-delimited bytes and the skipping of
 one field value, groups included.  They follow the Protocol Buffers encoding
 specification, sections "Base 128 Varints" and "Message Structure".
 */
module Wire {
  datatype Result<+T> = Ok(value: T) | Err

  /** A value read from the front of a buffer and the number of bytes it took. */
  datatype Parsed<+T> = Parsed(value: T, length: nat)

  type Byte = b: int | 0 <= b < 256
  type Bytes = seq<Byte>

  const TWO63 := 0x8000_0000_0000_0000
  const TWO64 := 0x1_0000_0000_0000_0000
  const MAX_INT32 := 0x7FFF_FFFF
  const MAX_VARINT_BYTES := 10
  const MAX_GROUP_DEPTH := 10000

  const VARINT := 0
  const FIXED64 := 1
  const BYTES := 2
  const START_GROUP := 3
  const END_GROUP := 4
  const FIXED32 := 5

  datatype Tag = Tag(num: nat, typ: nat)

  // ---- Varints ----

  function AppendVarint(v: nat): (bs: Bytes)
    ensures |bs| >= 1
  {
    if v < 128 then [v] else [v % 128 + 128] + AppendVarint(v / 128)
  }

  /** Reads a varint of at most `left` bytes; the last permitted byte may only be 0 or 1. */
  function VarintWithin(b: Bytes, left: nat): (r: Result<Parsed<nat>>)
    requires left >= 1
    ensures r.Ok? ==> 1 <= r.value.length <= |b| && r.value.value < VarintLimit(left)
    decreases |b|
  {
    if |b| == 0 then Err
    else if left == 1 then
      if b[0] < 2 then Ok(Parsed(b[0], 1)) else Err
    else if b[0] < 128 then Ok(Parsed(b[0], 1))
    else
      match VarintWithin(b[1..], left - 1)
      case Err => Err
      case Ok(p) => Ok(Parsed(b[0] - 128 + 128 * p.value, p.length + 1))
  }

  /** One more than the greatest number that `left` varint bytes can carry. */
  ghost function VarintLimit(left: nat): (n: nat)
    requires left >= 1
    ensures n >= 2 && (left > 1 ==> n >= 256)
  {
    if left == 1 then 2 else 128 * VarintLimit(left - 1)
  }

  function ConsumeVarint(b: Bytes): (r: Result<Parsed<nat>>)
    ensures r.Ok? ==> 1 <= r.value.length <= |b| && r.value.value < TWO64
  {
    VarintLimitIs64Bits();
    VarintWithin(b, MAX_VARINT_BYTES)
  }

  lemma VarintLimitIs64Bits()
    ensures VarintLimit(MAX_VARINT_BYTES) == TWO64
  {
    assert VarintLimit(4) == 0x40_0000;
    assert VarintLimit(7) == 0x800_0000_0000;
    assert VarintLimit(9) == 0x200_0000_0000_0000;
  }

  lemma {:induction false} VarintWithinReadsBack(v: nat, left: nat, rest: Bytes)
    requires left >= 1 && v < VarintLimit(left)
    ensures VarintWithin(AppendVarint(v) + rest, left) == Ok(Parsed(v, |AppendVarint(v)|))
    decreases left
  {
    if left > 1 && v >= 128 {
      VarintWithinReadsBack(v / 128, left - 1, rest);
      assert (AppendVarint(v) + rest)[1..] == AppendVarint(v / 128) + rest;
    }
  }

  /** A varint is read back from in front of any further bytes. */
  lemma VarintReadsBack(v: nat, rest: Bytes)
    requires v < TWO64
    ensures ConsumeVarint(AppendVarint(v) + rest) == Ok(Parsed(v, |AppendVarint(v)|))
  {
    VarintLimitIs64Bits();
    VarintWithinReadsBack(v, MAX_VARINT_BYTES, rest);
  }

  lemma VarintExtends(a: Bytes, b: Bytes)
    requires ConsumeVarint(a).Ok?
    ensures ConsumeVarint(a + b) == ConsumeVarint(a)
  {
    VarintWithinExtends(a, b, MAX_VARINT_BYTES);
  }

  lemma {:induction false} VarintWithinExtends(a: Bytes, b: Bytes, left: nat)
    requires left >= 1 && VarintWithin(a, left).Ok?
    ensures VarintWithin(a + b, left) == VarintWithin(a, left)
    decreases left
  {
    if left > 1 && a[0] >= 128 {
      assert (a + b)[1..] == a[1..] + b;
      VarintWithinExtends(a[1..], b, left - 1);
    }
  }

  // ---- Tags ----

  function AppendTag(num: nat, typ: nat): (bs: Bytes)
    requires typ < 8
    ensures |bs| >= 1
  {
    AppendVarint(num * 8 + typ)
  }

  function ConsumeTag(b: Bytes): (r: Result<Parsed<Tag>>)
    ensures r.Ok? ==> 1 <= r.value.length <= |b|
    ensures r.Ok? ==> 1 <= r.value.value.num <= MAX_INT32 && r.value.value.typ < 8
  {
    match ConsumeVarint(b)
    case Err => Err
    case Ok(p) =>
      var num := p.value / 8;
      if num > MAX_INT32 || num < 1 then Err
      else Ok(Parsed(Tag(num, p.value % 8), p.length))
  }

  lemma TagReadsBack(num: nat, typ: nat, rest: Bytes)
    requires 1 <= num <= MAX_INT32 && typ < 8
    ensures ConsumeTag(AppendTag(num, typ) + rest) == Ok(Parsed(Tag(num, typ), |AppendTag(num, typ)|))
  {
    VarintReadsBack(num * 8 + typ, rest);
  }

  lemma TagExtends(a: Bytes, b: Bytes)
    requires ConsumeTag(a).Ok?
    ensures ConsumeTag(a + b) == ConsumeTag(a)
  {
    VarintWithinExtends(a, b, MAX_VARINT_BYTES);
  }

  // ---- Fixed-width numbers, little endian ----

  function AppendFixed(v: nat, width: nat): (bs: Bytes)
    ensures |bs| == width
  {
    if width == 0 then [] else [v % 256] + AppendFixed(v / 256, width - 1)
  }

  function FixedValue(b: Bytes): nat {
    if b == [] then 0 else b[0] + 256 * FixedValue(b[1..])
  }

  function ConsumeFixed(b: Bytes, width: nat): (r: Result<Parsed<nat>>)
    ensures r.Ok? ==> r.value.length == width <= |b| && r.value.value < Radix(width)
  {
    if |b| < width then Err
    else FixedValueBound(b[..width]); Ok(Parsed(FixedValue(b[..width]), width))
  }

  ghost function Radix(width: nat): nat {
    if width == 0 then 1 else 256 * Radix(width - 1)
  }

  lemma FixedValueBound(b: Bytes)
    ensures FixedValue(b) < Radix(|b|)
  {
  }

  lemma Radix64()
    ensures Radix(8) == TWO64
  {
    assert Radix(3) == 0x100_0000;
    assert Radix(6) == 0x1_0000_0000_0000;
  }

  lemma {:induction false} FixedValueReadsBack(v: nat, width: nat)
    requires v < Radix(width)
    ensures FixedValue(AppendFixed(v, width)) == v
  {
    if width > 0 {
      FixedValueReadsBack(v / 256, width - 1);
    }
  }

  lemma FixedReadsBack(v: nat, width: nat, rest: Bytes)
    requires v < Radix(width)
    ensures ConsumeFixed(AppendFixed(v, width) + rest, width) == Ok(Parsed(v, width))
  {
    FixedValueReadsBack(v, width);
    assert (AppendFixed(v, width) + rest)[..width] == AppendFixed(v, width);
  }

  lemma FixedExtends(a: Bytes, b: Bytes, width: nat)
    requires ConsumeFixed(a, width).Ok?
    ensures ConsumeFixed(a + b, width) == ConsumeFixed(a, width)
  {
    assert (a + b)[..width] == a[..width];
  }

  // ---- Length-delimited bytes ----

  function AppendBytes(data: Bytes): (bs: Bytes)
    ensures |bs| > |data|
  {
    AppendVarint(|data|) + data
  }

  function ConsumeBytes(b: Bytes): (r: Result<Parsed<Bytes>>)
    ensures r.Ok? ==> |r.value.value| < r.value.length <= |b|
  {
    match ConsumeVarint(b)
    case Err => Err
    case Ok(p) =>
      if p.value > |b| - p.length then Err
      else Ok(Parsed(b[p.length..p.length + p.value], p.length + p.value))
  }

  lemma BytesReadBack(data: Bytes, rest: Bytes)
    requires |data| < TWO64
    ensures ConsumeBytes(AppendBytes(data) + rest) == Ok(Parsed(data, |AppendBytes(data)|))
  {
    VarintReadsBack(|data|, data + rest);
    assert AppendBytes(data) + rest == AppendVarint(|data|) + (data + rest);
  }

  lemma BytesExtend(a: Bytes, b: Bytes)
    requires ConsumeBytes(a).Ok?
    ensures ConsumeBytes(a + b) == ConsumeBytes(a)
  {
    VarintWithinExtends(a, b, MAX_VARINT_BYTES);
    var p := ConsumeVarint(a).value;
    assert (a + b)[p.length..p.length + p.value] == a[p.length..p.length + p.value];
  }

  // ---- Byte strings one after another ----

  function Concat(cs: seq<Bytes>): Bytes {
    if cs == [] then [] else cs[0] + Concat(cs[1..])
  }

  lemma {:induction false} ConcatAppend(cs: seq<Bytes>, ds: seq<Bytes>)
    ensures Concat(cs + ds) == Concat(cs) + Concat(ds)
  {
    if cs == [] {
      assert cs + ds == ds;
    } else {
      assert (cs + ds)[1..] == cs[1..] + ds;
      ConcatAppend(cs[1..], ds);
    }
  }

  // ---- Skipping one field value ----

  /** The length of the value of a field whose tag has already been read. */
  function ConsumeFieldValue(num: nat, typ: nat, b: Bytes): (r: Result<nat>)
    ensures r.Ok? ==> r.value <= |b|
  {
    FieldValueLength(num, typ, b, MAX_GROUP_DEPTH)
  }

  function FieldValueLength(num: nat, typ: nat, b: Bytes, depth: int): (r: Result<nat>)
    ensures r.Ok? ==> r.value <= |b|
    decreases |b|, 1
  {
    if typ == VARINT then Length(ConsumeVarint(b))
    else if typ == FIXED32 then Length(ConsumeFixed(b, 4))
    else if typ == FIXED64 then Length(ConsumeFixed(b, 8))
    else if typ == BYTES then Length(ConsumeBytes(b))
    else if typ == START_GROUP && depth >= 0 then GroupLength(num, b, depth)
    else Err
  }

  function Length<T>(r: Result<Parsed<T>>): Result<nat> {
    if r.Ok? then Ok(r.value.length) else Err
  }

  /** The length of a group's body together with the end tag that closes it. */
  function GroupLength(num: nat, b: Bytes, depth: int): (r: Result<nat>)
    ensures r.Ok? ==> r.value <= |b|
    decreases |b|, 0
  {
    match ConsumeTag(b)
    case Err => Err
    case Ok(p) =>
      var inner := b[p.length..];
      if p.value.typ == END_GROUP then
        if p.value.num == num then Ok(p.length) else Err
      else
        var k := FieldValueLength(p.value.num, p.value.typ, inner, depth - 1);
        if k.Err? then Err
        else
          var m := GroupLength(num, inner[k.value..], depth);
          if m.Err? then Err else Ok(p.length + k.value + m.value)
  }

  lemma {:induction false} FieldValueExtends(num: nat, typ: nat, a: Bytes, b: Bytes, depth: int)
    requires FieldValueLength(num, typ, a, depth).Ok?
    ensures FieldValueLength(num, typ, a + b, depth) == FieldValueLength(num, typ, a, depth)
    decreases |a|, 1
  {
    if typ == VARINT {
      VarintWithinExtends(a, b, MAX_VARINT_BYTES);
    } else if typ == FIXED32 {
      FixedExtends(a, b, 4);
    } else if typ == FIXED64 {
      FixedExtends(a, b, 8);
    } else if typ == BYTES {
      BytesExtend(a, b);
    } else {
      GroupExtends(num, a, b, depth);
    }
  }

  lemma {:induction false} GroupExtends(num: nat, a: Bytes, b: Bytes, depth: int)
    requires GroupLength(num, a, depth).Ok?
    ensures GroupLength(num, a + b, depth) == GroupLength(num, a, depth)
    decreases |a|, 0
  {
    hide ConsumeTag, FieldValueLength;
    TagExtends(a, b);
    var p := ConsumeTag(a).value;
    var inner, whole := a[p.length..], (a + b)[p.length..];
    if p.value.typ != END_GROUP {
      var len := FieldValueLength(p.value.num, p.value.typ, inner, depth - 1);
      var k := len.value;
      assert whole == inner + b && whole[k..] == inner[k..] + b;
      assert FieldValueLength(p.value.num, p.value.typ, whole, depth - 1) == len by {
        FieldValueExtends(p.value.num, p.value.typ, inner, b, depth - 1);
      }
      assert GroupLength(num, whole[k..], depth) == GroupLength(num, inner[k..], depth) by {
        GroupExtends(num, inner[k..], b, depth);
      }
    }
  }
}
