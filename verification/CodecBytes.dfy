/**
 The codec on the bytes themselves, with the wire types written out as numbers: what stands
 for one field, what a known field makes of it, and how much of an unknown one is skipped.
 */
module CodecBytes {
  import opened Wire
  import opened Schema
  import opened ProtoCodec

  // ---- Numbers as bytes ----

  /** The number whose digits are given, the lowest first. */
  ghost function Positional(digits: seq<nat>, base: nat): nat {
    if digits == [] then 0 else digits[0] + base * Positional(digits[1..], base)
  }

  /** The low seven bits of each byte. */
  ghost function LowBits(bs: Bytes): seq<nat> {
    seq(|bs|, i requires 0 <= i < |bs| => bs[i] % 128)
  }

  /** A varint is a number in groups of seven bits, low ones first, none too many; all bytes but the last have the top bit. */
  lemma {:induction false} VarintBytes(v: nat)
    ensures var bs := AppendVarint(v);
            && Positional(LowBits(bs), 128) == v
            && (forall i | 0 <= i < |bs| - 1 :: bs[i] >= 128) && bs[|bs| - 1] < 128 && (|bs| > 1 ==> bs[|bs| - 1] > 0)
  {
    var bs := AppendVarint(v);
    if v < 128 {
      assert LowBits(bs) == [v] && LowBits(bs)[1..] == [];
    } else {
      VarintBytes(v / 128);
      var more := AppendVarint(v / 128);
      assert bs == [v % 128 + 128] + more;
      assert LowBits(bs)[1..] == LowBits(more);
    }
  }

  /** A fixed-width number has its bytes in order, the low one first. */
  lemma {:induction false} FixedBytes(v: nat, width: nat)
    requires v < Radix(width)
    ensures |AppendFixed(v, width)| == width && Positional(AppendFixed(v, width), 256) == v
  {
    if width > 0 {
      FixedBytes(v / 256, width - 1);
      assert AppendFixed(v, width)[1..] == AppendFixed(v / 256, width - 1);
    }
  }

  /** A tag is the number shifted by three bits over the wire type; small numbers take one byte. */
  lemma TagBytes(num: nat, typ: nat)
    requires typ < 8
    ensures AppendTag(num, typ) == AppendVarint(8 * num + typ)
    ensures num < 16 ==> AppendTag(num, typ) == [8 * num + typ]
  {
  }

  /** Integer fields keep the low bits of what they read, in two's complement if they are signed. */
  lemma KeepsLowBits(v: nat)
    ensures Truncate(v, W8) == v % 0x100 && Truncate(v, W16) == v % 0x1_0000 && Truncate(v, W32) == v % 0x1_0000_0000
    ensures Truncate(v, W64) == v % 0x1_0000_0000_0000_0000
    ensures Congruent(v, WrapSigned(v, W8), 0x100) && Congruent(v, WrapSigned(v, W16), 0x1_0000)
    ensures Congruent(v, WrapSigned(v, W32), 0x1_0000_0000) && Congruent(v, WrapSigned(v, W64), 0x1_0000_0000_0000_0000)
  {
    hide Congruent;
    Wraps(v, 0x100, WrapSigned(v, W8));
    Wraps(v, 0x1_0000, WrapSigned(v, W16));
    Wraps(v, 0x1_0000_0000, WrapSigned(v, W32));
    Wraps(v, 0x1_0000_0000_0000_0000, WrapSigned(v, W64));
  }

  /** `i` is the number in the middle around zero that differs from `v` by a multiple of `m`. */
  ghost predicate Congruent(v: nat, i: int, m: nat) {
    0 - m <= 2 * i < m && exists k: int :: v - i == m * k
  }

  lemma Wraps(v: nat, m: nat, i: int)
    requires m > 0 && m % 2 == 0 && i == if v % m >= m / 2 then v % m - m else v % m
    ensures Congruent(v, i, m)
  {
    var q := v / m;
    assert v == m * q + v % m;
    assert m * (q + 1) == m * q + m;
    assert v - i == m * (if v % m >= m / 2 then q + 1 else q);
  }

  // ---- What is written ----

  /** The bytes of one value, by the kind of its field. */
  lemma WrittenValue(t: Types, f: Field, v: Value)
    requires HasKind(t, f.kind, v)
    ensures match v
            case VNil => ValueRecords(t, f, v) == []
            case VBool(b) => ValueRecords(t, f, v) == [AppendTag(f.num, 0) + [if b then 1 else 0]]
            case VInt(i) => ValueRecords(t, f, v) == [AppendTag(f.num, 0) + AppendVarint(if i < 0 then i + 0x1_0000_0000_0000_0000 else i)]
            case VUint(u) => ValueRecords(t, f, v) == [AppendTag(f.num, 0) + AppendVarint(u)]
            case VFloat(bits) => ValueRecords(t, f, v) == [AppendTag(f.num, 1) + AppendFixed(bits, 8)]
            case VBytes(data) => ValueRecords(t, f, v) == [AppendTag(f.num, 2) + (AppendVarint(|data|) + data)]
            case VMsg(vs) => f.kind.name in t && HasFields(t, t[f.kind.name].fields, vs) &&
                             var data := Encode(t, t[f.kind.name].fields, vs);
                             ValueRecords(t, f, v) == [AppendTag(f.num, 2) + (AppendVarint(|data|) + data)]
            case VList(_) => false
  {
    hide AppendFixed, Records, Concat;
  }

  /** A singular field is left out exactly when it is zero, empty or nil; a message never is. */
  lemma LeftOutIff(t: Types, f: Field, v: Value)
    requires HasField(t, f, v) && !f.repeated
    ensures FieldRecords(t, f, v) == [] <==>
            || v in {VBool(false), VInt(0), VUint(0), VFloat(0), VFloat(0x8000_0000_0000_0000), VBytes([]), VNil}
    ensures FieldRecords(t, f, v) != [] ==> FieldRecords(t, f, v) == ValueRecords(t, f, v)
  {
    hide AppendTag, Payload;
  }

  /** A list writes each element in turn, whatever it is. */
  lemma {:induction false} WrittenList(t: Types, f: Field, es: seq<Value>, e: Value)
    requires (forall x | x in es :: HasKind(t, f.kind, x)) && HasKind(t, f.kind, e)
    ensures ElementRecords(t, f, []) == [] && ElementRecords(t, f, es + [e]) == ElementRecords(t, f, es) + ValueRecords(t, f, e)
  {
    hide ValueRecords;
    assert (es + [e])[..|es|] == es;
  }

  // ---- What is read into a known field ----

  /** Field `i` is the one its number selects: the last declared with it. */
  ghost predicate Selects(fs: seq<Field>, i: nat) {
    i < |fs| && 1 <= fs[i].num <= 0x7FFF_FFFF && forall j | i < j < |fs| :: fs[j].num != fs[i].num
  }

  lemma {:induction false} SelectedIndex(fs: seq<Field>, i: nat)
    requires Selects(fs, i)
    ensures FieldIndex(fs, fs[i].num) == i
  {
  }

  /** A value read into a field replaces what was there, or is appended to a list. */
  function Stored(f: Field, was: Value, v: Value): Value {
    if f.repeated && was.VList? then VList(was.elems + [v]) else v
  }

  /** The value a number, a fixed number or a byte string gives a field of a kind, if any. */
  ghost function FromNumber(k: Kind, v: nat): Result<Value> {
    match k
    case Bool => Ok(VBool(v > 0))
    case Int(w) => Ok(VInt(WrapSigned(v, w)))
    case Uint(w) => Ok(VUint(Truncate(v, w)))
    case _ => Err
  }

  ghost function Then(t: Types, fs: seq<Field>, vs: seq<Value>, i: nat, r: Result<Value>, rest: Bytes): Result<seq<Value>>
    requires Known(t, fs) && HasFields(t, fs, vs) && i < |fs| && (r.Ok? ==> HasKind(t, fs[i].kind, r.value))
  {
    if r.Err? then Err
    else
      StoredFits(t, fs, vs, i, r.value);
      DecodeFields(t, fs, vs[i := Stored(fs[i], vs[i], r.value)], rest)
  }

  lemma StoredFits(t: Types, fs: seq<Field>, vs: seq<Value>, i: nat, v: Value)
    requires HasFields(t, fs, vs) && i < |fs| && HasKind(t, fs[i].kind, v)
    ensures HasFields(t, fs, vs[i := Stored(fs[i], vs[i], v)])
  {
    hide HasKind;
    assert HasField(t, fs[i], vs[i]);
  }

  /** A field on the wire, tag and body, is read as its value and the rest after it. */
  lemma ReadField(t: Types, fs: seq<Field>, vs: seq<Value>, i: nat, typ: nat, body: Bytes, rest: Bytes)
    requires Known(t, fs) && HasFields(t, fs, vs) && Selects(fs, i) && typ < 8
    ensures HasField(t, fs[i], vs[i])
    ensures DecodeFields(t, fs, vs, AppendTag(fs[i].num, typ) + body + rest) ==
            match DecodeField(t, fs[i], vs[i], typ, body + rest)
            case Err => Err
            case Ok(q) => DecodeFields(t, fs, vs[i := q.value], (body + rest)[q.length..])
  {
    hide AppendTag, ConsumeTag, DecodeField;
    var tag := AppendTag(fs[i].num, typ);
    SelectedIndex(fs, i);
    assert tag + body + rest == tag + (body + rest);
    TagReadsBack(fs[i].num, typ, body + rest);
    assert (tag + (body + rest))[|tag|..] == body + rest;
  }

  lemma {:induction false} NumberIntoField(t: Types, fs: seq<Field>, vs: seq<Value>, i: nat, v: nat, rest: Bytes)
    requires Known(t, fs) && HasFields(t, fs, vs) && Selects(fs, i) && v < TWO64
    ensures FromNumber(fs[i].kind, v).Ok? ==> HasKind(t, fs[i].kind, FromNumber(fs[i].kind, v).value)
    ensures DecodeFields(t, fs, vs, AppendTag(fs[i].num, 0) + AppendVarint(v) + rest) ==
            Then(t, fs, vs, i, FromNumber(fs[i].kind, v), rest)
  {
    hide AppendTag, AppendVarint, ConsumeVarint, DecodeFields, FieldIndex;
    var body := AppendVarint(v);
    ReadField(t, fs, vs, i, 0, body, rest);
    VarintReadsBack(v, rest);
    assert (body + rest)[|body|..] == rest;
  }

  lemma {:induction false} EightBytesIntoField(t: Types, fs: seq<Field>, vs: seq<Value>, i: nat, v: nat, rest: Bytes)
    requires Known(t, fs) && HasFields(t, fs, vs) && Selects(fs, i) && v < TWO64
    ensures DecodeFields(t, fs, vs, AppendTag(fs[i].num, 1) + AppendFixed(v, 8) + rest) ==
            if fs[i].kind == Float64 then Then(t, fs, vs, i, Ok(VFloat(v)), rest) else Err
  {
    hide AppendTag, AppendFixed, ConsumeFixed, DecodeFields, FieldIndex;
    var body := AppendFixed(v, 8);
    ReadField(t, fs, vs, i, 1, body, rest);
    Radix64();
    FixedReadsBack(v, 8, rest);
    assert (body + rest)[|body|..] == rest;
  }

  /** What a field holds that a message is merged into. */
  ghost function Before(t: Types, f: Field, was: Value): seq<Value>
    requires (f.kind.Struct? || f.kind.Pointer?) && NamedIn(t, f.kind) && HasField(t, f, was)
    ensures HasFields(t, t[f.kind.name].fields, Before(t, f, was))
  {
    if f.repeated then ZeroFields(t, f.kind.name)
    else
      assert HasKind(t, f.kind, was);
      if was.VNil? then ZeroFields(t, f.kind.name) else was.fields
  }

  lemma {:induction false} BytesIntoField(t: Types, fs: seq<Field>, vs: seq<Value>, i: nat, data: Bytes, rest: Bytes)
    requires Known(t, fs) && HasFields(t, fs, vs) && Selects(fs, i) && |data| < TWO64
    requires !fs[i].kind.Struct? && !fs[i].kind.Pointer?
    ensures DecodeFields(t, fs, vs, AppendTag(fs[i].num, 2) + (AppendVarint(|data|) + data) + rest) ==
            if fs[i].kind in {Text, Blob} then Then(t, fs, vs, i, Ok(VBytes(data)), rest) else Err
  {
    hide AppendTag, ConsumeBytes, DecodeFields, FieldIndex, AppendBytes;
    var body := AppendBytes(data);
    BytesAre(data);
    ReadField(t, fs, vs, i, 2, body, rest);
    BytesReadBack(data, rest);
    assert (body + rest)[|body|..] == rest;
  }

  /** A nested message is decoded into what the field holds: a fresh one in a list or behind a nil pointer. */
  lemma {:induction false} MessageIntoField(t: Types, fs: seq<Field>, vs: seq<Value>, i: nat, data: Bytes, rest: Bytes)
    requires Known(t, fs) && HasFields(t, fs, vs) && Selects(fs, i) && |data| < TWO64
    requires fs[i].kind.Struct? || fs[i].kind.Pointer?
    ensures HasField(t, fs[i], vs[i])
    ensures DecodeFields(t, fs, vs, AppendTag(fs[i].num, 2) + (AppendVarint(|data|) + data) + rest) ==
            match DecodeFields(t, t[fs[i].kind.name].fields, Before(t, fs[i], vs[i]), data)
            case Err => Err
            case Ok(ws) => Then(t, fs, vs, i, Ok(VMsg(ws)), rest)
  {
    hide AppendTag, ConsumeBytes, DecodeFields, FieldIndex, AppendBytes, DecodeField, Then;
    var body := AppendBytes(data);
    BytesAre(data);
    ReadField(t, fs, vs, i, 2, body, rest);
    BytesReadBack(data, rest);
    assert (body + rest)[|body|..] == rest;
    MessageOnly(t, fs[i], vs[i], body + rest, data, |body|);
    var r := DecodeFields(t, t[fs[i].kind.name].fields, Before(t, fs[i], vs[i]), data);
    if r.Ok? {
      assert Then(t, fs, vs, i, Ok(VMsg(r.value)), rest) == DecodeFields(t, fs, vs[i := Stored(fs[i], vs[i], VMsg(r.value))], rest) by {
        ThenIs(t, fs, vs, i, VMsg(r.value), rest);
      }
    } 
  }

  lemma ThenIs(t: Types, fs: seq<Field>, vs: seq<Value>, i: nat, v: Value, rest: Bytes)
    requires Known(t, fs) && HasFields(t, fs, vs) && i < |fs| && HasKind(t, fs[i].kind, v)
    ensures HasFields(t, fs, vs[i := Stored(fs[i], vs[i], v)])
    ensures Then(t, fs, vs, i, Ok(v), rest) == DecodeFields(t, fs, vs[i := Stored(fs[i], vs[i], v)], rest)
  {
    hide DecodeFields, HasKind, Stored;
    StoredFits(t, fs, vs, i, v);
  }

  lemma MessageOnly(t: Types, f: Field, was: Value, b: Bytes, data: Bytes, len: nat)
    requires (f.kind.Struct? || f.kind.Pointer?) && NamedIn(t, f.kind) && HasField(t, f, was)
    requires ConsumeBytes(b) == Ok(Parsed(data, len))
    ensures DecodeField(t, f, was, BYTES, b) ==
            match DecodeFields(t, t[f.kind.name].fields, Before(t, f, was), data)
            case Err => Err
            case Ok(ws) => Ok(Parsed(Stored(f, was, VMsg(ws)), len))
  {
    hide ConsumeBytes, DecodeFields;
    ZeroMessage(t, f.kind);
    var w := if f.repeated then Zero(t, f.kind) else was;
    assert HasKind(t, f.kind, w);
    assert DecodeOne(t, f.kind, w, BYTES, b) == DecodeInto(t, f.kind.name, Before(t, f, was), Parsed(data, len));
  }

  lemma BytesAre(data: Bytes)
    ensures AppendBytes(data) == AppendVarint(|data|) + data
  {
  }

  /** An embedded message starts from its zero value, a pointer from nil. */
  lemma ZeroMessage(t: Types, k: Kind)
    requires NamedIn(t, k)
    ensures k.Struct? ==> Zero(t, k) == VMsg(ZeroFields(t, k.name))
    ensures k.Pointer? ==> Zero(t, k) == VNil
  {
  }

  /** No other wire type is ever accepted for a known field. */
  lemma OtherTypesIntoField(t: Types, fs: seq<Field>, vs: seq<Value>, i: nat, typ: nat, rest: Bytes)
    requires Known(t, fs) && HasFields(t, fs, vs) && Selects(fs, i) && 3 <= typ < 8
    ensures DecodeFields(t, fs, vs, AppendTag(fs[i].num, typ) + rest) == Err
  {
    hide AppendTag, DecodeFields, FieldIndex;
    var tag := AppendTag(fs[i].num, typ);
    assert tag + [] + rest == tag + rest;
    ReadField(t, fs, vs, i, typ, [], rest);
  }

  // ---- What is skipped ----

  /** A field on the wire, whatever it means. */
  datatype Item =
    | Number(num: nat, v: nat)
    | Eight(num: nat, bytes: Bytes)
    | Chunk(num: nat, bytes: Bytes)
    | Group(num: nat, items: seq<Item>)
    | Four(num: nat, bytes: Bytes)

  function Code(x: Item): nat {
    match x
    case Number(_, _) => 0
    case Eight(_, _) => 1
    case Chunk(_, _) => 2
    case Group(_, _) => 3
    case Four(_, _) => 5
  }

  ghost predicate Proper(x: Item) {
    && 1 <= x.num <= 0x7FFF_FFFF
    && match x
       case Number(_, v) => v < 0x1_0000_0000_0000_0000
       case Eight(_, bytes) => |bytes| == 8
       case Chunk(_, bytes) => |bytes| < 0x1_0000_0000_0000_0000
       case Group(_, items) => forall y | y in items :: Proper(y)
       case Four(_, bytes) => |bytes| == 4
  }

  function Body(x: Item): Bytes {
    match x
    case Number(_, v) => AppendVarint(v)
    case Eight(_, bytes) => bytes
    case Chunk(_, bytes) => AppendVarint(|bytes|) + bytes
    case Group(num, items) => Layouts(items) + AppendTag(num, 4)
    case Four(_, bytes) => bytes
  }

  function Layouts(items: seq<Item>): Bytes {
    if items == [] then [] else AppendTag(items[0].num, Code(items[0])) + Body(items[0]) + Layouts(items[1..])
  }

  function Layout(x: Item): Bytes {
    AppendTag(x.num, Code(x)) + Body(x)
  }

  /** How deep groups are nested. */
  function Nest(x: Item): nat {
    if x.Group? then 1 + NestAll(x.items) else 0
  }

  function NestAll(items: seq<Item>): nat {
    if items == [] then 0
    else
      var a, b := Nest(items[0]), NestAll(items[1..]);
      if a < b then b else a
  }

  /** Exactly the body is skipped, up to the depth of groups allowed. */
  lemma {:induction false} SkipsBody(x: Item, rest: Bytes, depth: int)
    requires Proper(x) && depth >= -1
    ensures FieldValueLength(x.num, Code(x), Body(x) + rest, depth) ==
            if Nest(x) <= depth + 1 then Ok(|Body(x)|) else Err
    decreases x, 0
  {
    match x
    case Number(_, v) => VarintReadsBack(v, rest);
    case Eight(_, bytes) =>
    case Chunk(_, bytes) =>
      BytesAre(bytes);
      BytesReadBack(bytes, rest);
    case Group(num, items) =>
      if depth >= 0 {
        SkipsGroup(num, items, rest, depth);
      }
    case Four(_, bytes) =>
  }

  lemma {:induction false} SkipsGroup(num: nat, items: seq<Item>, rest: Bytes, depth: int)
    requires 1 <= num <= 0x7FFF_FFFF && depth >= 0 && forall y | y in items :: Proper(y)
    ensures GroupLength(num, Layouts(items) + AppendTag(num, 4) + rest, depth) ==
            if NestAll(items) <= depth then Ok(|Layouts(items) + AppendTag(num, 4)|) else Err
    decreases items, 1
  {
    hide AppendTag, ConsumeTag, FieldValueLength, GroupLength, Body;
    var end := AppendTag(num, 4);
    if items == [] {
      assert Layouts(items) + end + rest == end + rest;
      TagReadsBack(num, 4, rest);
      GroupEnds(num, num, end + rest, |end|, depth);
    } else {
      var x, more := items[0], items[1..];
      assert x in items && forall y | y in more :: y in items;
      var tag, body, tail := AppendTag(x.num, Code(x)), Body(x), Layouts(more) + end + rest;
      Regroup(tag, body, Layouts(more), end, rest);
      TagReadsBack(x.num, Code(x), body + tail);
      SkipsBody(x, tail, depth - 1);
      SkipsGroup(num, more, rest, depth);
      GroupStep(num, x.num, Code(x), tag, body, tail, depth);
    }
  }

  lemma GroupEnds(num: nat, other: nat, b: Bytes, len: nat, depth: int)
    requires ConsumeTag(b) == Ok(Parsed(Tag(other, 4), len))
    ensures GroupLength(num, b, depth) == if num == other then Ok(len) else Err
  {
    hide ConsumeTag, FieldValueLength;
  }

  lemma Regroup(tag: Bytes, body: Bytes, more: Bytes, end: Bytes, rest: Bytes)
    ensures tag + body + more + end + rest == tag + (body + (more + end + rest))
  {
  }

  lemma GroupStep(num: nat, inner: nat, typ: nat, tag: Bytes, body: Bytes, tail: Bytes, depth: int)
    requires ConsumeTag(tag + (body + tail)) == Ok(Parsed(Tag(inner, typ), |tag|)) && typ != 4
    ensures var k := FieldValueLength(inner, typ, body + tail, depth - 1);
            && (k.Err? ==> GroupLength(num, tag + (body + tail), depth) == Err)
            && (k == Ok(|body|) ==>
                  GroupLength(num, tag + (body + tail), depth) ==
                  match GroupLength(num, tail, depth)
                  case Err => Err
                  case Ok(m) => Ok(|tag| + |body| + m))
  {
    hide ConsumeTag, FieldValueLength;
    assert (tag + (body + tail))[|tag|..] == body + tail;
    assert (body + tail)[|body|..] == tail;
  }

  ghost predicate Unknown(fs: seq<Field>, num: nat) {
    forall f | f in fs :: f.num != num
  }

  lemma UnknownIndex(fs: seq<Field>, num: nat)
    requires Unknown(fs, num)
    ensures FieldIndex(fs, num) == -1
  {
  }

  /**
   A field with a number outside the message leaves the rest to be decoded as if it were not
   there, unless it nests groups more than 10001 deep, which is refused.
   */
  lemma UnknownIsSkipped(t: Types, fs: seq<Field>, vs: seq<Value>, x: Item, rest: Bytes)
    requires Known(t, fs) && HasFields(t, fs, vs) && Proper(x) && Unknown(fs, x.num)
    ensures DecodeFields(t, fs, vs, Layout(x) + rest) == if Nest(x) <= 10001 then DecodeFields(t, fs, vs, rest) else Err
  {
    hide AppendTag, ConsumeTag, FieldValueLength, Body, HasFields;
    var tag, body := AppendTag(x.num, Code(x)), Body(x);
    assert Layout(x) + rest == tag + (body + rest);
    TagReadsBack(x.num, Code(x), body + rest);
    assert (tag + (body + rest))[|tag|..] == body + rest;
    UnknownIndex(fs, x.num);
    SkipsBody(x, rest, MAX_GROUP_DEPTH);
    assert (body + rest)[|body|..] == rest;
  }

  /** Cut anywhere inside, it is refused. */
  lemma CutUnknownIsRefused(t: Types, fs: seq<Field>, vs: seq<Value>, x: Item, k: nat)
    requires Known(t, fs) && HasFields(t, fs, vs) && Proper(x) && Unknown(fs, x.num) && 0 < k < |Layout(x)|
    ensures DecodeFields(t, fs, vs, Layout(x)[..k]) == Err
  {
    hide AppendTag, ConsumeTag, FieldValueLength, Body, HasFields;
    var tag, body, cut := AppendTag(x.num, Code(x)), Body(x), Layout(x)[..k];
    TagReadsBack(x.num, Code(x), []);
    assert tag + [] == tag;
    UnknownIndex(fs, x.num);
    if k < |tag| {
      if ConsumeTag(cut).Ok? {
        assert tag == cut + tag[k..];
        TagExtends(cut, tag[k..]);
      }
    } else {
      var part := body[..k - |tag|];
      assert cut == tag + part;
      TagReadsBack(x.num, Code(x), part);
      assert cut[|tag|..] == part;
      SkipsBody(x, [], MAX_GROUP_DEPTH);
      assert body + [] == body;
      if FieldValueLength(x.num, Code(x), part, MAX_GROUP_DEPTH).Ok? {
        assert body == part + body[k - |tag|..];
        FieldValueExtends(x.num, Code(x), part, body[k - |tag|..], MAX_GROUP_DEPTH);
      }
    }
  }

  /** An end of a group that was not begun, and the two wire types that do not exist, are refused. */
  lemma NoSuchTypeIsRefused(t: Types, fs: seq<Field>, vs: seq<Value>, num: nat, typ: nat, rest: Bytes)
    requires Known(t, fs) && HasFields(t, fs, vs) && Unknown(fs, num) && 1 <= num <= 0x7FFF_FFFF && typ in {4, 6, 7}
    ensures DecodeFields(t, fs, vs, AppendTag(num, typ) + rest) == Err
  {
    hide AppendTag, ConsumeTag, HasFields;
    TagReadsBack(num, typ, rest);
    UnknownIndex(fs, num);
    assert (AppendTag(num, typ) + rest)[|AppendTag(num, typ)|..] == rest;
  }

  /** A group that ends with another number's end tag is refused. */
  lemma CrossedGroupIsRefused(t: Types, fs: seq<Field>, vs: seq<Value>, num: nat, other: nat, rest: Bytes)
    requires Known(t, fs) && HasFields(t, fs, vs) && Unknown(fs, num) && num != other
    requires 1 <= num <= 0x7FFF_FFFF && 1 <= other <= 0x7FFF_FFFF
    ensures DecodeFields(t, fs, vs, AppendTag(num, 3) + (AppendTag(other, 4) + rest)) == Err
  {
    hide AppendTag, ConsumeTag, HasFields;
    var tail := AppendTag(other, 4) + rest;
    TagReadsBack(num, 3, tail);
    TagReadsBack(other, 4, rest);
    GroupEnds(num, other, tail, |AppendTag(other, 4)|, MAX_GROUP_DEPTH);
    UnknownIndex(fs, num);
    assert (AppendTag(num, 3) + tail)[|AppendTag(num, 3)|..] == tail;
  }
}
