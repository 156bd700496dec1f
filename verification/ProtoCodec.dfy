/**
 The reflective protobuf codec: what `Marshal` writes for a message of any type in a
 table, what `Unmarshal` makes of any byte string, and how the two are related.
 */
module ProtoCodec {
  import opened Wire
  import opened Schema

  // ---- Encoding ----

  function TypeCode(k: Kind): nat {
    match k
    case Bool => VARINT
    case Int(_) => VARINT
    case Uint(_) => VARINT
    case Float64 => FIXED64
    case _ => BYTES
  }

  /** Whether the wire-type word of a tag can carry the field's Go kind. */
  predicate WordFits(f: Field) {
    match f.word
    case WordVarint => TypeCode(f.kind) == VARINT
    case WordFixed64 => TypeCode(f.kind) == FIXED64
    case WordBytes => TypeCode(f.kind) == BYTES
    case _ => false
  }

  const NEGATIVE_ZERO := TWO63

  predicate IsZeroValue(v: Value) {
    match v
    case VBool(b) => !b
    case VInt(i) => i == 0
    case VUint(u) => u == 0
    case VFloat(bits) => bits == 0 || bits == NEGATIVE_ZERO
    case VBytes(data) => |data| == 0
    case VMsg(_) => false
    case VNil => true
    case VList(es) => |es| == 0
  }

  function Unsigned(i: int): int {
    if i < 0 then i + TWO64 else i
  }

  /** What follows the tag of one value. */
  function Payload(t: Types, k: Kind, v: Value): (bs: Bytes)
    requires HasKind(t, k, v) && !v.VNil?
    decreases v, 0
  {
    match k
    case Bool => AppendVarint(if v.flag then 1 else 0)
    case Int(_) => AppendVarint(Unsigned(v.i))
    case Uint(_) => AppendVarint(v.u)
    case Float64 => AppendFixed(v.bits, 8)
    case Text => AppendBytes(v.data)
    case Blob => AppendBytes(v.data)
    case Struct(name) => AppendBytes(Concat(Records(t, t[name].fields, v.fields, |v.fields|)))
    case Pointer(name) => AppendBytes(Concat(Records(t, t[name].fields, v.fields, |v.fields|)))
  }

  /** The records written for one value; a nil pointer writes none. */
  function ValueRecords(t: Types, f: Field, v: Value): (cs: seq<Bytes>)
    requires HasKind(t, f.kind, v)
    decreases v, 1
  {
    if v.VNil? then [] else [AppendTag(f.num, TypeCode(f.kind)) + Payload(t, f.kind, v)]
  }

  function ElementRecords(t: Types, f: Field, es: seq<Value>): (cs: seq<Bytes>)
    requires forall e | e in es :: HasKind(t, f.kind, e)
    decreases es
  {
    if es == [] then []
    else ElementRecords(t, f, es[..|es| - 1]) + ValueRecords(t, f, es[|es| - 1])
  }

  /** The records of one field: a singular zero is left out, a repeated one never is. */
  function FieldRecords(t: Types, f: Field, v: Value): (cs: seq<Bytes>)
    requires HasField(t, f, v)
    decreases v, 2
  {
    if f.repeated then ElementRecords(t, f, v.elems)
    else if IsZeroValue(v) then []
    else ValueRecords(t, f, v)
  }

  /** The records of the first `n` fields, in declaration order. */
  function Records(t: Types, fs: seq<Field>, vs: seq<Value>, n: nat): (cs: seq<Bytes>)
    requires HasFields(t, fs, vs) && n <= |fs|
    decreases vs, n
  {
    if n == 0 then []
    else Records(t, fs, vs, n - 1) + FieldRecords(t, fs[n - 1], vs[n - 1])
  }

  function Encode(t: Types, fs: seq<Field>, vs: seq<Value>): Bytes
    requires HasFields(t, fs, vs)
  {
    Concat(Records(t, fs, vs, |fs|))
  }

  // ---- Decoding ----

  /** The field a number selects: the last one declared with it, or -1. */
  function FieldIndex(fs: seq<Field>, num: nat): (i: int)
    ensures -1 <= i < |fs|
    ensures i >= 0 ==> fs[i].num == num
    ensures forall j | i < j < |fs| :: fs[j].num != num
  {
    if fs == [] then -1
    else if fs[|fs| - 1].num == num then |fs| - 1
    else FieldIndex(fs[..|fs| - 1], num)
  }

  /** The low bits that an integer field of the given width keeps. */
  function Truncate(v: nat, w: Width): (u: nat)
    ensures u < Modulus(w)
  {
    match w
    case W8 => v % 0x100
    case W16 => v % 0x1_0000
    case W32 => v % 0x1_0000_0000
    case W64 => v % TWO64
  }

  function WrapSigned(v: nat, w: Width): (i: int)
    ensures -(Modulus(w) / 2) <= i < Modulus(w) / 2
  {
    var m := Truncate(v, w);
    if m >= Modulus(w) / 2 then m - Modulus(w) else m
  }

  function DecodeFields(t: Types, fs: seq<Field>, vs: seq<Value>, data: Bytes): (r: Result<seq<Value>>)
    requires Known(t, fs) && HasFields(t, fs, vs)
    ensures r.Ok? ==> HasFields(t, fs, r.value)
    decreases |data|, 2
  {
    if data == [] then Ok(vs)
    else
      match ConsumeTag(data)
      case Err => Err
      case Ok(p) =>
        var rest := data[p.length..];
        var i := FieldIndex(fs, p.value.num);
        if i < 0 then
          match ConsumeFieldValue(p.value.num, p.value.typ, rest)
          case Err => Err
          case Ok(n) => DecodeFields(t, fs, vs, rest[n..])
        else
          match DecodeField(t, fs[i], vs[i], p.value.typ, rest)
          case Err => Err
          case Ok(q) => DecodeFields(t, fs, vs[i := q.value], rest[q.length..])
  }

  function DecodeField(t: Types, f: Field, v: Value, typ: nat, data: Bytes): (r: Result<Parsed<Value>>)
    requires NamedIn(t, f.kind) && HasField(t, f, v)
    ensures r.Ok? ==> HasField(t, f, r.value.value) && r.value.length <= |data|
    decreases |data|, 1
  {
    if f.repeated then
      match DecodeOne(t, f.kind, Zero(t, f.kind), typ, data)
      case Err => Err
      case Ok(p) => Ok(Parsed(VList(v.elems + [p.value]), p.length))
    else DecodeOne(t, f.kind, v, typ, data)
  }

  function DecodeOne(t: Types, k: Kind, v: Value, typ: nat, data: Bytes): (r: Result<Parsed<Value>>)
    requires NamedIn(t, k) && HasKind(t, k, v)
    ensures r.Ok? ==> HasKind(t, k, r.value.value) && r.value.length <= |data|
    decreases |data|, 0
  {
    if typ == VARINT then
      match ConsumeVarint(data)
      case Err => Err
      case Ok(p) =>
        match k
        case Bool => Ok(Parsed(VBool(p.value != 0), p.length))
        case Int(w) => Ok(Parsed(VInt(WrapSigned(p.value, w)), p.length))
        case Uint(w) => Ok(Parsed(VUint(Truncate(p.value, w)), p.length))
        case _ => Err
    else if typ == FIXED64 then
      match ConsumeFixed(data, 8)
      case Err => Err
      case Ok(p) => Radix64(); if k.Float64? then Ok(Parsed(VFloat(p.value), 8)) else Err
    else if typ == BYTES then
      match ConsumeBytes(data)
      case Err => Err
      case Ok(p) =>
        match k
        case Text => Ok(Parsed(VBytes(p.value), p.length))
        case Blob => Ok(Parsed(VBytes(p.value), p.length))
        case Struct(name) => DecodeInto(t, name, v.fields, p)
        case Pointer(name) => DecodeInto(t, name, if v.VNil? then ZeroFields(t, name) else v.fields, p)
        case _ => Err
    else Err
  }

  function DecodeInto(t: Types, name: string, vs: seq<Value>, p: Parsed<Bytes>): (r: Result<Parsed<Value>>)
    requires name in t && HasFields(t, t[name].fields, vs)
    ensures r.Ok? ==> r.value.value.VMsg? && HasFields(t, t[name].fields, r.value.value.fields)
    ensures r.Ok? ==> r.value.length == p.length
    decreases |p.value|, 3
  {
    match DecodeFields(t, t[name].fields, vs, p.value)
    case Err => Err
    case Ok(ws) => Ok(Parsed(VMsg(ws), p.length))
  }
}
