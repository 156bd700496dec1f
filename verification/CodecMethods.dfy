/** The codec's loops, each proved to compute the encoding or decoding function of its input. */
module CodecMethods {
  import opened Wire
  import opened Schema
  import opened ProtoCodec
  import opened CodecRoundTrip

  // ---- When marshalling fails ----

  /** Every field that is written carries a wire word that fits its kind. */
  ghost predicate Encodable(t: Types, fs: seq<Field>, vs: seq<Value>)
    requires HasFields(t, fs, vs)
    decreases vs, 0
  {
    forall i | 0 <= i < |fs| :: EncodableField(t, fs[i], vs[i])
  }

  ghost predicate EncodableField(t: Types, f: Field, v: Value)
    requires HasField(t, f, v)
    decreases v, 2
  {
    if f.repeated then forall e | e in v.elems :: EncodableValue(t, f, e)
    else IsZeroValue(v) || EncodableValue(t, f, v)
  }

  ghost predicate EncodableValue(t: Types, f: Field, v: Value)
    requires HasKind(t, f.kind, v)
    decreases v, 1
  {
    WordFits(f) && (v.VMsg? ==> Encodable(t, t[f.kind.name].fields, v.fields))
  }

  /** A word suits a kind: numbers and flags are varints, floats are fixed64, the rest is bytes. */
  predicate Suits(word: WireWord, kind: Kind) {
    || (word == WordVarint && (kind.Bool? || kind.Int? || kind.Uint?))
    || (word == WordFixed64 && kind == Float64)
    || (word == WordBytes && (kind.Text? || kind.Blob? || kind.Struct? || kind.Pointer?))
  }

  /** The values of a message that are written: every list element, and every other value that is not zero. */
  ghost predicate Writes(fs: seq<Field>, vs: seq<Value>, i: nat, v: Value) {
    && i < |fs| && i < |vs|
    && if fs[i].repeated then vs[i].VList? && v in vs[i].elems else v == vs[i] && !IsZeroValue(v)
  }

  /** The word suits the kind, and so on within a message. */
  ghost predicate Sound(t: Types, f: Field, v: Value) {
    && Suits(f.word, f.kind) && HasKind(t, f.kind, v)
    && (v.VMsg? ==> Encodable(t, t[f.kind.name].fields, v.fields))
  }

  lemma SoundIff(t: Types, f: Field, v: Value)
    requires HasKind(t, f.kind, v)
    ensures EncodableValue(t, f, v) <==> Sound(t, f, v)
  {
  }

  /** Marshalling fails exactly for a written value, at any depth, whose word does not suit its kind. */
  lemma EncodableIff(t: Types, fs: seq<Field>, vs: seq<Value>)
    requires HasFields(t, fs, vs)
    ensures Encodable(t, fs, vs) <==> forall i: nat, v | Writes(fs, vs, i, v) :: Sound(t, fs[i], v)
  {
    hide Sound, HasKind, EncodableValue, IsZeroValue;
    forall i: nat, v | Writes(fs, vs, i, v)
      ensures HasKind(t, fs[i].kind, v) && (EncodableValue(t, fs[i], v) <==> Sound(t, fs[i], v))
      ensures Encodable(t, fs, vs) ==> EncodableValue(t, fs[i], v)
    {
      assert HasField(t, fs[i], vs[i]);
      SoundIff(t, fs[i], v);
      assert Encodable(t, fs, vs) ==> EncodableField(t, fs[i], vs[i]);
    }
    if !Encodable(t, fs, vs) {
      var i :| 0 <= i < |fs| && !EncodableField(t, fs[i], vs[i]);
      assert HasField(t, fs[i], vs[i]);
      var v := Unencodable(t, fs[i], vs[i]);
      assert Writes(fs, vs, i, v);
    }
  }

  lemma Unencodable(t: Types, f: Field, w: Value) returns (v: Value)
    requires HasField(t, f, w) && !EncodableField(t, f, w)
    ensures Writes([f], [w], 0, v) && HasKind(t, f.kind, v) && !EncodableValue(t, f, v)
  {
    hide HasKind, EncodableValue, IsZeroValue;
    if f.repeated {
      v :| v in w.elems && !EncodableValue(t, f, v);
    } else {
      v := w;
    }
  }

  // ---- Marshal ----

  lemma RepeatedField(t: Types, f: Field, v: Value)
    requires HasField(t, f, v) && f.repeated
    ensures v.VList? && (forall e | e in v.elems :: HasKind(t, f.kind, e)) && FieldRecords(t, f, v) == ElementRecords(t, f, v.elems)
    ensures EncodableField(t, f, v) == forall e | e in v.elems :: EncodableValue(t, f, e)
  {
  }

  lemma OneMoreField(t: Types, fs: seq<Field>, vs: seq<Value>, i: nat)
    requires HasFields(t, fs, vs) && i < |fs|
    ensures Concat(Records(t, fs, vs, i + 1)) == Concat(Records(t, fs, vs, i)) + Concat(FieldRecords(t, fs[i], vs[i]))
  {
    hide FieldRecords;
    ConcatAppend(Records(t, fs, vs, i), FieldRecords(t, fs[i], vs[i]));
  }

  lemma NoFields(t: Types, fs: seq<Field>, vs: seq<Value>)
    requires HasFields(t, fs, vs)
    ensures Concat(Records(t, fs, vs, 0)) == []
  {
  }

  method MarshalStruct(buf: Bytes, t: Types, fs: seq<Field>, vs: seq<Value>) returns (r: Result<Bytes>)
    requires HasFields(t, fs, vs)
    ensures r == if Encodable(t, fs, vs) then Ok(buf + Encode(t, fs, vs)) else Err
    decreases vs, 0
  {
    hide EncodableField, EncodableValue, FieldRecords, ElementRecords, HasKind, Concat, Records;
    NoFields(t, fs, vs);
    var out := buf;
    for i := 0 to |fs|
      invariant out == buf + Concat(Records(t, fs, vs, i))
      invariant forall j | 0 <= j < i :: EncodableField(t, fs[j], vs[j])
    {
      var next;
      if fs[i].repeated {
        RepeatedField(t, fs[i], vs[i]);
        next := MarshalRepeated(out, t, fs[i], vs[i].elems);
      } else {
        next := MarshalField(out, t, fs[i], vs[i]);
      }
      if next.Err? {
        return Err;
      }
      OneMoreField(t, fs, vs, i);
      out := next.value;
    }
    r := Ok(out);
  }

  method MarshalField(buf: Bytes, t: Types, f: Field, v: Value) returns (r: Result<Bytes>)
    requires HasField(t, f, v) && !f.repeated
    ensures r == if EncodableField(t, f, v) then Ok(buf + Concat(FieldRecords(t, f, v))) else Err
    decreases v, 2
  {
    if IsZeroValue(v) {
      assert buf + [] == buf;
      r := Ok(buf);
    } else {
      r := MarshalSingleValue(buf, t, f, v);
    }
  }

  lemma ValueBytes(t: Types, f: Field, v: Value)
    requires HasKind(t, f.kind, v)
    ensures Concat(ValueRecords(t, f, v)) == if v.VNil? then [] else AppendTag(f.num, TypeCode(f.kind)) + Payload(t, f.kind, v)
  {
    hide AppendTag, Payload;
    if !v.VNil? {
      assert ValueRecords(t, f, v)[1..] == [];
    }
  }

  lemma MessageBytes(t: Types, k: Kind, v: Value)
    requires HasKind(t, k, v) && v.VMsg?
    ensures Payload(t, k, v) == AppendBytes(Encode(t, t[k.name].fields, v.fields))
  {
    hide AppendBytes, Records, Concat;
  }

  method MarshalSingleValue(buf: Bytes, t: Types, f: Field, v: Value) returns (r: Result<Bytes>)
    requires HasKind(t, f.kind, v)
    ensures r == if EncodableValue(t, f, v) then Ok(buf + Concat(ValueRecords(t, f, v))) else Err
    decreases v, 1
  {
    hide AppendTag, AppendBytes, Encodable, Payload, Concat, ValueRecords, Encode;
    ValueBytes(t, f, v);
    if !WordFits(f) {
      return Err;
    }
    if v.VNil? {
      assert buf + [] == buf;
      return Ok(buf);
    }
    var tagged := buf + AppendTag(f.num, TypeCode(f.kind));
    if f.kind.Bool? || f.kind.Int? || f.kind.Uint? {
      var n := if v.VBool? then (if v.flag then 1 else 0) else if v.VInt? then Unsigned(v.i) else v.u;
      NumberBytes(t, f.kind, v);
      r := Ok(tagged + AppendVarint(n));
    } else if f.kind.Float64? {
      FloatBytes(t, f.kind, v);
      r := Ok(tagged + AppendFixed(v.bits, 8));
    } else {
      var data;
      if v.VMsg? {
        var inner := MarshalStruct([], t, t[f.kind.name].fields, v.fields);
        if inner.Err? {
          return Err;
        }
        MessageBytes(t, f.kind, v);
        assert inner.value == Encode(t, t[f.kind.name].fields, v.fields);
        data := inner.value;
      } else {
        TextBytes(t, f.kind, v);
        data := v.data;
      }
      r := Ok(tagged + AppendBytes(data));
    }
    assert r.value == buf + (AppendTag(f.num, TypeCode(f.kind)) + Payload(t, f.kind, v));
  }

  lemma NumberBytes(t: Types, k: Kind, v: Value)
    requires HasKind(t, k, v) && (k.Bool? || k.Int? || k.Uint?)
    ensures v.VBool? || v.VInt? || v.VUint?
    ensures Payload(t, k, v) == AppendVarint(if v.VBool? then (if v.flag then 1 else 0) else if v.VInt? then Unsigned(v.i) else v.u)
  {
    hide AppendVarint;
  }

  lemma FloatBytes(t: Types, k: Kind, v: Value)
    requires HasKind(t, k, v) && k.Float64?
    ensures v.VFloat? && Payload(t, k, v) == AppendFixed(v.bits, 8)
  {
    hide AppendFixed;
  }

  lemma TextBytes(t: Types, k: Kind, v: Value)
    requires HasKind(t, k, v) && v.VBytes?
    ensures Payload(t, k, v) == AppendBytes(v.data)
  {
    hide AppendBytes;
  }

  lemma ElementRecordsStep(t: Types, f: Field, es: seq<Value>, i: nat)
    requires i < |es| && forall e | e in es :: HasKind(t, f.kind, e)
    ensures Concat(ElementRecords(t, f, es[..i + 1])) ==
            Concat(ElementRecords(t, f, es[..i])) + Concat(ValueRecords(t, f, es[i]))
  {
    assert es[..i + 1][..i] == es[..i];
    ConcatAppend(ElementRecords(t, f, es[..i]), ValueRecords(t, f, es[i]));
  }

  lemma NoElements(t: Types, f: Field)
    ensures Concat(ElementRecords(t, f, [])) == []
  {
  }

  method MarshalRepeated(buf: Bytes, t: Types, f: Field, es: seq<Value>) returns (r: Result<Bytes>)
    requires forall e | e in es :: HasKind(t, f.kind, e)
    ensures r == if forall e | e in es :: EncodableValue(t, f, e)
                 then Ok(buf + Concat(ElementRecords(t, f, es))) else Err
    decreases es, 3
  {
    hide EncodableValue, ValueRecords, HasKind;
    NoElements(t, f);
    var out := buf;
    for i := 0 to |es|
      invariant out == buf + Concat(ElementRecords(t, f, es[..i]))
      invariant forall j | 0 <= j < i :: EncodableValue(t, f, es[j])
    {
      var next := MarshalSingleValue(out, t, f, es[i]);
      if next.Err? {
        return Err;
      }
      ElementRecordsStep(t, f, es, i);
      out := next.value;
    }
    assert es[..|es|] == es;
    r := Ok(out);
  }

  // ---- Unmarshal ----

  method UnmarshalStruct(t: Types, fs: seq<Field>, vs: seq<Value>, data: Bytes) returns (r: Result<seq<Value>>)
    requires Known(t, fs) && HasFields(t, fs, vs)
    ensures r == DecodeFields(t, fs, vs, data)
    decreases |data|, 2
  {
    var cur, left := vs, data;
    while left != []
      invariant |left| <= |data| && HasFields(t, fs, cur)
      invariant DecodeFields(t, fs, vs, data) == DecodeFields(t, fs, cur, left)
      decreases |left|
    {
      var tag := ConsumeTag(left);
      if tag.Err? {
        return Err;
      }
      var rest := left[tag.value.length..];
      var i := FieldIndex(fs, tag.value.value.num);
      if i < 0 {
        var n := ConsumeFieldValue(tag.value.value.num, tag.value.value.typ, rest);
        if n.Err? {
          return Err;
        }
        left := rest[n.value..];
      } else {
        var p;
        if fs[i].repeated {
          p := UnmarshalRepeated(t, fs[i], cur[i], tag.value.value.typ, rest);
        } else {
          p := UnmarshalSingle(t, fs[i].kind, cur[i], tag.value.value.typ, rest);
        }
        if p.Err? {
          return Err;
        }
        cur := cur[i := p.value.value];
        left := rest[p.value.length..];
      }
    }
    r := Ok(cur);
  }

  method UnmarshalRepeated(t: Types, f: Field, v: Value, typ: nat, data: Bytes) returns (r: Result<Parsed<Value>>)
    requires NamedIn(t, f.kind) && HasField(t, f, v) && f.repeated
    ensures r == DecodeField(t, f, v, typ, data)
    decreases |data|, 1
  {
    var elem := UnmarshalSingle(t, f.kind, Zero(t, f.kind), typ, data);
    if elem.Err? {
      return Err;
    }
    r := Ok(Parsed(VList(v.elems + [elem.value.value]), elem.value.length));
  }

  method UnmarshalSingle(t: Types, k: Kind, v: Value, typ: nat, data: Bytes) returns (r: Result<Parsed<Value>>)
    requires NamedIn(t, k) && HasKind(t, k, v)
    ensures r == DecodeOne(t, k, v, typ, data)
    decreases |data|, 0
  {
    hide ConsumeVarint, ConsumeFixed, ConsumeBytes;
    if typ == VARINT {
      r := UnmarshalVarint(k, data);
    } else if typ == FIXED64 {
      var p := ConsumeFixed(data, 8);
      if p.Err? || !k.Float64? {
        return Err;
      }
      r := Ok(Parsed(VFloat(p.value.value), p.value.length));
    } else if typ == BYTES {
      var p := ConsumeBytes(data);
      if p.Err? {
        return Err;
      }
      if k.Text? || k.Blob? {
        return Ok(Parsed(VBytes(p.value.value), p.value.length));
      }
      if !k.Struct? && !k.Pointer? {
        return Err;
      }
      var start := if v.VNil? then ZeroFields(t, k.name) else v.fields;
      var inner := UnmarshalStruct(t, t[k.name].fields, start, p.value.value);
      if inner.Err? {
        return Err;
      }
      r := Ok(Parsed(VMsg(inner.value), p.value.length));
    } else {
      r := Err;
    }
  }

  /** The setters keep the low bits of the field's width, signed or unsigned. */
  method UnmarshalVarint(k: Kind, data: Bytes) returns (r: Result<Parsed<Value>>)
    ensures r.Ok? <==> ConsumeVarint(data).Ok? && (k.Bool? || k.Int? || k.Uint?)
    ensures r.Ok? ==>
              && r.value.length == ConsumeVarint(data).value.length
              && var n := ConsumeVarint(data).value.value;
                 r.value.value == match k
                                  case Bool => VBool(n != 0)
                                  case Int(w) => VInt(WrapSigned(n, w))
                                  case Uint(w) => VUint(Truncate(n, w))
                                  case _ => VNil
  {
    var p := ConsumeVarint(data);
    if p.Err? {
      return Err;
    }
    var n := p.value.value;
    match k
    case Bool => r := Ok(Parsed(VBool(n != 0), p.value.length));
    case Int(w) => r := Ok(Parsed(VInt(WrapSigned(n, w)), p.value.length));
    case Uint(w) => r := Ok(Parsed(VUint(Truncate(n, w)), p.value.length));
    case _ => r := Err;
  }

  /** What a peer makes of a message: an error if it cannot be written, its canonical form otherwise. */
  method SendAndReceive(t: Types, name: string, vs: seq<Value>) returns (r: Result<seq<Value>>)
    requires Proper(t) && name in t && HasFields(t, t[name].fields, vs)
    requires |Encode(t, t[name].fields, vs)| < TWO64
    ensures r.Ok? <==> Encodable(t, t[name].fields, vs)
    ensures r.Ok? ==> r.value == CanonicalFields(t, t[name].fields, vs)
    ensures r.Ok? ==> (r.value == vs <==> LosslessFields(t, t[name].fields, vs))
  {
    var data := MarshalStruct([], t, t[name].fields, vs);
    if data.Err? {
      return Err;
    }
    assert data.value == Encode(t, t[name].fields, vs);
    RoundTrip(t, name, vs);
    RoundTripIsIdentityIff(t, name, vs);
    r := UnmarshalStruct(t, t[name].fields, ZeroFields(t, name), data.value);
  }
}
