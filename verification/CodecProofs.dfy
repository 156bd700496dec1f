/**
 Decoding depends only on the records a message is made of, field by field; encoding
 and decoding undo each other up to `Canonical`.
 */
module CodecProofs {
  import opened Wire
  import opened Schema
  import opened ProtoCodec

  // ---- Records ----

  /** A byte string that is exactly one tag followed by one value of the tag's wire type. */
  predicate IsRecord(c: Bytes) {
    var tag := ConsumeTag(c);
    && tag.Ok?
    && ConsumeFieldValue(tag.value.value.num, tag.value.value.typ, c[tag.value.length..]) == Ok(|c| - tag.value.length)
  }

  predicate AreRecords(cs: seq<Bytes>) {
    forall c | c in cs :: IsRecord(c)
  }

  function TagOf(c: Bytes): Tag
    requires IsRecord(c)
  {
    ConsumeTag(c).value.value
  }

  function Body(c: Bytes): Bytes
    requires IsRecord(c)
  {
    c[ConsumeTag(c).value.length..]
  }

  /** The value decoder looks no further than the field value that skipping would skip. */
  lemma DecodeOneIgnoresRest(t: Types, k: Kind, v: Value, num: nat, typ: nat, a: Bytes, b: Bytes)
    requires NamedIn(t, k) && HasKind(t, k, v)
    requires ConsumeFieldValue(num, typ, a).Ok?
    ensures DecodeOne(t, k, v, typ, a + b) == DecodeOne(t, k, v, typ, a)
    ensures DecodeOne(t, k, v, typ, a).Ok? ==>
              DecodeOne(t, k, v, typ, a).value.length == ConsumeFieldValue(num, typ, a).value
  {
    hide ConsumeVarint, ConsumeFixed, ConsumeBytes, DecodeInto, HasKind, DecodeOne;
    if typ == VARINT {
      VarintExtends(a, b);
      DecodeVarint(t, k, v, a, b);
    } else if typ == FIXED64 {
      FixedExtends(a, b, 8);
      DecodeFixed(t, k, v, a, b);
    } else if typ == BYTES {
      BytesExtend(a, b);
      DecodeBytes(t, k, v, a, b);
    } else {
      DecodeOther(t, k, v, typ, a, b);
    }
  }

  lemma DecodeVarint(t: Types, k: Kind, v: Value, a: Bytes, b: Bytes)
    requires NamedIn(t, k) && HasKind(t, k, v) && ConsumeVarint(a).Ok?
    requires ConsumeVarint(a + b) == ConsumeVarint(a)
    ensures DecodeOne(t, k, v, VARINT, a + b) == DecodeOne(t, k, v, VARINT, a)
    ensures DecodeOne(t, k, v, VARINT, a).Ok? ==> DecodeOne(t, k, v, VARINT, a).value.length == ConsumeVarint(a).value.length
  {
    hide ConsumeVarint;
  }

  lemma DecodeFixed(t: Types, k: Kind, v: Value, a: Bytes, b: Bytes)
    requires NamedIn(t, k) && HasKind(t, k, v) && ConsumeFixed(a, 8).Ok?
    requires ConsumeFixed(a + b, 8) == ConsumeFixed(a, 8)
    ensures DecodeOne(t, k, v, FIXED64, a + b) == DecodeOne(t, k, v, FIXED64, a)
    ensures DecodeOne(t, k, v, FIXED64, a).Ok? ==> DecodeOne(t, k, v, FIXED64, a).value.length == ConsumeFixed(a, 8).value.length
  {
    hide ConsumeFixed;
  }

  lemma DecodeBytes(t: Types, k: Kind, v: Value, a: Bytes, b: Bytes)
    requires NamedIn(t, k) && HasKind(t, k, v) && ConsumeBytes(a).Ok?
    requires ConsumeBytes(a + b) == ConsumeBytes(a)
    ensures DecodeOne(t, k, v, BYTES, a + b) == DecodeOne(t, k, v, BYTES, a)
    ensures DecodeOne(t, k, v, BYTES, a).Ok? ==> DecodeOne(t, k, v, BYTES, a).value.length == ConsumeBytes(a).value.length
  {
    hide ConsumeBytes, DecodeInto;
  }

  lemma DecodeOther(t: Types, k: Kind, v: Value, typ: nat, a: Bytes, b: Bytes)
    requires NamedIn(t, k) && HasKind(t, k, v) && typ !in {VARINT, FIXED64, BYTES}
    ensures DecodeOne(t, k, v, typ, a + b) == DecodeOne(t, k, v, typ, a) == Err
  {
  }

  /** What one record does to the field values. */
  function ApplyRecord(t: Types, fs: seq<Field>, vs: seq<Value>, c: Bytes): (r: Result<seq<Value>>)
    requires Known(t, fs) && HasFields(t, fs, vs) && IsRecord(c)
    ensures r.Ok? ==> HasFields(t, fs, r.value)
  {
    var i := FieldIndex(fs, TagOf(c).num);
    if i < 0 then Ok(vs)
    else
      match DecodeField(t, fs[i], vs[i], TagOf(c).typ, Body(c))
      case Err => Err
      case Ok(p) => Ok(vs[i := p.value])
  }

  function ApplyRecords(t: Types, fs: seq<Field>, vs: seq<Value>, cs: seq<Bytes>): (r: Result<seq<Value>>)
    requires Known(t, fs) && HasFields(t, fs, vs) && AreRecords(cs)
    ensures r.Ok? ==> HasFields(t, fs, r.value)
    decreases |cs|
  {
    if cs == [] then Ok(vs)
    else
      match ApplyRecord(t, fs, vs, cs[0])
      case Err => Err
      case Ok(ws) => ApplyRecords(t, fs, ws, cs[1..])
  }

  lemma DecodeRecord(t: Types, fs: seq<Field>, vs: seq<Value>, c: Bytes, rest: Bytes)
    requires Known(t, fs) && HasFields(t, fs, vs) && IsRecord(c)
    ensures DecodeFields(t, fs, vs, c + rest) ==
            match ApplyRecord(t, fs, vs, c)
            case Err => Err
            case Ok(ws) => DecodeFields(t, fs, ws, rest)
  {
    TagExtends(c, rest);
    var n := ConsumeTag(c).value.length;
    var tag, body := TagOf(c), Body(c);
    assert (c + rest)[n..] == body + rest;
    assert (body + rest)[|body|..] == rest;
    var i := FieldIndex(fs, tag.num);
    if i < 0 {
      FieldValueExtends(tag.num, tag.typ, body, rest, MAX_GROUP_DEPTH);
    } else {
      var v := if fs[i].repeated then Zero(t, fs[i].kind) else vs[i];
      DecodeOneIgnoresRest(t, fs[i].kind, v, tag.num, tag.typ, body, rest);
    }
  }

  lemma {:induction false} DecodeIsApplyRecords(t: Types, fs: seq<Field>, vs: seq<Value>, cs: seq<Bytes>)
    requires Known(t, fs) && HasFields(t, fs, vs) && AreRecords(cs)
    ensures DecodeFields(t, fs, vs, Concat(cs)) == ApplyRecords(t, fs, vs, cs)
    decreases |cs|
  {
    if cs != [] {
      DecodeRecord(t, fs, vs, cs[0], Concat(cs[1..]));
      var next := ApplyRecord(t, fs, vs, cs[0]);
      if next.Ok? {
        DecodeIsApplyRecords(t, fs, next.value, cs[1..]);
      }
    }
  }

  // ---- Field by field ----

  /** The records that belong to field `i`, in order. */
  function Select(fs: seq<Field>, i: nat, cs: seq<Bytes>): (ds: seq<Bytes>)
    requires AreRecords(cs)
    ensures AreRecords(ds)
  {
    if cs == [] then []
    else (if FieldIndex(fs, TagOf(cs[0]).num) == i then [cs[0]] else []) + Select(fs, i, cs[1..])
  }

  /** Decodes every record of `cs` into one field. */
  function Fold(t: Types, f: Field, v: Value, cs: seq<Bytes>): (r: Result<Value>)
    requires NamedIn(t, f.kind) && HasField(t, f, v) && AreRecords(cs)
    ensures r.Ok? ==> HasField(t, f, r.value)
    decreases |cs|
  {
    if cs == [] then Ok(v)
    else
      match DecodeField(t, f, v, TagOf(cs[0]).typ, Body(cs[0]))
      case Err => Err
      case Ok(p) => Fold(t, f, p.value, cs[1..])
  }

  ghost predicate FoldsTo(t: Types, fs: seq<Field>, vs: seq<Value>, cs: seq<Bytes>, r: Result<seq<Value>>)
    requires Known(t, fs) && HasFields(t, fs, vs) && AreRecords(cs)
  {
    && (r.Ok? ==> |r.value| == |fs|)
    && (r.Ok? ==> forall i | 0 <= i < |fs| :: Fold(t, fs[i], vs[i], Select(fs, i, cs)) == Ok(r.value[i]))
    && (r.Err? ==> exists i | 0 <= i < |fs| :: Fold(t, fs[i], vs[i], Select(fs, i, cs)) == Err)
  }

  lemma FoldsToIsUnique(t: Types, fs: seq<Field>, vs: seq<Value>, cs: seq<Bytes>,
                        r: Result<seq<Value>>, r': Result<seq<Value>>)
    requires Known(t, fs) && HasFields(t, fs, vs) && AreRecords(cs)
    requires FoldsTo(t, fs, vs, cs, r) && FoldsTo(t, fs, vs, cs, r')
    ensures r == r'
  {
    if r.Ok? && r'.Ok? {
      forall i | 0 <= i < |fs| ensures r.value[i] == r'.value[i] {
        assert Fold(t, fs[i], vs[i], Select(fs, i, cs)) == Ok(r.value[i]);
      }
      assert r.value == r'.value;
    }
  }

  /** Decoding treats every field separately. */
  lemma {:induction false} DecodesFieldByField(t: Types, fs: seq<Field>, vs: seq<Value>, cs: seq<Bytes>)
    requires Known(t, fs) && HasFields(t, fs, vs) && AreRecords(cs)
    ensures FoldsTo(t, fs, vs, cs, ApplyRecords(t, fs, vs, cs))
    decreases |cs|
  {
    if cs != [] {
      var c, rest := cs[0], cs[1..];
      var k := FieldIndex(fs, TagOf(c).num);
      var next := ApplyRecord(t, fs, vs, c);
      forall i | 0 <= i < |fs|
        ensures Fold(t, fs[i], vs[i], Select(fs, i, cs)) ==
                if i != k then Fold(t, fs[i], vs[i], Select(fs, i, rest))
                else if next.Err? then Err
                else Fold(t, fs[i], next.value[i], Select(fs, i, rest))
      {
        if i == k {
          assert Select(fs, i, cs)[0] == c && Select(fs, i, cs)[1..] == Select(fs, i, rest);
        } else {
          assert Select(fs, i, cs) == Select(fs, i, rest);
        }
      }
      if next.Ok? {
        DecodesFieldByField(t, fs, next.value, rest);
      }
    }
  }

  /**
   Two streams that hold the same records for every field of the message decode alike:
   records of different fields may be reordered, and records of numbers outside the
   message may be added or removed anywhere.
   */
  lemma SameRecordsPerField(t: Types, fs: seq<Field>, vs: seq<Value>, cs: seq<Bytes>, ds: seq<Bytes>)
    requires Known(t, fs) && HasFields(t, fs, vs) && AreRecords(cs) && AreRecords(ds)
    requires forall i | 0 <= i < |fs| :: Select(fs, i, cs) == Select(fs, i, ds)
    ensures DecodeFields(t, fs, vs, Concat(cs)) == DecodeFields(t, fs, vs, Concat(ds))
  {
    DecodeIsApplyRecords(t, fs, vs, cs);
    DecodeIsApplyRecords(t, fs, vs, ds);
    DecodesFieldByField(t, fs, vs, cs);
    DecodesFieldByField(t, fs, vs, ds);
    FoldsToIsUnique(t, fs, vs, cs, ApplyRecords(t, fs, vs, cs), ApplyRecords(t, fs, vs, ds));
  }
}
