/** Decoding an encoded message gives the message back, up to what the encoder drops. */
module CodecRoundTrip {
  import opened Wire
  import opened Schema
  import opened ProtoCodec
  import opened CodecProofs

  /** Distinct field numbers that fit a tag, in every message type of the table. */
  ghost predicate Proper(t: Types) {
    forall name | name in t :: ProperFields(t[name].fields)
  }

  ghost predicate ProperFields(fs: seq<Field>) {
    && (forall i | 0 <= i < |fs| :: 1 <= fs[i].num <= MAX_INT32)
    && (forall i, j | 0 <= i < j < |fs| :: fs[i].num != fs[j].num)
  }

  // ---- What the encoder keeps ----

  /** A field value as it survives the wire: nil elements of a list and the sign of a zero are lost. */
  function Canonical(t: Types, f: Field, v: Value): (w: Value)
    requires HasField(t, f, v)
    decreases v, 2
  {
    if f.repeated then VList(CanonicalElements(t, f.kind, v.elems))
    else if v == VFloat(NEGATIVE_ZERO) then VFloat(0)
    else CanonicalValue(t, f.kind, v)
  }

  function CanonicalValue(t: Types, k: Kind, v: Value): (w: Value)
    requires HasKind(t, k, v)
    decreases v, 1
  {
    if v.VMsg? then VMsg(CanonicalFields(t, t[k.name].fields, v.fields)) else v
  }

  function CanonicalElements(t: Types, k: Kind, es: seq<Value>): (ws: seq<Value>)
    requires forall e | e in es :: HasKind(t, k, e)
    decreases es
  {
    if es == [] then []
    else
      var last := es[|es| - 1];
      CanonicalElements(t, k, es[..|es| - 1]) + (if last.VNil? then [] else [CanonicalValue(t, k, last)])
  }

  function CanonicalFields(t: Types, fs: seq<Field>, vs: seq<Value>): (ws: seq<Value>)
    requires HasFields(t, fs, vs)
    ensures |ws| == |fs|
    decreases vs
  {
    seq(|fs|, i requires 0 <= i < |fs| => Canonical(t, fs[i], vs[i]))
  }

  // ---- Records of one value ----

  lemma ValueRecordIsRecord(t: Types, f: Field, v: Value)
    requires HasKind(t, f.kind, v) && !v.VNil?
    requires 1 <= f.num <= MAX_INT32 && |Payload(t, f.kind, v)| < TWO64
    ensures var c := AppendTag(f.num, TypeCode(f.kind)) + Payload(t, f.kind, v);
            && IsRecord(c)
            && TagOf(c) == Tag(f.num, TypeCode(f.kind))
            && Body(c) == Payload(t, f.kind, v)
  {
    var body := Payload(t, f.kind, v);
    TagReadsBack(f.num, TypeCode(f.kind), body);
    assert body + [] == body;
    match f.kind
    case Bool => VarintReadsBack(if v.flag then 1 else 0, []);
    case Int(_) => VarintReadsBack(Unsigned(v.i), []);
    case Uint(_) => VarintReadsBack(v.u, []);
    case Float64 => Radix64(); FixedReadsBack(v.bits, 8, []);
    case Text => BytesReadBack(v.data, []);
    case Blob => BytesReadBack(v.data, []);
    case Struct(name) => BytesReadBack(Encode(t, t[name].fields, v.fields), []);
    case Pointer(name) => BytesReadBack(Encode(t, t[name].fields, v.fields), []);
  }

  lemma {:induction false} RecordFitsConcat(c: Bytes, cs: seq<Bytes>)
    requires c in cs
    ensures |c| <= |Concat(cs)|
  {
    if c != cs[0] {
      RecordFitsConcat(c, cs[1..]);
    }
  }

  ghost predicate Sized(cs: seq<Bytes>) {
    forall c | c in cs :: |c| < TWO64
  }

  /** Every record written for a field is one record of that field's number. */
  lemma {:induction false} ElementRecordsAreRecords(t: Types, f: Field, es: seq<Value>)
    requires forall e | e in es :: HasKind(t, f.kind, e)
    requires 1 <= f.num <= MAX_INT32 && Sized(ElementRecords(t, f, es))
    ensures AreRecords(ElementRecords(t, f, es))
    ensures forall c | c in ElementRecords(t, f, es) :: TagOf(c) == Tag(f.num, TypeCode(f.kind))
    decreases |es|
  {
    if es != [] {
      var last := es[|es| - 1];
      ElementRecordsAreRecords(t, f, es[..|es| - 1]);
      if !last.VNil? {
        assert ValueRecords(t, f, last)[0] in ElementRecords(t, f, es);
        ValueRecordIsRecord(t, f, last);
      }
    }
  }

  ghost predicate OwnRecords(cs: seq<Bytes>, num: nat) {
    AreRecords(cs) && forall c | c in cs :: TagOf(c).num == num
  }

  lemma FieldRecordsAreRecords(t: Types, f: Field, v: Value)
    requires HasField(t, f, v)
    requires 1 <= f.num <= MAX_INT32 && Sized(FieldRecords(t, f, v))
    ensures OwnRecords(FieldRecords(t, f, v), f.num)
  {
    if f.repeated {
      ElementRecordsAreRecords(t, f, v.elems);
    } else if !IsZeroValue(v) {
      assert ValueRecords(t, f, v)[0] in FieldRecords(t, f, v);
      ValueRecordIsRecord(t, f, v);
    }
  }

  // ---- Selecting a field's records from the whole ----

  lemma {:induction false} SelectAppend(fs: seq<Field>, i: nat, cs: seq<Bytes>, ds: seq<Bytes>)
    requires AreRecords(cs) && AreRecords(ds)
    ensures AreRecords(cs + ds)
    ensures Select(fs, i, cs + ds) == Select(fs, i, cs) + Select(fs, i, ds)
    decreases |cs|
  {
    if cs == [] {
      assert cs + ds == ds;
    } else {
      assert (cs + ds)[1..] == cs[1..] + ds;
      SelectAppend(fs, i, cs[1..], ds);
    }
  }

  lemma {:induction false} SelectUniform(fs: seq<Field>, i: nat, cs: seq<Bytes>, num: nat)
    requires AreRecords(cs) && forall c | c in cs :: TagOf(c).num == num
    ensures Select(fs, i, cs) == if FieldIndex(fs, num) == i then cs else []
    decreases |cs|
  {
    if cs != [] {
      SelectUniform(fs, i, cs[1..], num);
    }
  }

  function FirstSections(sections: seq<seq<Bytes>>, n: nat): seq<Bytes>
    requires n <= |sections|
  {
    if n == 0 then [] else FirstSections(sections, n - 1) + sections[n - 1]
  }

  /** When section `k` holds records of field `k` only, selecting field `i` recovers section `i`. */
  lemma {:induction false} SelectFromSections(fs: seq<Field>, sections: seq<seq<Bytes>>, n: nat, i: nat)
    requires |sections| == |fs| && n <= |fs| && i < |fs|
    requires forall j, k | 0 <= j < k < |fs| :: fs[j].num != fs[k].num
    requires forall j | 0 <= j < |fs| :: OwnRecords(sections[j], fs[j].num)
    ensures AreRecords(FirstSections(sections, n))
    ensures Select(fs, i, FirstSections(sections, n)) == if i < n then sections[i] else []
    decreases n
  {
    hide Select, IsRecord;
    if n > 0 {
      SelectFromSections(fs, sections, n - 1, i);
      assert OwnRecords(sections[n - 1], fs[n - 1].num);
      SelectAppend(fs, i, FirstSections(sections, n - 1), sections[n - 1]);
      assert FieldIndex(fs, fs[n - 1].num) == n - 1;
      SelectUniform(fs, i, sections[n - 1], fs[n - 1].num);
    } else {
      SelectNone(fs, i);
    }
  }

  lemma SelectNone(fs: seq<Field>, i: nat)
    ensures Select(fs, i, []) == []
  {
  }

  lemma {:induction false} RecordsAreSections(t: Types, fs: seq<Field>, vs: seq<Value>, sections: seq<seq<Bytes>>, n: nat)
    requires HasFields(t, fs, vs) && n <= |fs| == |sections|
    requires forall i | 0 <= i < |fs| :: sections[i] == FieldRecords(t, fs[i], vs[i])
    ensures Records(t, fs, vs, n) == FirstSections(sections, n)
    decreases n
  {
    if n > 0 {
      RecordsAreSections(t, fs, vs, sections, n - 1);
    }
  }

  // ---- Folding a field's records gives its canonical value ----

  lemma {:induction false} FoldAppend(t: Types, f: Field, v: Value, cs: seq<Bytes>, c: Bytes)
    requires NamedIn(t, f.kind) && HasField(t, f, v) && AreRecords(cs) && IsRecord(c)
    ensures AreRecords(cs + [c])
    ensures Fold(t, f, v, cs + [c]) ==
            match Fold(t, f, v, cs)
            case Err => Err
            case Ok(w) => Fold(t, f, w, [c])
    decreases |cs|
  {
    if cs == [] {
      assert cs + [c] == [c];
    } else {
      assert (cs + [c])[1..] == cs[1..] + [c];
      var p := DecodeField(t, f, v, TagOf(cs[0]).typ, Body(cs[0]));
      if p.Ok? {
        FoldAppend(t, f, p.value.value, cs[1..], c);
      }
    }
  }

  /** A single value survives its payload. */
  lemma {:induction false} PayloadDecodes(t: Types, k: Kind, v: Value)
    requires Proper(t) && NamedIn(t, k) && HasKind(t, k, v) && !v.VNil?
    requires |Payload(t, k, v)| < TWO64
    ensures DecodeOne(t, k, Zero(t, k), TypeCode(k), Payload(t, k, v)) ==
            Ok(Parsed(CanonicalValue(t, k, v), |Payload(t, k, v)|))
    decreases v, 1
  {
    if k.Struct? || k.Pointer? {
      NestedDecodes(t, k.name, v.fields);
      assert Zero(t, Struct(k.name)).fields == ZeroFields(t, k.name);
    } else {
      ScalarDecodes(t, k, Zero(t, k), v);
    }
  }

  /** A scalar is replaced by what its payload carries, whatever the field held before. */
  lemma ScalarDecodes(t: Types, k: Kind, v0: Value, v: Value)
    requires HasKind(t, k, v0) && HasKind(t, k, v) && !k.Struct? && !k.Pointer?
    requires |Payload(t, k, v)| < TWO64
    ensures DecodeOne(t, k, v0, TypeCode(k), Payload(t, k, v)) == Ok(Parsed(v, |Payload(t, k, v)|))
  {
    if k.Float64? {
      Radix64();
      FixedReadsBack(v.bits, 8, []);
      assert Payload(t, k, v) + [] == Payload(t, k, v);
    } else if k.Text? || k.Blob? {
      BytesReadBack(v.data, []);
      assert Payload(t, k, v) + [] == Payload(t, k, v);
    } else {
      NumberDecodes(t, k, v0, v);
    }
  }

  lemma NumberDecodes(t: Types, k: Kind, v0: Value, v: Value)
    requires HasKind(t, k, v0) && HasKind(t, k, v) && (k.Bool? || k.Int? || k.Uint?)
    ensures DecodeOne(t, k, v0, VARINT, Payload(t, k, v)) == Ok(Parsed(v, |Payload(t, k, v)|))
  {
    match k
    case Int(w) =>
      SignedSurvives(v.i, w);
      VarintAlone(Unsigned(v.i));
    case Bool =>
      VarintAlone(if v.flag then 1 else 0);
    case Uint(w) =>
      UnsignedSurvives(v.u, w);
      VarintAlone(v.u);
  }

  lemma VarintAlone(u: nat)
    requires u < TWO64
    ensures ConsumeVarint(AppendVarint(u)) == Ok(Parsed(u, |AppendVarint(u)|))
  {
    VarintReadsBack(u, []);
    assert AppendVarint(u) + [] == AppendVarint(u);
  }

  lemma SignedSurvives(i: int, w: Width)
    requires -(Modulus(w) / 2) <= i < Modulus(w) / 2
    ensures 0 <= Unsigned(i) < TWO64 && WrapSigned(Unsigned(i), w) == i
  {
    match w
    case W8 => SignedSurvives8(i);
    case W16 => SignedSurvives16(i);
    case W32 => SignedSurvives32(i);
    case W64 => SignedSurvives64(i);
  }

  lemma SignedSurvives8(i: int)
    requires -0x80 <= i < 0x80
    ensures WrapSigned(Unsigned(i), W8) == i
  {
  }

  lemma SignedSurvives16(i: int)
    requires -0x8000 <= i < 0x8000
    ensures WrapSigned(Unsigned(i), W16) == i
  {
  }

  lemma SignedSurvives32(i: int)
    requires -0x8000_0000 <= i < 0x8000_0000
    ensures WrapSigned(Unsigned(i), W32) == i
  {
  }

  lemma SignedSurvives64(i: int)
    requires -TWO63 <= i < TWO63
    ensures WrapSigned(Unsigned(i), W64) == i
  {
  }

  lemma UnsignedSurvives(u: nat, w: Width)
    requires u < Modulus(w)
    ensures u < TWO64 && Truncate(u, w) == u
  {
  }

  lemma {:induction false} NestedDecodes(t: Types, name: string, vs: seq<Value>)
    requires Proper(t) && name in t && HasFields(t, t[name].fields, vs)
    requires |AppendBytes(Encode(t, t[name].fields, vs))| < TWO64
    ensures var bs := AppendBytes(Encode(t, t[name].fields, vs));
            && ConsumeBytes(bs) == Ok(Parsed(Encode(t, t[name].fields, vs), |bs|))
            && DecodeFields(t, t[name].fields, ZeroFields(t, name), Encode(t, t[name].fields, vs)) ==
               Ok(CanonicalFields(t, t[name].fields, vs))
    decreases vs, 1
  {
    var fs := t[name].fields;
    var data := Encode(t, fs, vs);
    BytesReadBack(data, []);
    assert AppendBytes(data) + [] == AppendBytes(data);
    EncodedFieldRecords(t, fs, vs);
    StreamDecodes(t, name, vs, Records(t, fs, vs, |fs|));
  }

  lemma EncodedFieldRecords(t: Types, fs: seq<Field>, vs: seq<Value>)
    requires HasFields(t, fs, vs) && ProperFields(fs) && |Encode(t, fs, vs)| < TWO64
    ensures AreRecords(Records(t, fs, vs, |fs|)) && Sized(Records(t, fs, vs, |fs|))
    ensures forall i | 0 <= i < |fs| ::
        Select(fs, i, Records(t, fs, vs, |fs|)) == FieldRecords(t, fs[i], vs[i])
  {
    var cs := Records(t, fs, vs, |fs|);
    forall c | c in cs ensures |c| < TWO64 {
      RecordFitsConcat(c, cs);
    }
    var sections := seq(|fs|, i requires 0 <= i < |fs| => FieldRecords(t, fs[i], vs[i]));
    RecordsAreSections(t, fs, vs, sections, |fs|);
    forall i | 0 <= i < |fs| ensures OwnRecords(sections[i], fs[i].num) {
      RecordsContainField(t, fs, vs, |fs|, i);
      FieldRecordsAreRecords(t, fs[i], vs[i]);
    }
    if |fs| > 0 { SelectFromSections(fs, sections, |fs|, 0); }
    forall i | 0 <= i < |fs| ensures Select(fs, i, cs) == FieldRecords(t, fs[i], vs[i]) {
      SelectFromSections(fs, sections, |fs|, i);
    }
  }

  lemma {:induction false} FieldFolds(t: Types, name: string, i: nat, v: Value)
    requires Proper(t) && name in t && i < |t[name].fields|
    requires HasField(t, t[name].fields[i], v) && Sized(FieldRecords(t, t[name].fields[i], v))
    ensures AreRecords(FieldRecords(t, t[name].fields[i], v))
    ensures Fold(t, t[name].fields[i], ZeroField(t, name, i), FieldRecords(t, t[name].fields[i], v)) ==
            Ok(Canonical(t, t[name].fields[i], v))
    decreases v, 2
  {
    hide AppendVarint, Payload, IsRecord, ElementRecords;
    var f := t[name].fields[i];
    FieldRecordsAreRecords(t, f, v);
    if f.repeated {
      ElementsFold(t, f, v.elems);
    } else if !IsZeroValue(v) {
      var c := ValueRecords(t, f, v)[0];
      assert c in FieldRecords(t, f, v);
      ValueRecordIsRecord(t, f, v);
      PayloadDecodes(t, f.kind, v);
    }
  }

  lemma {:induction false} ElementsFold(t: Types, f: Field, es: seq<Value>)
    requires Proper(t) && NamedIn(t, f.kind) && f.repeated && 1 <= f.num <= MAX_INT32
    requires forall e | e in es :: HasKind(t, f.kind, e)
    requires Sized(ElementRecords(t, f, es))
    ensures AreRecords(ElementRecords(t, f, es))
    ensures Fold(t, f, VList([]), ElementRecords(t, f, es)) == Ok(VList(CanonicalElements(t, f.kind, es)))
    decreases es, 1
  {
    ElementRecordsAreRecords(t, f, es);
    if es != [] {
      var front, last := es[..|es| - 1], es[|es| - 1];
      ElementsFold(t, f, front);
      if last.VNil? {
        assert ElementRecords(t, f, es) == ElementRecords(t, f, front);
        assert CanonicalElements(t, f.kind, es) == CanonicalElements(t, f.kind, front);
      } else {
        var c := ValueRecords(t, f, last)[0];
        assert c in ElementRecords(t, f, es);
        ValueRecordIsRecord(t, f, last);
        PayloadDecodes(t, f.kind, last);
        FoldAppend(t, f, VList([]), ElementRecords(t, f, front), c);
      }
    }
  }

  /**
   Any stream of records that holds, for each field of a message, the records the encoder
   writes for it - in whatever order between fields, with any records of other numbers in
   between - decodes to the canonical form of the message.
   */
  lemma {:induction false} StreamDecodes(t: Types, name: string, vs: seq<Value>, cs: seq<Bytes>)
    requires Proper(t) && name in t && HasFields(t, t[name].fields, vs)
    requires AreRecords(cs) && Sized(Records(t, t[name].fields, vs, |t[name].fields|))
    requires forall i | 0 <= i < |t[name].fields| ::
        Select(t[name].fields, i, cs) == FieldRecords(t, t[name].fields[i], vs[i])
    ensures DecodeFields(t, t[name].fields, ZeroFields(t, name), Concat(cs)) ==
            Ok(CanonicalFields(t, t[name].fields, vs))
    decreases vs, 0
  {
    var fs, zero := t[name].fields, ZeroFields(t, name);
    forall i | 0 <= i < |fs|
      ensures Fold(t, fs[i], zero[i], Select(fs, i, cs)) == Ok(CanonicalFields(t, fs, vs)[i])
    {
      RecordsContainField(t, fs, vs, |fs|, i);
      FieldFolds(t, name, i, vs[i]);
    }
    DecodeIsApplyRecords(t, fs, zero, cs);
    DecodesFieldByField(t, fs, zero, cs);
    FoldsToIsUnique(t, fs, zero, cs, ApplyRecords(t, fs, zero, cs), Ok(CanonicalFields(t, fs, vs)));
  }

  lemma {:induction false} RecordsContainField(t: Types, fs: seq<Field>, vs: seq<Value>, n: nat, i: nat)
    requires HasFields(t, fs, vs) && i < n <= |fs|
    ensures forall c | c in FieldRecords(t, fs[i], vs[i]) :: c in Records(t, fs, vs, n)
    decreases n
  {
    if i < n - 1 {
      RecordsContainField(t, fs, vs, n - 1, i);
    }
  }

  /** Unmarshalling into a fresh message what was marshalled yields the canonical message. */
  lemma RoundTrip(t: Types, name: string, vs: seq<Value>)
    requires Proper(t) && name in t && HasFields(t, t[name].fields, vs)
    requires |Encode(t, t[name].fields, vs)| < TWO64
    ensures DecodeFields(t, t[name].fields, ZeroFields(t, name), Encode(t, t[name].fields, vs)) ==
            Ok(CanonicalFields(t, t[name].fields, vs))
  {
    var fs := t[name].fields;
    EncodedFieldRecords(t, fs, vs);
    StreamDecodes(t, name, vs, Records(t, fs, vs, |fs|));
  }

  // ---- Exactly which messages survive ----

  /** No negative zero in a singular field and no nil inside a list, at any depth. */
  ghost predicate Lossless(t: Types, f: Field, v: Value)
    requires HasField(t, f, v)
    decreases v, 2
  {
    if f.repeated then forall e | e in v.elems :: !e.VNil? && LosslessValue(t, f.kind, e)
    else v != VFloat(NEGATIVE_ZERO) && LosslessValue(t, f.kind, v)
  }

  ghost predicate LosslessValue(t: Types, k: Kind, v: Value)
    requires HasKind(t, k, v)
    decreases v, 1
  {
    v.VMsg? ==> LosslessFields(t, t[k.name].fields, v.fields)
  }

  ghost predicate LosslessFields(t: Types, fs: seq<Field>, vs: seq<Value>)
    requires HasFields(t, fs, vs)
    decreases vs, 0
  {
    forall i | 0 <= i < |fs| :: Lossless(t, fs[i], vs[i])
  }

  lemma {:induction false} CanonicalFieldsUnchangedIff(t: Types, fs: seq<Field>, vs: seq<Value>)
    requires HasFields(t, fs, vs)
    ensures CanonicalFields(t, fs, vs) == vs <==> LosslessFields(t, fs, vs)
    decreases vs, 0
  {
    forall i | 0 <= i < |fs| ensures Canonical(t, fs[i], vs[i]) == vs[i] <==> Lossless(t, fs[i], vs[i]) {
      if fs[i].repeated {
        ElementsUnchangedIff(t, fs[i].kind, vs[i].elems);
      } else {
        ValueUnchangedIff(t, fs[i].kind, vs[i]);
      }
    }
    if CanonicalFields(t, fs, vs) == vs {
      forall i | 0 <= i < |fs| ensures Lossless(t, fs[i], vs[i]) {
        assert CanonicalFields(t, fs, vs)[i] == vs[i];
      }
    }
  }

  lemma {:induction false} ValueUnchangedIff(t: Types, k: Kind, v: Value)
    requires HasKind(t, k, v)
    ensures CanonicalValue(t, k, v) == v <==> LosslessValue(t, k, v)
    decreases v, 1
  {
    if v.VMsg? {
      CanonicalFieldsUnchangedIff(t, t[k.name].fields, v.fields);
    }
  }

  /** Only nils are dropped; what is kept keeps its place when nothing is dropped. */
  lemma {:induction false} ElementsKept(t: Types, k: Kind, es: seq<Value>)
    requires forall e | e in es :: HasKind(t, k, e)
    ensures |CanonicalElements(t, k, es)| <= |es|
    ensures |CanonicalElements(t, k, es)| == |es| <==> VNil !in es
    ensures VNil !in es ==> forall j | 0 <= j < |es| :: CanonicalElements(t, k, es)[j] == CanonicalValue(t, k, es[j])
    decreases |es|
  {
    if es != [] {
      var front, last := es[..|es| - 1], es[|es| - 1];
      assert es == front + [last];
      ElementsKept(t, k, front);
    }
  }

  lemma {:induction false} ElementsUnchangedIff(t: Types, k: Kind, es: seq<Value>)
    requires forall e | e in es :: HasKind(t, k, e)
    ensures CanonicalElements(t, k, es) == es <==> forall e | e in es :: !e.VNil? && LosslessValue(t, k, e)
    decreases es, 1
  {
    ElementsKept(t, k, es);
    forall j | 0 <= j < |es| ensures CanonicalValue(t, k, es[j]) == es[j] <==> LosslessValue(t, k, es[j]) {
      ValueUnchangedIff(t, k, es[j]);
    }
    if CanonicalElements(t, k, es) == es {
      forall j | 0 <= j < |es| ensures LosslessValue(t, k, es[j]) {
        assert CanonicalElements(t, k, es)[j] == CanonicalValue(t, k, es[j]);
      }
    } else if VNil !in es {
      var j :| 0 <= j < |es| && CanonicalElements(t, k, es)[j] != es[j];
      assert !LosslessValue(t, k, es[j]);
    }
  }

  /** A round trip returns the very message if and only if the message is lossless. */
  lemma RoundTripIsIdentityIff(t: Types, name: string, vs: seq<Value>)
    requires Proper(t) && name in t && HasFields(t, t[name].fields, vs)
    requires |Encode(t, t[name].fields, vs)| < TWO64
    ensures DecodeFields(t, t[name].fields, ZeroFields(t, name), Encode(t, t[name].fields, vs)) == Ok(vs) <==>
            LosslessFields(t, t[name].fields, vs)
  {
    RoundTrip(t, name, vs);
    CanonicalFieldsUnchangedIff(t, t[name].fields, vs);
  }

  /** Negative zero in a singular field comes back as positive zero; in a list it survives. */
  lemma NegativeZeroIsLost(t: Types, name: string)
    requires name in t && t[name].fields == [Field(1, WordFixed64, false, Float64), Field(2, WordFixed64, true, Float64)]
    requires Proper(t)
    ensures var vs := [VFloat(NEGATIVE_ZERO), VList([VFloat(NEGATIVE_ZERO)])];
            && HasFields(t, t[name].fields, vs)
            && DecodeFields(t, t[name].fields, ZeroFields(t, name), Encode(t, t[name].fields, vs)) ==
               Ok([VFloat(0), VList([VFloat(NEGATIVE_ZERO)])])
  {
    var fs := t[name].fields;
    var es := [VFloat(NEGATIVE_ZERO)];
    var vs := [VFloat(NEGATIVE_ZERO), VList(es)];
    ListAlone(t, fs, vs[0], es);
    assert CanonicalElements(t, Float64, es) == es by {
      assert es[..0] == [];
    }
    assert CanonicalFields(t, fs, vs) == [VFloat(0), VList(es)];
    NineBytes(t, name, vs, es);
  }

  lemma NineBytes(t: Types, name: string, vs: seq<Value>, es: seq<Value>)
    requires Proper(t) && name in t && HasFields(t, t[name].fields, vs) && |t[name].fields| == 2
    requires t[name].fields[1] == Field(2, WordFixed64, true, Float64) && es == [VFloat(NEGATIVE_ZERO)]
    requires Encode(t, t[name].fields, vs) == Concat(ElementRecords(t, t[name].fields[1], es))
    ensures DecodeFields(t, t[name].fields, ZeroFields(t, name), Encode(t, t[name].fields, vs)) ==
            Ok(CanonicalFields(t, t[name].fields, vs))
  {
    hide Encode, DecodeFields, CanonicalFields, HasFields, ElementRecords;
    OneFixedRecord(t, t[name].fields[1], NEGATIVE_ZERO);
    RoundTrip(t, name, vs);
  }

  /** A zero in the first field leaves only the list of the second. */
  lemma ListAlone(t: Types, fs: seq<Field>, v: Value, es: seq<Value>)
    requires |fs| == 2 && !fs[0].repeated && fs[1].repeated
    requires HasKind(t, fs[0].kind, v) && IsZeroValue(v) && forall e | e in es :: HasKind(t, fs[1].kind, e)
    ensures HasFields(t, fs, [v, VList(es)])
    ensures Encode(t, fs, [v, VList(es)]) == Concat(ElementRecords(t, fs[1], es))
  {
    hide HasKind, ElementRecords, Concat;
    var vs := [v, VList(es)];
    assert Records(t, fs, vs, 0) == [];
    assert Records(t, fs, vs, 1) == Records(t, fs, vs, 0) + FieldRecords(t, fs[0], vs[0]);
    assert Records(t, fs, vs, 2) == Records(t, fs, vs, 1) + ElementRecords(t, fs[1], es) == ElementRecords(t, fs[1], es);
  }

  /** A tag byte and eight bytes for the number. */
  lemma OneFixedRecord(t: Types, f: Field, bits: nat)
    requires f.kind == Float64 && 1 <= f.num < 16 && bits < TWO64
    ensures |Concat(ElementRecords(t, f, [VFloat(bits)]))| == 9
  {
    var es := [VFloat(bits)];
    var c := AppendTag(f.num, FIXED64) + AppendFixed(bits, 8);
    assert |AppendTag(f.num, FIXED64)| == 1;
    assert |AppendFixed(bits, 8)| == 8;
    assert es[..0] == [];
    var cs := [c];
    assert ElementRecords(t, f, es) == [] + ValueRecords(t, f, es[0]) == cs;
    assert cs[1..] == [];
  }

  /** A nil pointer inside a list is dropped, so the decoded list is shorter. */
  lemma NilElementIsLost(t: Types, name: string)
    requires name in t && t[name].fields == [Field(1, WordBytes, true, Pointer(name))]
    requires Proper(t)
    ensures var vs := [VList([VNil])];
            && HasFields(t, t[name].fields, vs)
            && Encode(t, t[name].fields, vs) == []
            && DecodeFields(t, t[name].fields, ZeroFields(t, name), Encode(t, t[name].fields, vs)) == Ok([VList([])])
  {
    var fs := t[name].fields;
    var vs, es := [VList([VNil])], [VNil];
    assert ElementRecords(t, fs[0], es) == [] by {
      assert es[..0] == [];
    }
    assert Records(t, fs, vs, 1) == [];
    assert ZeroFields(t, name) == [ZeroField(t, name, 0)];
  }
}
