/**
 Forward compatibility at every depth: reordering the records of different fields and adding
 or removing unknown ones, inside messages nested to any depth, leaves the decoded value alone.
 */
module CodecNesting {
  import opened Wire
  import opened Schema
  import opened ProtoCodec
  import opened CodecProofs
  import opened CodecRoundTrip

  lemma BytesBody(c: Bytes)
    requires IsRecord(c) && TagOf(c).typ == BYTES
    ensures ConsumeBytes(Body(c)).Ok?
  {
    hide ConsumeTag, ConsumeBytes;
  }

  /** What a length-delimited record carries. */
  function Inner(c: Bytes): Bytes
    requires IsRecord(c) && TagOf(c).typ == BYTES
  {
    BytesBody(c);
    ConsumeBytes(Body(c)).value.value
  }

  ghost predicate SameRecord(c: Bytes, e: Bytes)
    requires IsRecord(c) && IsRecord(e)
  {
    TagOf(c).typ == TagOf(e).typ && Body(c) == Body(e)
  }

  /** The same record, or two records of nested messages that are alike. */
  ghost predicate AlikeRecord(t: Types, k: Kind, c: Bytes, e: Bytes, depth: nat)
    requires NamedIn(t, k) && IsRecord(c) && IsRecord(e)
    decreases depth, 0
  {
    || SameRecord(c, e)
    || (&& depth > 0 && (k.Struct? || k.Pointer?)
        && TagOf(c).typ == BYTES && TagOf(e).typ == BYTES
        && Alike(t, t[k.name].fields, Inner(c), Inner(e), depth - 1))
  }

  ghost predicate AlikeRecords(t: Types, k: Kind, cs: seq<Bytes>, ds: seq<Bytes>, depth: nat)
    requires NamedIn(t, k) && AreRecords(cs) && AreRecords(ds)
    decreases depth, 1
  {
    |cs| == |ds| && forall j | 0 <= j < |cs| :: AlikeRecord(t, k, cs[j], ds[j], depth)
  }

  /** Every field has its records alike and in the same order. */
  ghost predicate AlikePerField(t: Types, fs: seq<Field>, cs: seq<Bytes>, ds: seq<Bytes>, depth: nat)
    requires Known(t, fs) && AreRecords(cs) && AreRecords(ds)
    decreases depth, 2
  {
    forall i | 0 <= i < |fs| :: AlikeRecords(t, fs[i].kind, Select(fs, i, cs), Select(fs, i, ds), depth)
  }

  /** Two messages that differ in unknown fields and in the order of fields, down to `depth` levels. */
  ghost predicate Alike(t: Types, fs: seq<Field>, a: Bytes, b: Bytes, depth: nat)
    requires Known(t, fs)
    decreases depth, 3
  {
    exists cs, ds ::
      AreRecords(cs) && AreRecords(ds) && a == Concat(cs) && b == Concat(ds) && AlikePerField(t, fs, cs, ds, depth)
  }

  /** Both fail, or both give the same value. */
  ghost predicate Agree(p: Result<Parsed<Value>>, q: Result<Parsed<Value>>) {
    p.Ok? == q.Ok? && (p.Ok? ==> p.value.value == q.value.value)
  }

  lemma {:induction false} AlikeRecordsAgree(t: Types, f: Field, v: Value, c: Bytes, e: Bytes, depth: nat)
    requires NamedIn(t, f.kind) && HasField(t, f, v) && IsRecord(c) && IsRecord(e) && AlikeRecord(t, f.kind, c, e, depth)
    ensures Agree(DecodeField(t, f, v, TagOf(c).typ, Body(c)), DecodeField(t, f, v, TagOf(e).typ, Body(e)))
    decreases depth, 0
  {
    hide IsRecord, TagOf, Body, Alike, HasKind, DecodeOne;
    if !SameRecord(c, e) {
      var w := if f.repeated then Zero(t, f.kind) else v;
      NestedAgree(t, f.kind, w, c, e, depth);
    }
  }

  lemma {:induction false} NestedAgree(t: Types, k: Kind, v: Value, c: Bytes, e: Bytes, depth: nat)
    requires NamedIn(t, k) && HasKind(t, k, v) && IsRecord(c) && IsRecord(e)
    requires depth > 0 && (k.Struct? || k.Pointer?) && TagOf(c).typ == BYTES && TagOf(e).typ == BYTES
    requires Alike(t, t[k.name].fields, Inner(c), Inner(e), depth - 1)
    ensures Agree(DecodeOne(t, k, v, BYTES, Body(c)), DecodeOne(t, k, v, BYTES, Body(e)))
    decreases depth - 1, 9
  {
    hide IsRecord, TagOf, Body, Alike, ConsumeBytes, DecodeFields;
    BytesBody(c);
    BytesBody(e);
    var start := if v.VNil? then ZeroFields(t, k.name) else v.fields;
    AlikeDecodesAlike(t, t[k.name].fields, start, Inner(c), Inner(e), depth - 1);
  }

  lemma {:induction false} AlikeFolds(t: Types, f: Field, v: Value, cs: seq<Bytes>, ds: seq<Bytes>, depth: nat)
    requires NamedIn(t, f.kind) && HasField(t, f, v) && AreRecords(cs) && AreRecords(ds)
    requires AlikeRecords(t, f.kind, cs, ds, depth)
    ensures Fold(t, f, v, cs) == Fold(t, f, v, ds)
    decreases depth, 1, |cs|
  {
    hide IsRecord, TagOf, Body, AlikeRecord, DecodeField, HasField;
    if cs != [] {
      AlikeRecordsAgree(t, f, v, cs[0], ds[0], depth);
      var p := DecodeField(t, f, v, TagOf(cs[0]).typ, Body(cs[0]));
      if p.Ok? {
        AlikeFolds(t, f, p.value.value, cs[1..], ds[1..], depth);
      }
    }
  }

  lemma SameFoldsSameResult(t: Types, fs: seq<Field>, vs: seq<Value>, cs: seq<Bytes>, ds: seq<Bytes>, r: Result<seq<Value>>)
    requires Known(t, fs) && HasFields(t, fs, vs) && AreRecords(cs) && AreRecords(ds)
    requires forall i | 0 <= i < |fs| :: Fold(t, fs[i], vs[i], Select(fs, i, cs)) == Fold(t, fs[i], vs[i], Select(fs, i, ds))
    requires FoldsTo(t, fs, vs, ds, r)
    ensures FoldsTo(t, fs, vs, cs, r)
  {
    hide Fold, Select, AreRecords;
  }

  /** Messages that are alike decode alike, whatever they are decoded into. */
  lemma {:induction false} AlikeDecodesAlike(t: Types, fs: seq<Field>, vs: seq<Value>, a: Bytes, b: Bytes, depth: nat)
    requires Known(t, fs) && HasFields(t, fs, vs) && Alike(t, fs, a, b, depth)
    ensures DecodeFields(t, fs, vs, a) == DecodeFields(t, fs, vs, b)
    decreases depth, 3
  {
    hide Fold, Select, AreRecords, FoldsTo, ApplyRecords, DecodeFields, AlikeRecords, HasField;
    var cs, ds :|
      AreRecords(cs) && AreRecords(ds) && a == Concat(cs) && b == Concat(ds) && AlikePerField(t, fs, cs, ds, depth);
    DecodeIsApplyRecords(t, fs, vs, cs);
    DecodeIsApplyRecords(t, fs, vs, ds);
    DecodesFieldByField(t, fs, vs, cs);
    DecodesFieldByField(t, fs, vs, ds);
    forall i | 0 <= i < |fs|
      ensures Fold(t, fs[i], vs[i], Select(fs, i, cs)) == Fold(t, fs[i], vs[i], Select(fs, i, ds))
    {
      AlikeFolds(t, fs[i], vs[i], Select(fs, i, cs), Select(fs, i, ds), depth);
    }
    SameFoldsSameResult(t, fs, vs, cs, ds, ApplyRecords(t, fs, vs, ds));
    FoldsToIsUnique(t, fs, vs, cs, ApplyRecords(t, fs, vs, cs), ApplyRecords(t, fs, vs, ds));
  }

  // ---- How alike messages come about ----

  lemma AlikeItself(t: Types, k: Kind, cs: seq<Bytes>, depth: nat)
    requires NamedIn(t, k) && AreRecords(cs)
    ensures AlikeRecords(t, k, cs, cs, depth)
  {
    hide Alike;
  }

  /** Records may be put in another order, and unknown ones added or removed, if each field keeps its own. */
  lemma SameRecordsAreAlike(t: Types, fs: seq<Field>, cs: seq<Bytes>, ds: seq<Bytes>, depth: nat)
    requires Known(t, fs) && AreRecords(cs) && AreRecords(ds)
    requires forall i | 0 <= i < |fs| :: Select(fs, i, cs) == Select(fs, i, ds)
    ensures Alike(t, fs, Concat(cs), Concat(ds), depth)
  {
    hide Select, AreRecords, AlikeRecords;
    forall i | 0 <= i < |fs| ensures AlikeRecords(t, fs[i].kind, Select(fs, i, cs), Select(fs, i, ds), depth) {
      AlikeItself(t, fs[i].kind, Select(fs, i, cs), depth);
    }
    assert AlikePerField(t, fs, cs, ds, depth);
  }

  /** The record of a nested message in the bytes `data`. */
  function MessageRecord(num: nat, data: Bytes): Bytes {
    AppendTag(num, BYTES) + AppendBytes(data)
  }

  lemma MessageRecordIsRecord(num: nat, data: Bytes)
    requires 1 <= num <= MAX_INT32 && |data| < TWO64
    ensures IsRecord(MessageRecord(num, data)) && TagOf(MessageRecord(num, data)) == Tag(num, BYTES)
    ensures Inner(MessageRecord(num, data)) == data
  {
    hide ConsumeTag, ConsumeBytes, AppendTag, AppendBytes;
    var c := MessageRecord(num, data);
    TagReadsBack(num, BYTES, AppendBytes(data));
    BytesReadBack(data, []);
    assert AppendBytes(data) + [] == AppendBytes(data);
    assert c[|AppendTag(num, BYTES)|..] == AppendBytes(data);
  }

  lemma AlikeAround(t: Types, k: Kind, pre: seq<Bytes>, mid: seq<Bytes>, mid': seq<Bytes>, post: seq<Bytes>, depth: nat)
    requires NamedIn(t, k) && AreRecords(pre) && AreRecords(mid) && AreRecords(mid') && AreRecords(post)
    requires AlikeRecords(t, k, mid, mid', depth)
    ensures AreRecords(pre + mid + post) && AreRecords(pre + mid' + post)
    ensures AlikeRecords(t, k, pre + mid + post, pre + mid' + post, depth)
  {
    hide IsRecord, Alike, TagOf, Body;
  }

  /** Alike messages may stand for one another inside a message: the result is alike one level deeper. */
  lemma NestedMessagesAreAlike(t: Types, fs: seq<Field>, i: nat, pre: seq<Bytes>, x: Bytes, y: Bytes, post: seq<Bytes>, depth: nat)
    requires Known(t, fs) && AreRecords(pre) && AreRecords(post) && i < |fs|
    requires FieldIndex(fs, fs[i].num) == i && 1 <= fs[i].num <= MAX_INT32
    requires fs[i].kind.Struct? || fs[i].kind.Pointer?
    requires Alike(t, t[fs[i].kind.name].fields, x, y, depth) && |x| < TWO64 && |y| < TWO64
    ensures Alike(t, fs, Concat(pre + [MessageRecord(fs[i].num, x)] + post), Concat(pre + [MessageRecord(fs[i].num, y)] + post), depth + 1)
  {
    hide IsRecord, TagOf, Body, Inner, MessageRecord, Alike, Select, FieldIndex;
    var num := fs[i].num;
    var c, e := MessageRecord(num, x), MessageRecord(num, y);
    MessageRecordIsRecord(num, x);
    MessageRecordIsRecord(num, y);
    var cs, ds := pre + [c] + post, pre + [e] + post;
    assert AreRecords(cs) && AreRecords(ds);
    forall j | 0 <= j < |fs| ensures AlikeRecords(t, fs[j].kind, Select(fs, j, cs), Select(fs, j, ds), depth + 1) {
      SelectMiddle(fs, j, pre, c, post);
      SelectMiddle(fs, j, pre, e, post);
      var mid, mid' := if i == j then [c] else [], if i == j then [e] else [];
      AlikeAround(t, fs[j].kind, Select(fs, j, pre), mid, mid', Select(fs, j, post), depth + 1);
    }
    AlikeWitness(t, fs, cs, ds, depth + 1);
  }

  lemma AlikeWitness(t: Types, fs: seq<Field>, cs: seq<Bytes>, ds: seq<Bytes>, depth: nat)
    requires Known(t, fs) && AreRecords(cs) && AreRecords(ds) && AlikePerField(t, fs, cs, ds, depth)
    ensures Alike(t, fs, Concat(cs), Concat(ds), depth)
  {
    hide AlikePerField, AreRecords, Concat;
  }

  lemma SelectMiddle(fs: seq<Field>, j: nat, pre: seq<Bytes>, c: Bytes, post: seq<Bytes>)
    requires AreRecords(pre) && IsRecord(c) && AreRecords(post)
    ensures AreRecords(pre + [c] + post)
    ensures Select(fs, j, pre + [c] + post) ==
            Select(fs, j, pre) + (if FieldIndex(fs, TagOf(c).num) == j then [c] else []) + Select(fs, j, post)
  {
    hide IsRecord, TagOf, Select, FieldIndex;
    SelectAppend(fs, j, pre, [c]);
    SelectAppend(fs, j, pre + [c], post);
    SelectUniform(fs, j, [c], TagOf(c).num);
  }

  /** An unknown field may be put anywhere into a message, and so, level by level, into any nested one. */
  lemma UnknownFieldIsAlike(t: Types, fs: seq<Field>, pre: seq<Bytes>, u: Bytes, post: seq<Bytes>, depth: nat)
    requires Known(t, fs) && AreRecords(pre) && IsRecord(u) && AreRecords(post) && FieldIndex(fs, TagOf(u).num) < 0
    ensures AreRecords(pre + post) && Alike(t, fs, Concat(pre + [u] + post), Concat(pre + post), depth)
  {
    hide IsRecord, TagOf, Select, FieldIndex, Alike;
    forall i | 0 <= i < |fs| ensures Select(fs, i, pre + [u] + post) == Select(fs, i, pre + post) {
      SelectMiddle(fs, i, pre, u, post);
      SelectAppend(fs, i, pre, post);
    }
    SameRecordsAreAlike(t, fs, pre + [u] + post, pre + post, depth);
  }
}
