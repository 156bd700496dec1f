/**
 Go message types as the codec sees them through reflection, and the values they hold.

 A table of types may be recursive through pointers and slices; as in Go, a struct
 may not contain itself by value, which `rank` records.
 */
module Schema {
  import opened Wire

  datatype Width = W8 | W16 | W32 | W64

  datatype Kind =
    | Bool
    | Int(width: Width)
    | Uint(width: Width)
    | Float64
    | Text              // string
    | Blob              // []byte
    | Struct(name: string)
    | Pointer(name: string)

  /** The wire-type word that opens a protobuf struct tag. */
  datatype WireWord = WordVarint | WordFixed64 | WordFixed32 | WordBytes | WordUnknown

  datatype Field = Field(num: nat, word: WireWord, repeated: bool, kind: Kind)

  datatype MessageType = MessageType(fields: seq<Field>, rank: nat)

  /** Field values; a non-nil pointer holds the message it points to.  Floats are bit patterns. */
  datatype Value =
    | VBool(flag: bool)
    | VInt(i: int)
    | VUint(u: nat)
    | VFloat(bits: nat)
    | VBytes(data: Bytes)
    | VMsg(fields: seq<Value>)
    | VNil
    | VList(elems: seq<Value>)

  type Types = t: map<string, MessageType> | WellFormed(t) witness map[]

  ghost predicate WellFormed(t: map<string, MessageType>) {
    forall name | name in t ::
      forall i | 0 <= i < |t[name].fields| ::
        var f := t[name].fields[i];
        && NamedIn(t, f.kind)
        && (!f.repeated && f.kind.Struct? ==> t[f.kind.name].rank < t[name].rank)
  }

  predicate NamedIn(t: map<string, MessageType>, k: Kind) {
    k.Struct? || k.Pointer? ==> k.name in t
  }

  ghost predicate Known(t: Types, fs: seq<Field>) {
    forall i | 0 <= i < |fs| :: NamedIn(t, fs[i].kind)
  }

  function Modulus(w: Width): int {
    match w
    case W8 => 0x100
    case W16 => 0x1_0000
    case W32 => 0x1_0000_0000
    case W64 => TWO64
  }

  // ---- Typing ----

  ghost predicate HasKind(t: Types, k: Kind, v: Value)
    decreases v, 1
  {
    match k
    case Bool => v.VBool?
    case Int(w) => v.VInt? && -(Modulus(w) / 2) <= v.i < Modulus(w) / 2
    case Uint(w) => v.VUint? && v.u < Modulus(w)
    case Float64 => v.VFloat? && v.bits < TWO64
    case Text => v.VBytes?
    case Blob => v.VBytes?
    case Struct(name) => name in t && v.VMsg? && HasFields(t, t[name].fields, v.fields)
    case Pointer(name) => name in t && (v.VNil? || (v.VMsg? && HasFields(t, t[name].fields, v.fields)))
  }

  ghost predicate HasField(t: Types, f: Field, v: Value)
    decreases v, 2
  {
    if f.repeated then v.VList? && forall e | e in v.elems :: HasKind(t, f.kind, e)
    else HasKind(t, f.kind, v)
  }

  ghost predicate HasFields(t: Types, fs: seq<Field>, vs: seq<Value>)
    decreases vs, 0
  {
    |vs| == |fs| && forall i | 0 <= i < |fs| :: HasField(t, fs[i], vs[i])
  }

  // ---- Zero values ----

  function KindRank(t: Types, k: Kind): nat
    requires NamedIn(t, k)
  {
    if k.Struct? then t[k.name].rank + 1 else 0
  }

  function Zero(t: Types, k: Kind): (v: Value)
    requires NamedIn(t, k)
    ensures HasKind(t, k, v)
    decreases KindRank(t, k), 1
  {
    match k
    case Bool => VBool(false)
    case Int(_) => VInt(0)
    case Uint(_) => VUint(0)
    case Float64 => VFloat(0)
    case Text => VBytes([])
    case Blob => VBytes([])
    case Struct(name) =>
      var fs := t[name].fields;
      VMsg(seq(|fs|, i requires 0 <= i < |fs| => ZeroField(t, name, i)))
    case Pointer(_) => VNil
  }

  function ZeroField(t: Types, name: string, i: nat): (v: Value)
    requires name in t && i < |t[name].fields|
    ensures HasField(t, t[name].fields[i], v)
    decreases t[name].rank + 1, 0
  {
    var f := t[name].fields[i];
    if f.repeated then VList([]) else Zero(t, f.kind)
  }

  function ZeroFields(t: Types, name: string): (vs: seq<Value>)
    requires name in t
    ensures HasFields(t, t[name].fields, vs)
    ensures forall i | 0 <= i < |vs| :: vs[i] == ZeroField(t, name, i)
  {
    Zero(t, Struct(name)).fields
  }
}
