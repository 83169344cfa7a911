/** The message types of the RPC protocol and their fields; how lists of fields are written and read. */
module RpcSchema {
  import opened Seqs
  import opened Wire

  datatype MsgType =
    | RpcType | SubOptsType | MessageType | ControlType
    | IHaveType | IWantType | GraftType | PruneType | PeerInfoType | IDontWantType

  /** How the value of a field is written. Strings are taken as their UTF-8 bytes. */
  datatype Kind = BoolKind | BytesKind | NumberKind | MsgKind(msgType: MsgType)

  /** A value of any wire type; no field of the protocol has one of the last three forms, but an unknown field may. */
  datatype Value =
    | BoolValue(b: bool) | BytesValue(bytes: Bytes) | NumberValue(n: nat) | MsgValue(fields: seq<Field>)
    | Fixed64Value(n: nat) | Fixed32Value(n: nat) | GroupValue(fields: seq<Field>, endNum: nat)

  /** One assignment to, or one push onto, a field of the decoded object. */
  datatype Field = Field(num: nat, value: Value)

  /** The switches of the decoders: which fields each message type knows. */
  function KindOf(t: MsgType, num: nat): Option<Kind> {
    match t
    case RpcType =>
      if num == 1 then Some(MsgKind(SubOptsType)) else if num == 2 then Some(MsgKind(MessageType))
      else if num == 3 then Some(MsgKind(ControlType)) else None
    case SubOptsType => if num == 1 then Some(BoolKind) else if num == 2 then Some(BytesKind) else None
    case MessageType => if 1 <= num <= 6 then Some(BytesKind) else None
    case ControlType =>
      if num == 1 then Some(MsgKind(IHaveType)) else if num == 2 then Some(MsgKind(IWantType))
      else if num == 3 then Some(MsgKind(GraftType)) else if num == 4 then Some(MsgKind(PruneType))
      else if num == 5 then Some(MsgKind(IDontWantType)) else None
    case IHaveType => if 1 <= num <= 2 then Some(BytesKind) else None
    case IWantType => if num == 1 then Some(BytesKind) else None
    case GraftType => if num == 1 then Some(BytesKind) else None
    case PruneType =>
      if num == 1 then Some(BytesKind) else if num == 2 then Some(MsgKind(PeerInfoType))
      else if num == 3 then Some(NumberKind) else None
    case PeerInfoType => if 1 <= num <= 2 then Some(BytesKind) else None
    case IDontWantType => if num == 1 then Some(BytesKind) else None
  }

  /** How deep messages of the type nest. */
  function Depth(t: MsgType): nat {
    match t
    case RpcType => 3
    case ControlType => 2
    case PruneType => 1
    case _ => 0
  }

  // ----- writing

  function WireType(v: Value): (wireType: nat)
    ensures wireType < 8 && wireType != END_GROUP
  {
    match v
    case BoolValue(_) => 0
    case NumberValue(_) => 0
    case Fixed64Value(_) => 1
    case BytesValue(_) => 2
    case MsgValue(_) => 2
    case GroupValue(_, _) => 3
    case Fixed32Value(_) => 5
  }

  function Tag(f: Field): nat { f.num * 8 + WireType(f.value) }

  function EncodeValue(v: Value): Bytes {
    match v
    case BoolValue(b) => [if b then 1 else 0]
    case BytesValue(bytes) => Delimited(bytes)
    case NumberValue(n) => Varint(n % TWO_64)
    case MsgValue(fields) => Delimited(Encode(fields))
    case Fixed64Value(n) => LittleEndian(n, 8)
    case Fixed32Value(n) => LittleEndian(n, 4)
    case GroupValue(fields, endNum) => Encode(fields) + EndOfGroup(endNum)
  }

  /** The tag that closes a group. */
  function EndOfGroup(num: nat): Bytes { Varint((num * 8 + END_GROUP) % TWO_32) }

  function EncodeField(f: Field): Bytes { Varint(Tag(f) % TWO_32) + EncodeValue(f.value) }

  function Encode(fields: seq<Field>): Bytes {
    if fields == [] then [] else EncodeField(fields[0]) + Encode(fields[1..])
  }

  // ----- reading

  /** Reads the value of a known field; a nested message ends where its length says. */
  function DecodeValue(k: Kind, buf: Bytes, pos: nat): (r: Parsed<Value>)
    ensures r.Got? ==> pos < r.pos <= |buf|
    decreases if k.MsgKind? then Depth(k.msgType) + 1 else 0, 0, 0
  {
    match k
    case BoolKind => (match ReadUint32(buf, pos) case Got(v, p) => Got(BoolValue(v != 0), p) case Failed => Failed)
    case BytesKind => (match ReadBytes(buf, pos) case Got(b, p) => Got(BytesValue(b), p) case Failed => Failed)
    case NumberKind => (match ReadUint64(buf, pos) case Got(v, p) => Got(NumberValue(v), p) case Failed => Failed)
    case MsgKind(t) =>
      match ReadUint32(buf, pos)
      case Failed => Failed
      case Got(length, p) =>
        match Decode(t, buf, p, p + length, [])
        case Got(fields, p2) => Got(MsgValue(fields), p2)
        case Failed => Failed
  }

  /** The field at `pos`, if it is known: an unknown one is skipped. */
  function DecodeField(t: MsgType, buf: Bytes, pos: nat): (r: Parsed<seq<Field>>)
    ensures r.Got? ==> pos < r.pos <= |buf|
    decreases Depth(t), 1, 0
  {
    match ReadUint32(buf, pos)
    case Failed => Failed
    case Got(tag, p) =>
      match KindOf(t, tag / 8)
      case None => (match SkipType(buf, p, tag % 8) case Got(_, p2) => Got([], p2) case Failed => Failed)
      case Some(k) =>
        NestedShallower(t, tag / 8);
        match DecodeValue(k, buf, p)
        case Got(v, p2) => Got([Field(tag / 8, v)], p2)
        case Failed => Failed
  }

  /** The loop of a decoder: fields are read until the position has reached the end. */
  function Decode(t: MsgType, buf: Bytes, pos: nat, end: nat, soFar: seq<Field>): (r: Parsed<seq<Field>>)
    requires pos <= |buf|
    ensures r.Got? ==> pos <= r.pos <= |buf| && r.pos >= end
    decreases Depth(t), 2, |buf| - pos
  {
    if pos >= end then Got(soFar, pos)
    else
      match DecodeField(t, buf, pos)
      case Failed => Failed
      case Got(fields, p) => Decode(t, buf, p, end, soFar + fields)
  }

  lemma NestedShallower(t: MsgType, num: nat)
    ensures var k := KindOf(t, num); k.Some? && k.value.MsgKind? ==> Depth(k.value.msgType) < Depth(t)
  {
  }

  // ----- what is written is read back, unknown fields aside

  /** The value without the fields its type does not know. */
  function KnownValue(k: Kind, v: Value): Value
    decreases v
  {
    if v.MsgValue? && k.MsgKind? then MsgValue(Known(k.msgType, v.fields)) else v
  }

  function KnownField(t: MsgType, f: Field): seq<Field>
    decreases f
  {
    var k := KindOf(t, f.num);
    if k.Some? then [Field(f.num, KnownValue(k.value, f.value))] else []
  }

  function Known(t: MsgType, fields: seq<Field>): seq<Field>
    decreases fields
  {
    if fields == [] then [] else KnownField(t, fields[0]) + Known(t, fields[1..])
  }

  ghost predicate ReadableValue(v: Value, k: Kind)
    decreases v
  {
    match v
    case BoolValue(_) => k == BoolKind
    case BytesValue(_) => k == BytesKind
    case NumberValue(n) => k == NumberKind && n < TWO_53
    case MsgValue(fields) => k.MsgKind? && Readable(k.msgType, fields)
    case _ => false
  }

  ghost predicate ReadableField(t: MsgType, f: Field)
    decreases f
  {
    Tag(f) < TWO_32 && (KindOf(t, f.num).Some? ==> ReadableValue(f.value, KindOf(t, f.num).value))
  }

  /** Every field the type knows has a value of the right kind; unknown ones may hold values of any wire type. */
  ghost predicate Readable(t: MsgType, fields: seq<Field>)
    decreases fields
  {
    forall i :: 0 <= i < |fields| ==> ReadableField(t, fields[i])
  }

  /** A value is read back, and the read stops where the value ends. */
  lemma {:induction false} ValueBack(k: Kind, v: Value, buf: Bytes, pos: nat)
    requires ReadableValue(v, k) && At(buf, pos, EncodeValue(v)) && |EncodeValue(v)| < TWO_32
    ensures DecodeValue(k, buf, pos) == Got(KnownValue(k, v), pos + |EncodeValue(v)|)
    decreases v, 0
  {
    hide Decode, Encode, Readable, Known, At, ReadUint32, ReadUint64, ReadBytes;
    match v
    case BoolValue(b) =>
      var n := if b then 1 else 0;
      assert Varint(n) == EncodeValue(v);
      hide Varint;
      NumberBack(buf, pos, n);
    case BytesValue(bytes) =>
      hide Varint;
      BytesBack(buf, pos, bytes);
    case NumberValue(n) =>
      hide Varint;
      NumberBack(buf, pos, n);
    case MsgValue(fields) => NestedBack(k.msgType, fields, buf, pos);
  }

  lemma {:induction false} NestedBack(t: MsgType, fields: seq<Field>, buf: Bytes, pos: nat)
    requires Readable(t, fields) && At(buf, pos, EncodeValue(MsgValue(fields)))
    requires |EncodeValue(MsgValue(fields))| < TWO_32
    ensures DecodeValue(MsgKind(t), buf, pos)
         == Got(MsgValue(Known(t, fields)), pos + |EncodeValue(MsgValue(fields))|)
    decreases fields, 3
  {
    EncodedNested(fields);
    hide *;
    var content := Encode(fields);
    DelimitedBack(buf, pos, content);
    FieldsBack(t, fields, buf, pos + |Varint(|content|)|, []);
    assert [] + Known(t, fields) == Known(t, fields);
    DecodedNested(t, buf, pos, pos + |Varint(|content|)|, |content|, Known(t, fields), pos + |Delimited(content)|);
  }

  lemma EncodedNested(fields: seq<Field>)
    ensures EncodeValue(MsgValue(fields)) == Delimited(Encode(fields))
    ensures |Encode(fields)| < |EncodeValue(MsgValue(fields))|
  {
  }

  lemma DecodedNested(t: MsgType, buf: Bytes, pos: nat, start: nat, length: nat, fields: seq<Field>, end: nat)
    requires ReadUint32(buf, pos) == Got(length, start) && start <= |buf|
    requires Decode(t, buf, start, start + length, []) == Got(fields, end)
    ensures DecodeValue(MsgKind(t), buf, pos) == Got(MsgValue(fields), end)
  {
    hide ReadUint32, Decode;
  }

  /** A value of an unknown field is skipped, whatever it is. */
  lemma {:induction false} ValueSkipped(v: Value, buf: Bytes, pos: nat)
    requires At(buf, pos, EncodeValue(v)) && |EncodeValue(v)| < TWO_32
    ensures pos <= |buf| && SkipType(buf, pos, WireType(v)) == Got((), pos + |EncodeValue(v)|)
    decreases v, 0
  {
    hide Encode, EndOfGroup;
    match v
    case BoolValue(b) =>
      assert Varint(if b then 1 else 0) == EncodeValue(v);
      hide Varint;
      NumberSkipped(buf, pos, if b then 1 else 0);
    case NumberValue(n) =>
      hide Varint;
      NumberSkipped(buf, pos, n % TWO_64);
    case BytesValue(bytes) => RecordSkipped(bytes, buf, pos);
    case MsgValue(fields) => RecordSkipped(Encode(fields), buf, pos);
    case Fixed64Value(n) =>
    case Fixed32Value(n) =>
    case GroupValue(fields, endNum) => GroupSkipped(fields, endNum, buf, pos);
  }

  /** A group is skipped field by field, nested groups included, up to the tag that closes it. */
  lemma {:induction false} GroupSkipped(fields: seq<Field>, endNum: nat, buf: Bytes, pos: nat)
    requires At(buf, pos, Encode(fields) + EndOfGroup(endNum)) && |Encode(fields) + EndOfGroup(endNum)| < TWO_32
    ensures pos <= |buf| && SkipGroup(buf, pos) == Got((), pos + |Encode(fields) + EndOfGroup(endNum)|)
    decreases fields, 1
  {
    hide *;
    GroupBytes(fields, EndOfGroup(endNum));
    if fields == [] {
      GroupEnds(endNum, buf, pos);
    } else {
      var f, rest := fields[0], fields[1..];
      AtConcat(buf, pos, EncodeField(f), Encode(rest) + EndOfGroup(endNum));
      GroupFieldSkipped(f, buf, pos);
      GroupSkipped(rest, endNum, buf, pos + |EncodeField(f)|);
    }
  }

  lemma GroupBytes(fields: seq<Field>, end: Bytes)
    ensures Encode(fields) + end == if fields == [] then end else EncodeField(fields[0]) + (Encode(fields[1..]) + end)
  {
    hide EncodeField;
  }

  lemma GroupEnds(endNum: nat, buf: Bytes, pos: nat)
    requires At(buf, pos, EndOfGroup(endNum))
    ensures pos <= |buf| && SkipGroup(buf, pos) == Got((), pos + |EndOfGroup(endNum)|)
  {
    var tag := (endNum * 8 + END_GROUP) % TWO_32;
    SmallTag(endNum, END_GROUP);
    assert EndOfGroup(endNum) == Varint(tag);
    hide *;
    NumberBack(buf, pos, tag);
    AtInside(buf, pos, Varint(tag));
    GroupOver(buf, pos, tag, pos + |Varint(tag)|);
  }

  lemma GroupOver(buf: Bytes, pos: nat, tag: nat, next: nat)
    requires pos <= |buf| && ReadUint32(buf, pos) == Got(tag, next) && tag % 8 == END_GROUP
    ensures SkipGroup(buf, pos) == Got((), next)
  {
    hide ReadUint32, SkipType;
  }

  lemma SmallTag(num: nat, wireType: nat)
    requires wireType < 8
    ensures var tag := (num * 8 + wireType) % TWO_32;
            tag % 8 == wireType && tag % TWO_32 == tag && tag < TWO_64
  {
    var x := num * 8 + wireType;
    assert x == TWO_32 * (x / TWO_32) + x % TWO_32;
    assert TWO_32 == 8 * 0x2000_0000;
    assert x % TWO_32 == 8 * (num - 0x2000_0000 * (x / TWO_32)) + wireType;
  }

  lemma {:induction false} GroupFieldSkipped(f: Field, buf: Bytes, pos: nat)
    requires At(buf, pos, EncodeField(f)) && |EncodeField(f)| < TWO_32
    ensures pos + |EncodeField(f)| <= |buf| && SkipGroup(buf, pos) == SkipGroup(buf, pos + |EncodeField(f)|)
    decreases f, 0
  {
    hide *;
    var tag := Tag(f) % TWO_32;
    FieldTag(f);
    AtConcat(buf, pos, Varint(tag), EncodeValue(f.value));
    NumberBack(buf, pos, tag);
    ValueSkipped(f.value, buf, pos + |Varint(tag)|);
    AtInside(buf, pos, EncodeField(f));
    SkippedOne(buf, pos, tag, pos + |Varint(tag)|, pos + |EncodeField(f)|);
  }

  lemma FieldTag(f: Field)
    ensures var tag := Tag(f) % TWO_32;
            && tag % 8 == WireType(f.value) && tag % 8 != END_GROUP && tag % TWO_32 == tag && tag < TWO_64
            && EncodeField(f) == Varint(tag) + EncodeValue(f.value)
  {
    hide WireType, Varint, EncodeValue;
    SmallTag(f.num, WireType(f.value));
  }

  lemma SkippedOne(buf: Bytes, pos: nat, tag: nat, valuePos: nat, next: nat)
    requires pos <= |buf| && ReadUint32(buf, pos) == Got(tag, valuePos) && tag % 8 != END_GROUP
    requires valuePos <= |buf| && SkipType(buf, valuePos, tag % 8) == Got((), next)
    ensures next <= |buf| && SkipGroup(buf, pos) == SkipGroup(buf, next)
  {
    hide ReadUint32, SkipType;
  }

  lemma NumberSkipped(buf: Bytes, pos: nat, n: nat)
    requires At(buf, pos, Varint(n)) && n < TWO_64
    ensures pos <= |buf| && SkipType(buf, pos, 0) == Got((), pos + |Varint(n)|)
  {
    hide Varint, ReadVarint;
    NumberBack(buf, pos, n);
  }

  lemma RecordSkipped(b: Bytes, buf: Bytes, pos: nat)
    requires At(buf, pos, Delimited(b)) && |b| < TWO_32
    ensures pos <= |buf| && SkipType(buf, pos, 2) == Got((), pos + |Delimited(b)|)
  {
    hide Varint, ReadUint32;
    AtConcat(buf, pos, Varint(|b|), b);
    NumberBack(buf, pos, |b|);
  }

  lemma {:induction false} FieldBack(t: MsgType, f: Field, buf: Bytes, pos: nat)
    requires ReadableField(t, f) && At(buf, pos, EncodeField(f)) && |EncodeField(f)| < TWO_32
    ensures DecodeField(t, buf, pos) == Got(KnownField(t, f), pos + |EncodeField(f)|)
    decreases f, 1
  {
    hide *;
    TagSplits(t, f);
    AtConcat(buf, pos, Varint(Tag(f)), EncodeValue(f.value));
    NumberBack(buf, pos, Tag(f));
    var valuePos := pos + |Varint(Tag(f))|;
    if KindOf(t, f.num).Some? {
      ValueBack(KindOf(t, f.num).value, f.value, buf, valuePos);
    } else {
      ValueSkipped(f.value, buf, valuePos);
    }
    FieldDecoded(t, f, buf, pos, valuePos, pos + |EncodeField(f)|);
  }

  /** A tag holds the number and the wire type of its field. */
  lemma TagSplits(t: MsgType, f: Field)
    requires ReadableField(t, f)
    ensures KindOf(t, f.num).Some? ==> ReadableValue(f.value, KindOf(t, f.num).value)
    ensures Tag(f) < TWO_32 < TWO_64 && Tag(f) % TWO_32 == Tag(f)
    ensures EncodeField(f) == Varint(Tag(f)) + EncodeValue(f.value)
  {
    hide KindOf, ReadableValue, Varint, EncodeValue;
  }

  lemma FieldDecoded(t: MsgType, f: Field, buf: Bytes, pos: nat, valuePos: nat, end: nat)
    requires ReadUint32(buf, pos) == Got(Tag(f), valuePos)
    requires if KindOf(t, f.num).Some? then DecodeValue(KindOf(t, f.num).value, buf, valuePos)
                                            == Got(KnownValue(KindOf(t, f.num).value, f.value), end)
             else valuePos <= |buf| && SkipType(buf, valuePos, WireType(f.value)) == Got((), end)
    ensures DecodeField(t, buf, pos) == Got(KnownField(t, f), end)
  {
    assert Tag(f) / 8 == f.num && Tag(f) % 8 == WireType(f.value);
    hide KindOf, DecodeValue, KnownValue, ReadUint32, SkipType, Tag, WireType;
  }

  /** Decoding stops exactly at the end of what was encoded, and gives what the type knows of it. */
  lemma {:induction false} FieldsBack(t: MsgType, fields: seq<Field>, buf: Bytes, pos: nat, soFar: seq<Field>)
    requires Readable(t, fields) && At(buf, pos, Encode(fields)) && |Encode(fields)| < TWO_32
    ensures Decode(t, buf, pos, pos + |Encode(fields)|, soFar) == Got(soFar + Known(t, fields), pos + |Encode(fields)|)
    decreases fields, 2
  {
    hide *;
    if fields == [] {
      NothingToDecode(t, buf, pos, soFar);
    } else {
      var f, rest := fields[0], fields[1..];
      FirstAndRest(t, fields);
      AtConcat(buf, pos, EncodeField(f), Encode(rest));
      FieldBack(t, f, buf, pos);
      FieldsBack(t, rest, buf, pos + |EncodeField(f)|, soFar + KnownField(t, f));
      AtInside(buf, pos, EncodeField(f));
      DecodeOne(t, buf, pos, pos + |Encode(fields)|, soFar, KnownField(t, f), pos + |EncodeField(f)|);
      assert soFar + KnownField(t, f) + Known(t, rest) == soFar + (KnownField(t, f) + Known(t, rest));
    }
  }

  lemma NothingToDecode(t: MsgType, buf: Bytes, pos: nat, soFar: seq<Field>)
    requires At(buf, pos, Encode([]))
    ensures |Encode([])| == 0 && pos <= |buf| && Decode(t, buf, pos, pos, soFar) == Got(soFar + Known(t, []), pos)
  {
    assert soFar + [] == soFar;
  }

  lemma AtInside(buf: Bytes, pos: nat, b: Bytes)
    requires At(buf, pos, b)
    ensures pos + |b| <= |buf|
  {
  }

  lemma FirstAndRest(t: MsgType, fields: seq<Field>)
    requires Readable(t, fields) && fields != []
    ensures ReadableField(t, fields[0]) && Readable(t, fields[1..])
    ensures Encode(fields) == EncodeField(fields[0]) + Encode(fields[1..]) && |EncodeField(fields[0])| >= 1
    ensures Known(t, fields) == KnownField(t, fields[0]) + Known(t, fields[1..])
  {
    EncodedSomething(fields[0]);
    hide ReadableField, EncodeField, KnownField;
  }

  lemma DecodeOne(t: MsgType, buf: Bytes, pos: nat, end: nat, soFar: seq<Field>, found: seq<Field>, next: nat)
    requires pos < end && next <= |buf| && DecodeField(t, buf, pos) == Got(found, next)
    ensures pos <= |buf| && Decode(t, buf, pos, end, soFar) == Decode(t, buf, next, end, soFar + found)
  {
    hide DecodeField;
  }

  lemma EncodedSomething(f: Field)
    ensures |EncodeField(f)| >= 1
  {
  }

  // ----- fields that are all known

  ghost predicate FitsKind(v: Value, k: Kind)
    decreases v
  {
    match v
    case BoolValue(_) => k == BoolKind
    case BytesValue(_) => k == BytesKind
    case NumberValue(n) => k == NumberKind && n < TWO_53
    case MsgValue(fields) => k.MsgKind? && Fits(k.msgType, fields)
    case _ => false
  }

  ghost predicate FitsField(t: MsgType, f: Field)
    decreases f
  {
    KindOf(t, f.num).Some? && FitsKind(f.value, KindOf(t, f.num).value)
  }

  /** Every field is one the type knows, with a value of the right kind. */
  ghost predicate Fits(t: MsgType, fields: seq<Field>)
    decreases fields
  {
    forall i :: 0 <= i < |fields| ==> FitsField(t, fields[i])
  }

  lemma KnownNumber(t: MsgType, f: Field)
    requires KindOf(t, f.num).Some?
    ensures Tag(f) < TWO_32
  {
  }

  lemma {:induction false} FittingValue(v: Value, k: Kind)
    requires FitsKind(v, k)
    ensures ReadableValue(v, k) && KnownValue(k, v) == v
    decreases v, 0
  {
    if v.MsgValue? {
      FittingIsKnown(k.msgType, v.fields);
      hide Known, Readable, Fits;
    }
  }

  lemma {:induction false} FittingField(t: MsgType, f: Field)
    requires FitsField(t, f)
    ensures ReadableField(t, f) && KnownField(t, f) == [f]
    decreases f, 0
  {
    KnownNumber(t, f);
    FittingValue(f.value, KindOf(t, f.num).value);
  }

  /** Nothing is lost of fields that are all known. */
  lemma {:induction false} FittingIsKnown(t: MsgType, fields: seq<Field>)
    requires Fits(t, fields)
    ensures Readable(t, fields) && Known(t, fields) == fields
    decreases fields, 1
  {
    if fields != [] {
      var f := fields[0];
      assert FitsField(t, f);
      FittingField(t, f);
      FittingIsKnown(t, fields[1..]);
      hide ReadableField, KnownField, FitsField;
      assert fields == [f] + fields[1..];
    }
  }
}
