/** Encoding and decoding RPCs: the writer and reader loops, and the round trip. */
module RpcCodec {
  import opened Seqs
  import opened Wire
  import opened RpcSchema
  import opened Rpc
  import opened RpcBytes

  // ----- the loops

  /** Writes the fields in order; unless told otherwise, as a record with its length in front. */
  method EncodeMessage(fields: seq<Field>, w: Writer, lengthDelimited: bool)
    modifies w
    ensures w.stack == old(w.stack)
    ensures w.buf == old(w.buf) + if lengthDelimited then Delimited(Encode(fields)) else Encode(fields)
    decreases fields, 2
  {
    hide Encode, Delimited;
    if lengthDelimited {
      w.Fork();
      EncodeFields(fields, w);
      assert [] + Encode(fields) == Encode(fields);
      w.Ldelim();
    } else {
      EncodeFields(fields, w);
    }
  }

  method EncodeFields(fields: seq<Field>, w: Writer)
    modifies w
    ensures w.stack == old(w.stack) && w.buf == old(w.buf) + Encode(fields)
    decreases fields, 1
  {
    ghost var start := w.buf;
    assert start + Encode(fields[..0]) == start;
    hide Encode, EncodeField;
    for i := 0 to |fields|
      invariant w.stack == old(w.stack) && w.buf == start + Encode(fields[..i])
    {
      EncodeNext(fields, i);
      EncodeOneField(fields[i], w);
    }
    assert fields[..|fields|] == fields;
  }

  method EncodeOneField(f: Field, w: Writer)
    modifies w
    ensures w.stack == old(w.stack) && w.buf == old(w.buf) + EncodeField(f)
    decreases f, 0
  {
    hide Varint, EncodeValue;
    Assoc(w.buf, Varint(Tag(f) % TWO_32), EncodeValue(f.value));
    w.Uint32(f.num * 8 + WireType(f.value));
    hide Tag, WireType;
    EncodeOneValue(f.value, w);
  }

  method EncodeOneValue(v: Value, w: Writer)
    modifies w
    ensures w.stack == old(w.stack) && w.buf == old(w.buf) + EncodeValue(v)
    decreases v, 3
  {
    hide Varint, Encode, Delimited, LittleEndian;
    match v {
      case BoolValue(b) => w.Bool(b);
      case BytesValue(bytes) => w.PutBytes(bytes);
      case NumberValue(n) => w.Uint64Number(n);
      case MsgValue(fields) => EncodeMessage(fields, w, true);
      case Fixed64Value(n) => w.Fixed(n, 8);
      case Fixed32Value(n) => w.Fixed(n, 4);
      case GroupValue(fields, endNum) =>
        Assoc(w.buf, Encode(fields), EndOfGroup(endNum));
        EncodeFields(fields, w);
        w.Uint32(endNum * 8 + END_GROUP);
    }
  }

  lemma Assoc(a: Bytes, b: Bytes, c: Bytes)
    ensures a + (b + c) == a + b + c
  {
  }

  method EncodeRpc(rpc: RPC) returns (b: Bytes)
    ensures b == Encode(RpcFields(rpc)) && b == Encoding(rpc)
  {
    EncodingIs(rpc);
    hide Encoding;
    var w := new Writer();
    EncodeMessage(RpcFields(rpc), w, false);
    b := w.buf;
  }

  /** Reads fields until the position reaches the end: that of the buffer, or the one the length says. */
  method DecodeMessage(t: MsgType, reader: Reader, length: Option<nat>) returns (obj: Option<seq<Field>>)
    requires reader.Valid()
    modifies reader
    ensures reader.Valid()
    ensures var end := if length.Some? then old(reader.pos) + length.value else |reader.buf|;
            match Decode(t, reader.buf, old(reader.pos), end, [])
            case Got(fields, p) => obj == Some(fields) && reader.pos == p
            case Failed => obj == None
    decreases Depth(t), 2
  {
    var fields: seq<Field> := [];
    ghost var start := reader.pos;
    var end := if length.None? then |reader.buf| else reader.pos + length.value;
    hide DecodeField;
    while reader.pos < end
      invariant reader.Valid()
      invariant Decode(t, reader.buf, start, end, []) == Decode(t, reader.buf, reader.pos, end, fields)
      decreases |reader.buf| - reader.pos
    {
      var found := DecodeNextField(t, reader);
      if found.None? {
        return None;
      }
      fields := fields + found.value;
    }
    return Some(fields);
  }

  /** A tag, and the value of the field if the type knows it; other fields are skipped. */
  method DecodeNextField(t: MsgType, reader: Reader) returns (r: Option<seq<Field>>)
    requires reader.Valid()
    modifies reader
    ensures reader.Valid()
    ensures match DecodeField(t, reader.buf, old(reader.pos))
            case Got(fields, p) => r == Some(fields) && reader.pos == p
            case Failed => r == None
    decreases Depth(t), 1
  {
    hide KindOf, SkipType, DecodeValue, ReadUint32;
    var tag := reader.Uint32();
    if tag.None? {
      return None;
    }
    match KindOf(t, tag.value / 8) {
      case None =>
        var skipped := reader.Skip(tag.value % 8);
        return if skipped.None? then None else Some([]);
      case Some(k) =>
        NestedShallower(t, tag.value / 8);
        var v := DecodeFieldValue(k, reader);
        return if v.None? then None else Some([Field(tag.value / 8, v.value)]);
    }
  }

  method DecodeFieldValue(k: Kind, reader: Reader) returns (r: Option<Value>)
    requires reader.Valid()
    modifies reader
    ensures reader.Valid()
    ensures match DecodeValue(k, reader.buf, old(reader.pos))
            case Got(v, p) => r == Some(v) && reader.pos == p
            case Failed => r == None
    decreases if k.MsgKind? then Depth(k.msgType) + 1 else 0, 0
  {
    hide Decode, ReadUint32, ReadUint64, ReadBytes;
    match k {
      case BoolKind =>
        var n := reader.Uint32();
        return if n.None? then None else Some(BoolValue(n.value != 0));
      case BytesKind =>
        var b := reader.TakeBytes();
        return if b.None? then None else Some(BytesValue(b.value));
      case NumberKind =>
        var n := reader.Uint64Number();
        return if n.None? then None else Some(NumberValue(n.value));
      case MsgKind(t) =>
        var length := reader.Uint32();
        if length.None? {
          return None;
        }
        var fields := DecodeMessage(t, reader, length);
        return if fields.None? then None else Some(MsgValue(fields.value));
    }
  }

  /** What decoding a buffer gives; `None` when the decoder throws. */
  function Decoded(buf: Bytes): Option<RPC> {
    match Decode(RpcType, buf, 0, |buf|, [])
    case Got(fields, _) => Some(RpcOf(fields))
    case Failed => None
  }

  method DecodeRpc(buf: Bytes) returns (rpc: Option<RPC>)
    ensures rpc == Decoded(buf)
  {
    var reader := new Reader(buf);
    hide Decode;
    var fields := DecodeMessage(RpcType, reader, None);
    return if fields.None? then None else Some(RpcOf(fields.value));
  }

  lemma EncodeNext(fields: seq<Field>, i: nat)
    requires i < |fields|
    ensures Encode(fields[..i + 1]) == Encode(fields[..i]) + EncodeField(fields[i])
  {
    EncodeBoth(fields[..i], [fields[i]]);
    assert fields[..i + 1] == fields[..i] + [fields[i]];
    assert Encode([fields[i]]) == EncodeField(fields[i]) + Encode([]) == EncodeField(fields[i]);
  }

  // ----- every RPC fits the schema

  /** Backoffs are numbers that are exact as doubles. */
  predicate SafeBackoff(o: ControlPrune) { o.backoff.Some? ==> o.backoff.value < TWO_53 }

  predicate SafeBackoffs(rpc: RPC) { rpc.control.Some? ==> forall o :: o in rpc.control.value.prune ==> SafeBackoff(o) }

  lemma {:induction false} EachFits<A>(t: MsgType, num: nat, xs: seq<A>, value: A -> Value)
    requires KindOf(t, num).Some? && forall x :: x in xs ==> FitsKind(value(x), KindOf(t, num).value)
    ensures Fits(t, Each(num, xs, value))
  {
    hide FitsKind, KindOf;
    if xs != [] {
      EachFits(t, num, xs[..|xs| - 1], value);
      assert xs[|xs| - 1] in xs;
      assert FitsField(t, Field(num, value(xs[|xs| - 1])));
    }
  }

  lemma OptFits<A>(t: MsgType, num: nat, x: Option<A>, value: A -> Value)
    requires KindOf(t, num).Some? && (x.Some? ==> FitsKind(value(x.value), KindOf(t, num).value))
    ensures Fits(t, Opt(num, x, value))
  {
    hide FitsKind, KindOf;
    if x.Some? {
      assert FitsField(t, Field(num, value(x.value)));
    }
  }

  lemma {:induction false} PartsFit(t: MsgType, parts: seq<seq<Field>>)
    requires forall i :: 0 <= i < |parts| ==> Fits(t, parts[i])
    ensures Fits(t, Parts(parts))
  {
    if parts != [] {
      PartsFit(t, parts[..|parts| - 1]);
      assert Fits(t, parts[|parts| - 1]);
      hide FitsField;
    }
  }

  lemma SubOptsFits(o: SubOpts)
    ensures FitsKind(SubOptsValue(o), MsgKind(SubOptsType))
  {
    OptFits(SubOptsType, 1, o.subscribe, OfBool);
    OptFits(SubOptsType, 2, o.topic, OfBytes);
    hide Fits, Opt, Parts;
    PartsFit(SubOptsType, [Opt(1, o.subscribe, OfBool), Opt(2, o.topic, OfBytes)]);
  }

  lemma MessageFits(o: Message)
    ensures FitsKind(MessageValue(o), MsgKind(MessageType))
  {
    var topic := if o.topic != [] then Some(o.topic) else None;
    OptFits(MessageType, 1, o.from, OfBytes);
    OptFits(MessageType, 2, o.data, OfBytes);
    OptFits(MessageType, 3, o.seqno, OfBytes);
    OptFits(MessageType, 4, topic, OfBytes);
    OptFits(MessageType, 5, o.signature, OfBytes);
    OptFits(MessageType, 6, o.key, OfBytes);
    hide Fits, Opt, Parts;
    PartsFit(MessageType, [Opt(1, o.from, OfBytes), Opt(2, o.data, OfBytes), Opt(3, o.seqno, OfBytes),
                           Opt(4, topic, OfBytes), Opt(5, o.signature, OfBytes), Opt(6, o.key, OfBytes)]);
  }

  lemma IHaveFits(o: ControlIHave)
    ensures FitsKind(IHaveValue(o), MsgKind(IHaveType))
  {
    OptFits(IHaveType, 1, o.topicID, OfBytes);
    EachFits(IHaveType, 2, o.messageIDs, OfBytes);
    hide Fits, Opt, Each, Parts;
    PartsFit(IHaveType, [Opt(1, o.topicID, OfBytes), Each(2, o.messageIDs, OfBytes)]);
  }

  lemma IWantFits(o: ControlIWant)
    ensures FitsKind(IWantValue(o), MsgKind(IWantType))
  {
    EachFits(IWantType, 1, o.messageIDs, OfBytes);
    hide Fits, Each, Parts;
    PartsFit(IWantType, [Each(1, o.messageIDs, OfBytes)]);
  }

  lemma GraftFits(o: ControlGraft)
    ensures FitsKind(GraftValue(o), MsgKind(GraftType))
  {
    OptFits(GraftType, 1, o.topicID, OfBytes);
    hide Fits, Opt, Parts;
    PartsFit(GraftType, [Opt(1, o.topicID, OfBytes)]);
  }

  lemma PeerInfoFits(o: PeerInfo)
    ensures FitsKind(PeerInfoValue(o), MsgKind(PeerInfoType))
  {
    OptFits(PeerInfoType, 1, o.peerID, OfBytes);
    OptFits(PeerInfoType, 2, o.signedPeerRecord, OfBytes);
    hide Fits, Opt, Parts;
    PartsFit(PeerInfoType, [Opt(1, o.peerID, OfBytes), Opt(2, o.signedPeerRecord, OfBytes)]);
  }

  lemma PruneFits(o: ControlPrune)
    requires SafeBackoff(o)
    ensures FitsKind(PruneValue(o), MsgKind(PruneType))
  {
    forall x | x in o.peers ensures FitsKind(PeerInfoValue(x), MsgKind(PeerInfoType)) {
      PeerInfoFits(x);
    }
    OptFits(PruneType, 1, o.topicID, OfBytes);
    hide PeerInfoValue;
    EachFits(PruneType, 2, o.peers, PeerInfoValue);
    OptFits(PruneType, 3, o.backoff, OfNumber);
    hide Fits, Opt, Each, Parts;
    PartsFit(PruneType, [Opt(1, o.topicID, OfBytes), Each(2, o.peers, PeerInfoValue), Opt(3, o.backoff, OfNumber)]);
  }

  lemma IDontWantFits(o: ControlIDontWant)
    ensures FitsKind(IDontWantValue(o), MsgKind(IDontWantType))
  {
    EachFits(IDontWantType, 1, o.messageIDs, OfBytes);
    hide Fits, Each, Parts;
    PartsFit(IDontWantType, [Each(1, o.messageIDs, OfBytes)]);
  }

  lemma ControlFits(o: ControlMessage)
    requires forall x :: x in o.prune ==> SafeBackoff(x)
    ensures FitsKind(ControlValue(o), MsgKind(ControlType))
  {
    ControlPartsFit(o);
    hide Fits, Each, Parts;
    PartsFit(ControlType, [Each(1, o.ihave, IHaveValue), Each(2, o.iwant, IWantValue), Each(3, o.graft, GraftValue),
                           Each(4, o.prune, PruneValue), Each(5, o.idontwant, IDontWantValue)]);
  }

  lemma ControlPartsFit(o: ControlMessage)
    requires forall x :: x in o.prune ==> SafeBackoff(x)
    ensures Fits(ControlType, Each(1, o.ihave, IHaveValue)) && Fits(ControlType, Each(2, o.iwant, IWantValue))
    ensures Fits(ControlType, Each(3, o.graft, GraftValue)) && Fits(ControlType, Each(4, o.prune, PruneValue))
    ensures Fits(ControlType, Each(5, o.idontwant, IDontWantValue))
  {
    ControlKinds();
    hide *;
    forall x | x in o.ihave ensures FitsKind(IHaveValue(x), MsgKind(IHaveType)) { IHaveFits(x); }
    forall x | x in o.iwant ensures FitsKind(IWantValue(x), MsgKind(IWantType)) { IWantFits(x); }
    forall x | x in o.graft ensures FitsKind(GraftValue(x), MsgKind(GraftType)) { GraftFits(x); }
    forall x | x in o.prune ensures FitsKind(PruneValue(x), MsgKind(PruneType)) { PruneFits(x); }
    forall x | x in o.idontwant ensures FitsKind(IDontWantValue(x), MsgKind(IDontWantType)) { IDontWantFits(x); }
    EachFits(ControlType, 1, o.ihave, IHaveValue);
    EachFits(ControlType, 2, o.iwant, IWantValue);
    EachFits(ControlType, 3, o.graft, GraftValue);
    EachFits(ControlType, 4, o.prune, PruneValue);
    EachFits(ControlType, 5, o.idontwant, IDontWantValue);
  }

  lemma ControlKinds()
    ensures KindOf(ControlType, 1) == Some(MsgKind(IHaveType)) && KindOf(ControlType, 2) == Some(MsgKind(IWantType))
    ensures KindOf(ControlType, 3) == Some(MsgKind(GraftType)) && KindOf(ControlType, 4) == Some(MsgKind(PruneType))
    ensures KindOf(ControlType, 5) == Some(MsgKind(IDontWantType))
    ensures KindOf(RpcType, 1) == Some(MsgKind(SubOptsType)) && KindOf(RpcType, 2) == Some(MsgKind(MessageType))
    ensures KindOf(RpcType, 3) == Some(MsgKind(ControlType))
  {
  }

  lemma RpcFits(o: RPC)
    requires SafeBackoffs(o)
    ensures Fits(RpcType, RpcFields(o))
  {
    RpcPartsFit(o);
    hide Fits, Opt, Each, Parts;
    PartsFit(RpcType, [Each(1, o.subscriptions, SubOptsValue), Each(2, o.messages, MessageValue),
                       Opt(3, o.control, ControlValue)]);
  }

  lemma RpcPartsFit(o: RPC)
    requires SafeBackoffs(o)
    ensures Fits(RpcType, Each(1, o.subscriptions, SubOptsValue)) && Fits(RpcType, Each(2, o.messages, MessageValue))
    ensures Fits(RpcType, Opt(3, o.control, ControlValue))
  {
    ControlKinds();
    hide *;
    forall x | x in o.subscriptions ensures FitsKind(SubOptsValue(x), MsgKind(SubOptsType)) { SubOptsFits(x); }
    forall x | x in o.messages ensures FitsKind(MessageValue(x), MsgKind(MessageType)) { MessageFits(x); }
    EachFits(RpcType, 1, o.subscriptions, SubOptsValue);
    EachFits(RpcType, 2, o.messages, MessageValue);
    if o.control.Some? {
      SafeControl(o);
      ControlFits(o.control.value);
    }
    OptFits(RpcType, 3, o.control, ControlValue);
  }

  lemma SafeControl(o: RPC)
    requires SafeBackoffs(o) && o.control.Some?
    ensures forall x :: x in o.control.value.prune ==> SafeBackoff(x)
  {
  }

  // ----- the round trip

  /** Decoding what was encoded gives the RPC back. */
  lemma RoundTrip(rpc: RPC)
    requires SafeBackoffs(rpc) && |Encode(RpcFields(rpc))| < TWO_32
    ensures Decoded(Encode(RpcFields(rpc))) == Some(rpc)
  {
    hide *;
    RpcFits(rpc);
    RpcBack(rpc);
    FittingIsKnown(RpcType, RpcFields(rpc));
    DecodedBack(RpcFields(rpc));
  }

  /** Fields a decoder does not know, of any wire type and at any depth, change nothing of what it decodes. */
  lemma UnknownFieldsIgnored(fields: seq<Field>, rpc: RPC)
    requires Readable(RpcType, fields) && Known(RpcType, fields) == RpcFields(rpc) && |Encode(fields)| < TWO_32
    ensures Decoded(Encode(fields)) == Some(rpc)
  {
    hide *;
    RpcBack(rpc);
    DecodedBack(fields);
  }

  lemma DecodedBack(fields: seq<Field>)
    requires Readable(RpcType, fields) && |Encode(fields)| < TWO_32
    ensures Decoded(Encode(fields)) == Some(RpcOf(Known(RpcType, fields)))
  {
    var buf := Encode(fields);
    WholeBuffer(buf);
    hide RpcOf, Encode, Decode, Readable, Known, At;
    FieldsBack(RpcType, fields, buf, 0, []);
    assert [] + Known(RpcType, fields) == Known(RpcType, fields);
  }

  lemma WholeBuffer(buf: Bytes)
    ensures At(buf, 0, buf)
  {
  }

  /** Different RPCs have different encodings. */
  lemma EncodingInjective(a: RPC, b: RPC)
    requires SafeBackoffs(a) && |Encode(RpcFields(a))| < TWO_32
    requires SafeBackoffs(b) && Encode(RpcFields(a)) == Encode(RpcFields(b))
    ensures a == b
  {
    RoundTrip(a);
    RoundTrip(b);
    hide *;
  }

  /** So a buffer of these tags and records, in this order, is decoded to the RPC it was written for. */
  lemma DecodingIs(rpc: RPC)
    requires SafeBackoffs(rpc) && |Encoding(rpc)| < TWO_32
    ensures Decoded(Encoding(rpc)) == Some(rpc)
  {
    hide *;
    EncodingIs(rpc);
    RoundTrip(rpc);
  }

  /** Of two RPCs written one after the other the lists are joined, and the later control message stands. */
  lemma ConcatenationJoins(a: RPC, b: RPC)
    requires SafeBackoffs(a) && SafeBackoffs(b) && |Encoding(a) + Encoding(b)| < TWO_32
    ensures Decoded(Encoding(a) + Encoding(b))
         == Some(RPC(a.subscriptions + b.subscriptions, a.messages + b.messages,
                     if b.control.Some? then b.control else a.control))
  {
    hide *;
    var fields := RpcFields(a) + RpcFields(b);
    EncodingIs(a);
    EncodingIs(b);
    EncodeBoth(RpcFields(a), RpcFields(b));
    RpcFits(a);
    RpcFits(b);
    FitsBoth(RpcFields(a), RpcFields(b));
    FittingIsKnown(RpcType, fields);
    DecodedBack(fields);
    RpcsJoined(a, b);
  }

  lemma FitsBoth(a: seq<Field>, b: seq<Field>)
    requires Fits(RpcType, a) && Fits(RpcType, b)
    ensures Fits(RpcType, a + b)
  {
    hide FitsField;
  }

  lemma RpcsJoined(a: RPC, b: RPC)
    ensures RpcOf(RpcFields(a) + RpcFields(b))
         == RPC(a.subscriptions + b.subscriptions, a.messages + b.messages,
                if b.control.Some? then b.control else a.control)
  {
    RpcBack(a);
    RpcBack(b);
    var x, y := RpcFields(a), RpcFields(b);
    AllConcat(x, y, 1, SubOptsOf);
    AllConcat(x, y, 2, MessageOf);
    AllConcat(x, y, 3, ControlOf);
    hide All, Last, RpcFields, SubOptsOf, MessageOf, ControlOf;
  }

  /** A field with a number above those of an RPC changes nothing, whatever it holds. */
  lemma HigherFieldIgnored(rpc: RPC, f: Field)
    requires SafeBackoffs(rpc) && f.num >= 4 && Tag(f) < TWO_32 && |Encoding(rpc) + EncodeField(f)| < TWO_32
    ensures Decoded(Encoding(rpc) + EncodeField(f)) == Some(rpc)
  {
    assert KindOf(RpcType, f.num) == None;
    hide *;
    var fields := RpcFields(rpc) + [f];
    EncodingIs(rpc);
    EncodeLast(RpcFields(rpc), f);
    RpcFits(rpc);
    FittingIsKnown(RpcType, RpcFields(rpc));
    OneUnknown(RpcFields(rpc), f);
    RpcBack(rpc);
    DecodedBack(fields);
  }

  lemma {:induction false} OneUnknown(fields: seq<Field>, f: Field)
    requires Readable(RpcType, fields) && KindOf(RpcType, f.num) == None && Tag(f) < TWO_32
    ensures Readable(RpcType, fields + [f]) && Known(RpcType, fields + [f]) == Known(RpcType, fields)
  {
    KnownLast(fields, f);
    hide Known, ReadableField;
    assert ReadableField(RpcType, f) by { UnknownReadable(f); }
  }

  lemma UnknownReadable(f: Field)
    requires KindOf(RpcType, f.num) == None && Tag(f) < TWO_32
    ensures ReadableField(RpcType, f)
  {
  }

  lemma {:induction false} KnownLast(fields: seq<Field>, f: Field)
    requires KindOf(RpcType, f.num) == None
    ensures Known(RpcType, fields + [f]) == Known(RpcType, fields)
  {
    hide KindOf;
    if fields == [] {
      assert fields + [f] == [f] && [f][1..] == [];
    } else {
      KnownLast(fields[1..], f);
      assert (fields + [f])[0] == fields[0] && (fields + [f])[1..] == fields[1..] + [f];
    }
  }
}
