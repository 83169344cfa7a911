/** The bytes of an RPC, tag by tag as the protocol's messages are written. */
module RpcBytes {
  import opened Seqs
  import opened Wire
  import opened RpcSchema
  import opened Rpc

  // ----- records

  /** A tag byte, a length, and as many bytes. */
  function Rec(tag: Byte, content: Bytes): Bytes { [tag] + Varint(|content| % TWO_32) + content }

  function OptRec(tag: Byte, x: Option<Bytes>): Bytes { if x.Some? then Rec(tag, x.value) else [] }

  function Recs<A>(tag: Byte, xs: seq<A>, bytes: A -> Bytes): Bytes {
    if xs == [] then [] else Recs(tag, xs[..|xs| - 1], bytes) + Rec(tag, bytes(xs[|xs| - 1]))
  }

  function Cat(bs: seq<Bytes>): Bytes { if bs == [] then [] else Cat(bs[..|bs| - 1]) + bs[|bs| - 1] }

  function Itself(b: Bytes): Bytes { b }

  // ----- the ten messages

  function SubOptsBytes(o: SubOpts): Bytes {
    Cat([if o.subscribe.Some? then [8, if o.subscribe.value then 1 else 0] else [], OptRec(18, o.topic)])
  }

  function MessageBytes(o: Message): Bytes {
    Cat([OptRec(10, o.from), OptRec(18, o.data), OptRec(26, o.seqno), if o.topic != [] then Rec(34, o.topic) else [],
         OptRec(42, o.signature), OptRec(50, o.key)])
  }

  function IHaveBytes(o: ControlIHave): Bytes { Cat([OptRec(10, o.topicID), Recs(18, o.messageIDs, Itself)]) }

  function IWantBytes(o: ControlIWant): Bytes { Cat([Recs(10, o.messageIDs, Itself)]) }

  function GraftBytes(o: ControlGraft): Bytes { Cat([OptRec(10, o.topicID)]) }

  function PeerInfoBytes(o: PeerInfo): Bytes { Cat([OptRec(10, o.peerID), OptRec(18, o.signedPeerRecord)]) }

  function PruneBytes(o: ControlPrune): Bytes {
    Cat([OptRec(10, o.topicID), Recs(18, o.peers, PeerInfoBytes),
         if o.backoff.Some? then [24] + Varint(o.backoff.value % TWO_64) else []])
  }

  function IDontWantBytes(o: ControlIDontWant): Bytes { Cat([Recs(10, o.messageIDs, Itself)]) }

  function ControlBytes(o: ControlMessage): Bytes {
    Cat([Recs(10, o.ihave, IHaveBytes), Recs(18, o.iwant, IWantBytes), Recs(26, o.graft, GraftBytes),
         Recs(34, o.prune, PruneBytes), Recs(42, o.idontwant, IDontWantBytes)])
  }

  function Encoding(o: RPC): Bytes {
    Cat([Recs(10, o.subscriptions, SubOptsBytes), Recs(18, o.messages, MessageBytes),
         if o.control.Some? then Rec(26, ControlBytes(o.control.value)) else []])
  }

  // ----- fields are records

  lemma ShortVarint(n: nat)
    requires n < 128
    ensures Varint(n) == [n] && n % TWO_32 == n
  {
  }

  /** Fields numbered up to 15 have a tag of one byte. */
  lemma FieldRec(num: nat, v: Value, content: Bytes)
    requires num < 16 && WireType(v) == 2 && EncodeValue(v) == Delimited(content)
    ensures EncodeField(Field(num, v)) == Rec(num * 8 + 2, content)
  {
    ShortVarint(num * 8 + 2);
    hide EncodeValue, WireType, Varint;
  }

  lemma {:induction false} EncodeLast(fields: seq<Field>, f: Field)
    ensures Encode(fields + [f]) == Encode(fields) + EncodeField(f)
  {
    hide EncodeField;
    if fields == [] {
      assert [f][1..] == [] && fields + [f] == [f];
    } else {
      assert (fields + [f])[0] == fields[0] && (fields + [f])[1..] == fields[1..] + [f];
      EncodeLast(fields[1..], f);
    }
  }

  lemma {:induction false} EncodeBoth(a: seq<Field>, b: seq<Field>)
    ensures Encode(a + b) == Encode(a) + Encode(b)
  {
    if b == [] {
      assert a + b == a && Encode(b) == [];
    } else {
      var front, f := b[..|b| - 1], b[|b| - 1];
      assert a + b == a + front + [f] && b == front + [f];
      hide *;
      EncodeBoth(a, front);
      EncodeLast(a + front, f);
      EncodeLast(front, f);
      assert Encode(a) + (Encode(front) + EncodeField(f)) == Encode(a) + Encode(front) + EncodeField(f);
    }
  }

  lemma OneField(f: Field)
    ensures Encode([f]) == EncodeField(f)
  {
    hide EncodeField;
    assert [f][1..] == [];
  }

  lemma {:induction false} EachRecs<A>(num: nat, xs: seq<A>, value: A -> Value, bytes: A -> Bytes)
    requires num < 16
    requires forall x :: x in xs ==> WireType(value(x)) == 2 && EncodeValue(value(x)) == Delimited(bytes(x))
    ensures Encode(Each(num, xs, value)) == Recs(num * 8 + 2, xs, bytes)
  {
    hide EncodeField, EncodeValue, WireType, Delimited, Rec;
    if xs == [] {
    } else {
      var front, x := xs[..|xs| - 1], xs[|xs| - 1];
      assert x in xs && forall y :: y in front ==> y in xs;
      EachRecs(num, front, value, bytes);
      hide Encode;
      EncodeLast(Each(num, front, value), Field(num, value(x)));
      FieldRec(num, value(x), bytes(x));
    }
  }

  lemma BytesRec(num: nat, x: Option<Bytes>)
    requires num < 16
    ensures Encode(Opt(num, x, OfBytes)) == OptRec(num * 8 + 2, x)
  {
    if x.Some? {
      assert EncodeValue(BytesValue(x.value)) == Delimited(x.value);
      FieldRec(num, BytesValue(x.value), x.value);
      hide EncodeField, Rec;
      OneField(Field(num, BytesValue(x.value)));
    }
  }

  lemma ListRecs(num: nat, xs: seq<Bytes>)
    requires num < 16
    ensures Encode(Each(num, xs, OfBytes)) == Recs(num * 8 + 2, xs, Itself)
  {
    forall x | x in xs ensures WireType(OfBytes(x)) == 2 && EncodeValue(OfBytes(x)) == Delimited(Itself(x)) {
    }
    hide Delimited, EncodeValue, WireType;
    EachRecs(num, xs, OfBytes, Itself);
  }

  /** A message is written part by part. */
  lemma {:induction false} PartsCat(parts: seq<seq<Field>>, bs: seq<Bytes>)
    requires |parts| == |bs| && forall i :: 0 <= i < |parts| ==> Encode(parts[i]) == bs[i]
    ensures Encode(Parts(parts)) == Cat(bs)
  {
    if parts != [] {
      var n := |parts| - 1;
      PartsCat(parts[..n], bs[..n]);
      hide Encode;
      EncodeBoth(Parts(parts[..n]), parts[n]);
    }
  }

  lemma ValueOf(parts: seq<seq<Field>>, bs: seq<Bytes>)
    requires |parts| == |bs| && forall i :: 0 <= i < |parts| ==> Encode(parts[i]) == bs[i]
    ensures EncodeValue(MsgValue(Parts(parts))) == Delimited(Cat(bs)) && WireType(MsgValue(Parts(parts))) == 2
  {
    PartsCat(parts, bs);
    hide Encode, Parts, Cat;
  }

  // ----- the messages are written so

  lemma SubOptsWritten(o: SubOpts)
    ensures EncodeValue(SubOptsValue(o)) == Delimited(SubOptsBytes(o)) && WireType(SubOptsValue(o)) == 2
  {
    BoolField(1, o.subscribe);
    BytesRec(2, o.topic);
    var bs := [if o.subscribe.Some? then [8, if o.subscribe.value then 1 else 0] else [], OptRec(18, o.topic)];
    hide Encode, Opt, OptRec, EncodeValue, WireType;
    ValueOf([Opt(1, o.subscribe, OfBool), Opt(2, o.topic, OfBytes)], bs);
  }

  lemma BoolField(num: nat, x: Option<bool>)
    requires num < 16
    ensures Encode(Opt(num, x, OfBool)) == if x.Some? then [num * 8, if x.value then 1 else 0] else []
  {
    if x.Some? {
      ShortVarint(num * 8);
      OneField(Field(num, BoolValue(x.value)));
      hide Encode, Varint;
      assert [num * 8] + [if x.value then 1 else 0] == [num * 8, if x.value then 1 else 0];
    }
  }

  lemma NumberField(num: nat, x: Option<nat>)
    requires num < 16
    ensures Encode(Opt(num, x, OfNumber)) == if x.Some? then [num * 8] + Varint(x.value % TWO_64) else []
  {
    if x.Some? {
      ShortVarint(num * 8);
      OneField(Field(num, NumberValue(x.value)));
      hide Encode, Varint;
    }
  }

  lemma MessageWritten(o: Message)
    ensures EncodeValue(MessageValue(o)) == Delimited(MessageBytes(o)) && WireType(MessageValue(o)) == 2
  {
    BytesRec(1, o.from);
    BytesRec(2, o.data);
    BytesRec(3, o.seqno);
    var topic := if o.topic != [] then Some(o.topic) else None;
    BytesRec(4, topic);
    BytesRec(5, o.signature);
    BytesRec(6, o.key);
    assert OptRec(34, topic) == if o.topic != [] then Rec(34, o.topic) else [];
    var bs := [OptRec(10, o.from), OptRec(18, o.data), OptRec(26, o.seqno),
               if o.topic != [] then Rec(34, o.topic) else [], OptRec(42, o.signature), OptRec(50, o.key)];
    hide Encode, Opt, OptRec, Rec, EncodeValue, WireType;
    ValueOf([Opt(1, o.from, OfBytes), Opt(2, o.data, OfBytes), Opt(3, o.seqno, OfBytes), Opt(4, topic, OfBytes),
             Opt(5, o.signature, OfBytes), Opt(6, o.key, OfBytes)], bs);
  }

  lemma IHaveWritten(o: ControlIHave)
    ensures EncodeValue(IHaveValue(o)) == Delimited(IHaveBytes(o)) && WireType(IHaveValue(o)) == 2
  {
    BytesRec(1, o.topicID);
    ListRecs(2, o.messageIDs);
    hide Encode, Opt, Each, OptRec, Recs, EncodeValue, WireType;
    ValueOf([Opt(1, o.topicID, OfBytes), Each(2, o.messageIDs, OfBytes)],
            [OptRec(10, o.topicID), Recs(18, o.messageIDs, Itself)]);
  }

  lemma IWantWritten(o: ControlIWant)
    ensures EncodeValue(IWantValue(o)) == Delimited(IWantBytes(o)) && WireType(IWantValue(o)) == 2
  {
    ListRecs(1, o.messageIDs);
    hide Encode, Each, Recs, EncodeValue, WireType;
    ValueOf([Each(1, o.messageIDs, OfBytes)], [Recs(10, o.messageIDs, Itself)]);
  }

  lemma GraftWritten(o: ControlGraft)
    ensures EncodeValue(GraftValue(o)) == Delimited(GraftBytes(o)) && WireType(GraftValue(o)) == 2
  {
    BytesRec(1, o.topicID);
    hide Encode, Opt, OptRec, EncodeValue, WireType;
    ValueOf([Opt(1, o.topicID, OfBytes)], [OptRec(10, o.topicID)]);
  }

  lemma PeerInfoWritten(o: PeerInfo)
    ensures EncodeValue(PeerInfoValue(o)) == Delimited(PeerInfoBytes(o)) && WireType(PeerInfoValue(o)) == 2
  {
    BytesRec(1, o.peerID);
    BytesRec(2, o.signedPeerRecord);
    hide Encode, Opt, OptRec, EncodeValue, WireType;
    ValueOf([Opt(1, o.peerID, OfBytes), Opt(2, o.signedPeerRecord, OfBytes)],
            [OptRec(10, o.peerID), OptRec(18, o.signedPeerRecord)]);
  }

  lemma PruneWritten(o: ControlPrune)
    ensures EncodeValue(PruneValue(o)) == Delimited(PruneBytes(o)) && WireType(PruneValue(o)) == 2
  {
    BytesRec(1, o.topicID);
    forall x | x in o.peers
      ensures WireType(PeerInfoValue(x)) == 2 && EncodeValue(PeerInfoValue(x)) == Delimited(PeerInfoBytes(x))
    {
      PeerInfoWritten(x);
    }
    EachRecs(2, o.peers, PeerInfoValue, PeerInfoBytes);
    NumberField(3, o.backoff);
    hide Encode, Opt, Each, OptRec, Recs, EncodeValue, WireType;
    ValueOf([Opt(1, o.topicID, OfBytes), Each(2, o.peers, PeerInfoValue), Opt(3, o.backoff, OfNumber)],
            [OptRec(10, o.topicID), Recs(18, o.peers, PeerInfoBytes),
             if o.backoff.Some? then [24] + Varint(o.backoff.value % TWO_64) else []]);
  }

  lemma IDontWantWritten(o: ControlIDontWant)
    ensures EncodeValue(IDontWantValue(o)) == Delimited(IDontWantBytes(o)) && WireType(IDontWantValue(o)) == 2
  {
    ListRecs(1, o.messageIDs);
    hide Encode, Each, Recs, EncodeValue, WireType;
    ValueOf([Each(1, o.messageIDs, OfBytes)], [Recs(10, o.messageIDs, Itself)]);
  }

  lemma ControlWritten(o: ControlMessage)
    ensures EncodeValue(ControlValue(o)) == Delimited(ControlBytes(o)) && WireType(ControlValue(o)) == 2
  {
    hide EncodeValue, WireType, Delimited, Encode, Each, Recs;
    forall x ensures WireType(IHaveValue(x)) == 2 && EncodeValue(IHaveValue(x)) == Delimited(IHaveBytes(x)) {
      IHaveWritten(x);
    }
    forall x ensures WireType(IWantValue(x)) == 2 && EncodeValue(IWantValue(x)) == Delimited(IWantBytes(x)) {
      IWantWritten(x);
    }
    forall x ensures WireType(GraftValue(x)) == 2 && EncodeValue(GraftValue(x)) == Delimited(GraftBytes(x)) {
      GraftWritten(x);
    }
    forall x ensures WireType(PruneValue(x)) == 2 && EncodeValue(PruneValue(x)) == Delimited(PruneBytes(x)) {
      PruneWritten(x);
    }
    forall x
      ensures WireType(IDontWantValue(x)) == 2 && EncodeValue(IDontWantValue(x)) == Delimited(IDontWantBytes(x))
    {
      IDontWantWritten(x);
    }
    hide IHaveValue, IWantValue, GraftValue, PruneValue, IDontWantValue;
    EachRecs(1, o.ihave, IHaveValue, IHaveBytes);
    EachRecs(2, o.iwant, IWantValue, IWantBytes);
    EachRecs(3, o.graft, GraftValue, GraftBytes);
    EachRecs(4, o.prune, PruneValue, PruneBytes);
    EachRecs(5, o.idontwant, IDontWantValue, IDontWantBytes);
    ValueOf([Each(1, o.ihave, IHaveValue), Each(2, o.iwant, IWantValue), Each(3, o.graft, GraftValue),
             Each(4, o.prune, PruneValue), Each(5, o.idontwant, IDontWantValue)],
            [Recs(10, o.ihave, IHaveBytes), Recs(18, o.iwant, IWantBytes), Recs(26, o.graft, GraftBytes),
             Recs(34, o.prune, PruneBytes), Recs(42, o.idontwant, IDontWantBytes)]);
  }

  /** An RPC is written so: every message type by its tags, in order. */
  lemma EncodingIs(o: RPC)
    ensures Encode(RpcFields(o)) == Encoding(o)
  {
    hide EncodeValue, WireType, Delimited, Encode, Each, Recs, Rec;
    forall x ensures WireType(SubOptsValue(x)) == 2 && EncodeValue(SubOptsValue(x)) == Delimited(SubOptsBytes(x)) {
      SubOptsWritten(x);
    }
    forall x ensures WireType(MessageValue(x)) == 2 && EncodeValue(MessageValue(x)) == Delimited(MessageBytes(x)) {
      MessageWritten(x);
    }
    EachRecs(1, o.subscriptions, SubOptsValue, SubOptsBytes);
    EachRecs(2, o.messages, MessageValue, MessageBytes);
    ControlPart(o.control);
    hide SubOptsValue, MessageValue, ControlValue, Opt;
    PartsCat(RpcParts(o), [Recs(10, o.subscriptions, SubOptsBytes), Recs(18, o.messages, MessageBytes),
                           if o.control.Some? then Rec(26, ControlBytes(o.control.value)) else []]);
  }

  lemma ControlPart(x: Option<ControlMessage>)
    ensures Encode(Opt(3, x, ControlValue)) == if x.Some? then Rec(26, ControlBytes(x.value)) else []
  {
    if x.Some? {
      ControlWritten(x.value);
      hide ControlValue, EncodeValue, WireType, EncodeField, Rec;
      FieldRec(3, ControlValue(x.value), ControlBytes(x.value));
      OneField(Field(3, ControlValue(x.value)));
    } else {
      assert Encode([]) == [];
    }
  }
}
