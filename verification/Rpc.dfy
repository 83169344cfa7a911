/** RPCs and their parts, as objects and as the lists of fields that are written for them and read back. */
module Rpc {
  import opened Seqs
  import opened Wire
  import opened RpcSchema

  datatype SubOpts = SubOpts(subscribe: Option<bool>, topic: Option<Bytes>)

  /** The topic is not optional: it is left out when empty, and empty when left out. */
  datatype Message = Message(from: Option<Bytes>, data: Option<Bytes>, seqno: Option<Bytes>, topic: Bytes,
                             signature: Option<Bytes>, key: Option<Bytes>)

  datatype ControlIHave = ControlIHave(topicID: Option<Bytes>, messageIDs: seq<Bytes>)

  datatype ControlIWant = ControlIWant(messageIDs: seq<Bytes>)

  datatype ControlGraft = ControlGraft(topicID: Option<Bytes>)

  datatype PeerInfo = PeerInfo(peerID: Option<Bytes>, signedPeerRecord: Option<Bytes>)

  datatype ControlPrune = ControlPrune(topicID: Option<Bytes>, peers: seq<PeerInfo>, backoff: Option<nat>)

  datatype ControlIDontWant = ControlIDontWant(messageIDs: seq<Bytes>)

  datatype ControlMessage = ControlMessage(ihave: seq<ControlIHave>, iwant: seq<ControlIWant>, graft: seq<ControlGraft>,
                                           prune: seq<ControlPrune>, idontwant: seq<ControlIDontWant>)

  datatype RPC = RPC(subscriptions: seq<SubOpts>, messages: seq<Message>, control: Option<ControlMessage>)

  // ----- fields of an object, in the order in which they are written

  function OfBool(b: bool): Value { BoolValue(b) }

  function OfBytes(b: Bytes): Value { BytesValue(b) }

  function OfNumber(n: nat): Value { NumberValue(n) }

  /** A field written if it is there. */
  function Opt<A>(num: nat, x: Option<A>, value: A -> Value): seq<Field> {
    if x.Some? then [Field(num, value(x.value))] else []
  }

  /** A field written for each of the elements. */
  function Each<A>(num: nat, xs: seq<A>, value: A -> Value): seq<Field> {
    if xs == [] then [] else Each(num, xs[..|xs| - 1], value) + [Field(num, value(xs[|xs| - 1]))]
  }

  function Parts(parts: seq<seq<Field>>): seq<Field> {
    if parts == [] then [] else Parts(parts[..|parts| - 1]) + parts[|parts| - 1]
  }

  function SubOptsValue(o: SubOpts): Value { MsgValue(Parts([Opt(1, o.subscribe, OfBool), Opt(2, o.topic, OfBytes)])) }

  function MessageValue(o: Message): Value {
    MsgValue(Parts([Opt(1, o.from, OfBytes), Opt(2, o.data, OfBytes), Opt(3, o.seqno, OfBytes),
                    Opt(4, if o.topic != [] then Some(o.topic) else None, OfBytes),
                    Opt(5, o.signature, OfBytes), Opt(6, o.key, OfBytes)]))
  }

  function IHaveValue(o: ControlIHave): Value {
    MsgValue(Parts([Opt(1, o.topicID, OfBytes), Each(2, o.messageIDs, OfBytes)]))
  }

  function IWantValue(o: ControlIWant): Value { MsgValue(Parts([Each(1, o.messageIDs, OfBytes)])) }

  function GraftValue(o: ControlGraft): Value { MsgValue(Parts([Opt(1, o.topicID, OfBytes)])) }

  function PeerInfoValue(o: PeerInfo): Value {
    MsgValue(Parts([Opt(1, o.peerID, OfBytes), Opt(2, o.signedPeerRecord, OfBytes)]))
  }

  function PruneValue(o: ControlPrune): Value {
    MsgValue(Parts([Opt(1, o.topicID, OfBytes), Each(2, o.peers, PeerInfoValue), Opt(3, o.backoff, OfNumber)]))
  }

  function IDontWantValue(o: ControlIDontWant): Value { MsgValue(Parts([Each(1, o.messageIDs, OfBytes)])) }

  function ControlValue(o: ControlMessage): Value {
    MsgValue(Parts([Each(1, o.ihave, IHaveValue), Each(2, o.iwant, IWantValue), Each(3, o.graft, GraftValue),
                    Each(4, o.prune, PruneValue), Each(5, o.idontwant, IDontWantValue)]))
  }

  function RpcParts(o: RPC): seq<seq<Field>> {
    [Each(1, o.subscriptions, SubOptsValue), Each(2, o.messages, MessageValue), Opt(3, o.control, ControlValue)]
  }

  function RpcFields(o: RPC): seq<Field> { Parts(RpcParts(o)) }

  // ----- objects from the fields read: the last assignment to a field counts, lists take every push

  function AsBytes(v: Value): Bytes { if v.BytesValue? then v.bytes else [] }

  function AsFields(v: Value): seq<Field> { if v.MsgValue? then v.fields else [] }

  function AsBool(v: Value): bool { v.BoolValue? && v.b }

  function AsNumber(v: Value): nat { if v.NumberValue? then v.n else 0 }

  function Last<A>(fields: seq<Field>, num: nat, make: Value -> A): Option<A> {
    if fields == [] then None
    else
      var f := fields[|fields| - 1];
      if f.num == num then Some(make(f.value)) else Last(fields[..|fields| - 1], num, make)
  }

  function All<A>(fields: seq<Field>, num: nat, make: Value -> A): seq<A> {
    if fields == [] then []
    else
      var f := fields[|fields| - 1];
      All(fields[..|fields| - 1], num, make) + if f.num == num then [make(f.value)] else []
  }

  function SubOptsOf(v: Value): SubOpts { var fs := AsFields(v); SubOpts(Last(fs, 1, AsBool), Last(fs, 2, AsBytes)) }

  function MessageOf(v: Value): Message {
    var fs := AsFields(v);
    var topic := Last(fs, 4, AsBytes);
    Message(Last(fs, 1, AsBytes), Last(fs, 2, AsBytes), Last(fs, 3, AsBytes), if topic.Some? then topic.value else [],
            Last(fs, 5, AsBytes), Last(fs, 6, AsBytes))
  }

  function IHaveOf(v: Value): ControlIHave {
    var fs := AsFields(v);
    ControlIHave(Last(fs, 1, AsBytes), All(fs, 2, AsBytes))
  }

  function IWantOf(v: Value): ControlIWant { ControlIWant(All(AsFields(v), 1, AsBytes)) }

  function GraftOf(v: Value): ControlGraft { ControlGraft(Last(AsFields(v), 1, AsBytes)) }

  function PeerInfoOf(v: Value): PeerInfo {
    var fs := AsFields(v);
    PeerInfo(Last(fs, 1, AsBytes), Last(fs, 2, AsBytes))
  }

  function PruneOf(v: Value): ControlPrune {
    var fs := AsFields(v);
    ControlPrune(Last(fs, 1, AsBytes), All(fs, 2, PeerInfoOf), Last(fs, 3, AsNumber))
  }

  function IDontWantOf(v: Value): ControlIDontWant { ControlIDontWant(All(AsFields(v), 1, AsBytes)) }

  function ControlOf(v: Value): ControlMessage {
    var fs := AsFields(v);
    ControlMessage(All(fs, 1, IHaveOf), All(fs, 2, IWantOf), All(fs, 3, GraftOf), All(fs, 4, PruneOf),
                   All(fs, 5, IDontWantOf))
  }

  function RpcOf(fs: seq<Field>): RPC {
    RPC(All(fs, 1, SubOptsOf), All(fs, 2, MessageOf), Last(fs, 3, ControlOf))
  }

  // ----- fields by their numbers

  ghost predicate Only(fields: seq<Field>, num: nat) { forall f :: f in fields ==> f.num == num }

  lemma {:induction false} AllConcat<A>(a: seq<Field>, b: seq<Field>, num: nat, make: Value -> A)
    ensures All(a + b, num, make) == All(a, num, make) + All(b, num, make)
    ensures Last(a + b, num, make) == if Last(b, num, make).Some? then Last(b, num, make) else Last(a, num, make)
  {
    if b == [] {
      assert a + b == a;
    } else {
      AllConcat(a, b[..|b| - 1], num, make);
      assert (a + b)[..|a + b| - 1] == a + b[..|b| - 1];
    }
  }

  lemma {:induction false} Elsewhere<A>(fields: seq<Field>, num: nat, other: nat, make: Value -> A)
    requires Only(fields, num) && other != num
    ensures All(fields, other, make) == [] && Last(fields, other, make) == None
  {
    if fields != [] {
      Elsewhere(fields[..|fields| - 1], num, other, make);
      assert fields[|fields| - 1] in fields;
    }
  }

  ghost predicate Numbered(parts: seq<seq<Field>>) { forall i :: 0 <= i < |parts| ==> Only(parts[i], i + 1) }

  /** Of parts numbered in turn, reading a number takes from its part only. */
  lemma {:induction false} PartRead<A>(parts: seq<seq<Field>>, num: nat, make: Value -> A)
    requires Numbered(parts) && num >= 1
    ensures All(Parts(parts), num, make) == if num <= |parts| then All(parts[num - 1], num, make) else []
    ensures Last(Parts(parts), num, make) == if num <= |parts| then Last(parts[num - 1], num, make) else None
  {
    if parts != [] {
      var n := |parts|;
      var front, last := parts[..n - 1], parts[n - 1];
      assert Numbered(front) && Only(last, n) && Parts(parts) == Parts(front) + last;
      hide *;
      PartRead(front, num, make);
      AllConcat(Parts(front), last, num, make);
      if num != n {
        Elsewhere(last, n, num, make);
      }
    }
  }

  lemma {:induction false} EachBack<A>(num: nat, xs: seq<A>, value: A -> Value, make: Value -> A)
    requires forall x :: x in xs ==> make(value(x)) == x
    ensures Only(Each(num, xs, value), num) && All(Each(num, xs, value), num, make) == xs
  {
    if xs != [] {
      var front, x := xs[..|xs| - 1], xs[|xs| - 1];
      assert x in xs && forall y :: y in front ==> y in xs;
      assert Each(num, xs, value) == Each(num, front, value) + [Field(num, value(x))] && xs == front + [x];
      OneBack(num, x, value, make);
      hide *;
      EachBack(num, front, value, make);
      AllConcat(Each(num, front, value), [Field(num, value(x))], num, make);
      OnlyConcat(Each(num, front, value), [Field(num, value(x))], num);
    }
  }

  lemma OneBack<A>(num: nat, x: A, value: A -> Value, make: Value -> A)
    requires make(value(x)) == x
    ensures Only([Field(num, value(x))], num) && All([Field(num, value(x))], num, make) == [x]
  {
  }

  lemma OnlyConcat(a: seq<Field>, b: seq<Field>, num: nat)
    ensures Only(a, num) && Only(b, num) ==> Only(a + b, num)
  {
  }

  lemma OptBack<A>(num: nat, x: Option<A>, value: A -> Value, make: Value -> A)
    requires x.Some? ==> make(value(x.value)) == x.value
    ensures Only(Opt(num, x, value), num) && Last(Opt(num, x, value), num, make) == x
  {
  }

  // ----- objects come back from their fields

  lemma SubOptsBack(o: SubOpts)
    ensures SubOptsOf(SubOptsValue(o)) == o
  {
    var parts := [Opt(1, o.subscribe, OfBool), Opt(2, o.topic, OfBytes)];
    OptBack(1, o.subscribe, OfBool, AsBool);
    OptBack(2, o.topic, OfBytes, AsBytes);
    hide Opt, Only, Last, Parts;
    PartRead(parts, 1, AsBool);
    PartRead(parts, 2, AsBytes);
  }

  lemma MessageBack(o: Message)
    ensures MessageOf(MessageValue(o)) == o
  {
    var topic := if o.topic != [] then Some(o.topic) else None;
    var parts := [Opt(1, o.from, OfBytes), Opt(2, o.data, OfBytes), Opt(3, o.seqno, OfBytes), Opt(4, topic, OfBytes),
                  Opt(5, o.signature, OfBytes), Opt(6, o.key, OfBytes)];
    BytesParts([o.from, o.data, o.seqno, topic, o.signature, o.key], parts);
    hide Opt, Last, Parts;
  }

  /** Optional byte strings numbered from 1. */
  lemma BytesParts(values: seq<Option<Bytes>>, parts: seq<seq<Field>>)
    requires |parts| == |values| && forall i :: 0 <= i < |values| ==> parts[i] == Opt(i + 1, values[i], OfBytes)
    ensures forall i :: 1 <= i <= |values| ==> Last(Parts(parts), i, AsBytes) == values[i - 1]
  {
    hide Last, Parts, Opt;
    forall i | 0 <= i < |parts| ensures Only(parts[i], i + 1) && Last(parts[i], i + 1, AsBytes) == values[i] {
      OptBack(i + 1, values[i], OfBytes, AsBytes);
    }
    forall i | 1 <= i <= |values| ensures Last(Parts(parts), i, AsBytes) == values[i - 1] {
      PartRead(parts, i, AsBytes);
    }
  }

  lemma IHaveBack(o: ControlIHave)
    ensures IHaveOf(IHaveValue(o)) == o
  {
    var parts := [Opt(1, o.topicID, OfBytes), Each(2, o.messageIDs, OfBytes)];
    OptBack(1, o.topicID, OfBytes, AsBytes);
    EachBack(2, o.messageIDs, OfBytes, AsBytes);
    hide Opt, Each, Only, Last, All, Parts;
    PartRead(parts, 1, AsBytes);
    PartRead(parts, 2, AsBytes);
  }

  lemma IWantBack(o: ControlIWant)
    ensures IWantOf(IWantValue(o)) == o
  {
    EachBack(1, o.messageIDs, OfBytes, AsBytes);
    hide Each, Only, All, Parts;
    PartRead([Each(1, o.messageIDs, OfBytes)], 1, AsBytes);
  }

  lemma GraftBack(o: ControlGraft)
    ensures GraftOf(GraftValue(o)) == o
  {
    OptBack(1, o.topicID, OfBytes, AsBytes);
    hide Opt, Only, Last, Parts;
    PartRead([Opt(1, o.topicID, OfBytes)], 1, AsBytes);
  }

  lemma PeerInfoBack(o: PeerInfo)
    ensures PeerInfoOf(PeerInfoValue(o)) == o
  {
    var parts := [Opt(1, o.peerID, OfBytes), Opt(2, o.signedPeerRecord, OfBytes)];
    OptBack(1, o.peerID, OfBytes, AsBytes);
    OptBack(2, o.signedPeerRecord, OfBytes, AsBytes);
    hide Opt, Only, Last, Parts;
    PartRead(parts, 1, AsBytes);
    PartRead(parts, 2, AsBytes);
  }

  lemma PruneBack(o: ControlPrune)
    ensures PruneOf(PruneValue(o)) == o
  {
    var parts := [Opt(1, o.topicID, OfBytes), Each(2, o.peers, PeerInfoValue), Opt(3, o.backoff, OfNumber)];
    PrunePartsBack(o);
    hide Opt, Each, Only, Last, All, Parts;
    assert Numbered(parts);
    hide Numbered;
    PartRead(parts, 1, AsBytes);
    PartRead(parts, 2, PeerInfoOf);
    PartRead(parts, 3, AsNumber);
  }

  lemma PrunePartsBack(o: ControlPrune)
    ensures Only(Opt(1, o.topicID, OfBytes), 1) && Last(Opt(1, o.topicID, OfBytes), 1, AsBytes) == o.topicID
    ensures Only(Each(2, o.peers, PeerInfoValue), 2) && All(Each(2, o.peers, PeerInfoValue), 2, PeerInfoOf) == o.peers
    ensures Only(Opt(3, o.backoff, OfNumber), 3) && Last(Opt(3, o.backoff, OfNumber), 3, AsNumber) == o.backoff
  {
    OptBack(1, o.topicID, OfBytes, AsBytes);
    OptBack(3, o.backoff, OfNumber, AsNumber);
    hide *;
    forall x | x in o.peers ensures PeerInfoOf(PeerInfoValue(x)) == x { PeerInfoBack(x); }
    EachBack(2, o.peers, PeerInfoValue, PeerInfoOf);
  }

  lemma IDontWantBack(o: ControlIDontWant)
    ensures IDontWantOf(IDontWantValue(o)) == o
  {
    EachBack(1, o.messageIDs, OfBytes, AsBytes);
    hide Each, Only, All, Parts;
    PartRead([Each(1, o.messageIDs, OfBytes)], 1, AsBytes);
  }

  lemma ControlBack(o: ControlMessage)
    ensures ControlOf(ControlValue(o)) == o
  {
    var parts := [Each(1, o.ihave, IHaveValue), Each(2, o.iwant, IWantValue), Each(3, o.graft, GraftValue),
                  Each(4, o.prune, PruneValue), Each(5, o.idontwant, IDontWantValue)];
    ControlPartsBack(o);
    hide Each, Only, All, Parts;
    assert Numbered(parts);
    hide Numbered;
    PartRead(parts, 1, IHaveOf);
    PartRead(parts, 2, IWantOf);
    PartRead(parts, 3, GraftOf);
    PartRead(parts, 4, PruneOf);
    PartRead(parts, 5, IDontWantOf);
  }

  lemma ControlPartsBack(o: ControlMessage)
    ensures Only(Each(1, o.ihave, IHaveValue), 1) && All(Each(1, o.ihave, IHaveValue), 1, IHaveOf) == o.ihave
    ensures Only(Each(2, o.iwant, IWantValue), 2) && All(Each(2, o.iwant, IWantValue), 2, IWantOf) == o.iwant
    ensures Only(Each(3, o.graft, GraftValue), 3) && All(Each(3, o.graft, GraftValue), 3, GraftOf) == o.graft
    ensures Only(Each(4, o.prune, PruneValue), 4) && All(Each(4, o.prune, PruneValue), 4, PruneOf) == o.prune
    ensures Only(Each(5, o.idontwant, IDontWantValue), 5)
    ensures All(Each(5, o.idontwant, IDontWantValue), 5, IDontWantOf) == o.idontwant
  {
    hide *;
    forall x | x in o.ihave ensures IHaveOf(IHaveValue(x)) == x { IHaveBack(x); }
    forall x | x in o.iwant ensures IWantOf(IWantValue(x)) == x { IWantBack(x); }
    forall x | x in o.graft ensures GraftOf(GraftValue(x)) == x { GraftBack(x); }
    forall x | x in o.prune ensures PruneOf(PruneValue(x)) == x { PruneBack(x); }
    forall x | x in o.idontwant ensures IDontWantOf(IDontWantValue(x)) == x { IDontWantBack(x); }
    EachBack(1, o.ihave, IHaveValue, IHaveOf);
    EachBack(2, o.iwant, IWantValue, IWantOf);
    EachBack(3, o.graft, GraftValue, GraftOf);
    EachBack(4, o.prune, PruneValue, PruneOf);
    EachBack(5, o.idontwant, IDontWantValue, IDontWantOf);
  }

  lemma RpcBack(o: RPC)
    ensures RpcOf(RpcFields(o)) == o
  {
    SubscriptionsBack(o);
    MessagesBack(o);
    ControlPartBack(o);
    hide All, Last, RpcFields;
  }

  lemma SubscriptionsBack(o: RPC)
    ensures All(RpcFields(o), 1, SubOptsOf) == o.subscriptions
  {
    RpcPartsBack(o);
    assert RpcParts(o)[0] == Each(1, o.subscriptions, SubOptsValue);
    RpcNumbered(o);
    hide All, Parts, Each, Opt, RpcParts, Only, Numbered;
    PartRead(RpcParts(o), 1, SubOptsOf);
  }

  lemma MessagesBack(o: RPC)
    ensures All(RpcFields(o), 2, MessageOf) == o.messages
  {
    RpcPartsBack(o);
    assert RpcParts(o)[1] == Each(2, o.messages, MessageValue);
    RpcNumbered(o);
    hide All, Parts, Each, Opt, RpcParts, Only, Numbered;
    PartRead(RpcParts(o), 2, MessageOf);
  }

  lemma ControlPartBack(o: RPC)
    ensures Last(RpcFields(o), 3, ControlOf) == o.control
  {
    RpcPartsBack(o);
    assert RpcParts(o)[2] == Opt(3, o.control, ControlValue);
    RpcNumbered(o);
    hide Last, Parts, Each, Opt, RpcParts, Only, Numbered;
    PartRead(RpcParts(o), 3, ControlOf);
  }

  lemma RpcNumbered(o: RPC)
    ensures Numbered(RpcParts(o)) && |RpcParts(o)| == 3
  {
    RpcPartsBack(o);
    hide Only, Each, Opt, All, Last;
  }

  lemma RpcPartsBack(o: RPC)
    ensures Only(Each(1, o.subscriptions, SubOptsValue), 1)
    ensures All(Each(1, o.subscriptions, SubOptsValue), 1, SubOptsOf) == o.subscriptions
    ensures Only(Each(2, o.messages, MessageValue), 2)
    ensures All(Each(2, o.messages, MessageValue), 2, MessageOf) == o.messages
    ensures Only(Opt(3, o.control, ControlValue), 3) && Last(Opt(3, o.control, ControlValue), 3, ControlOf) == o.control
  {
    hide *;
    forall x | x in o.subscriptions ensures SubOptsOf(SubOptsValue(x)) == x { SubOptsBack(x); }
    forall x | x in o.messages ensures MessageOf(MessageValue(x)) == x { MessageBack(x); }
    EachBack(1, o.subscriptions, SubOptsValue, SubOptsOf);
    EachBack(2, o.messages, MessageValue, MessageOf);
    if o.control.Some? {
      ControlBack(o.control.value);
    }
    OptBack(3, o.control, ControlValue, ControlOf);
  }
}
