/** The Protocol Buffers wire format: varints, length-delimited records, and a writer and a reader of them. */
module Wire {
  import opened Seqs

  type Byte = b: int | 0 <= b < 256

  type Bytes = seq<Byte>

  const TWO_32: nat := 0x1_0000_0000
  const TWO_53: nat := 0x20_0000_0000_0000
  const TWO_64: nat := 0x1_0000_0000_0000_0000

  /** No varint is longer. */
  const MOST_VARINT_BYTES: nat := 10

  /** What a read leaves: a value and the position after it. */
  datatype Parsed<+T> = Got(value: T, pos: nat) | Failed

  // ----- writing

  /** Seven bits a byte, least significant first; all bytes but the last are marked. */
  function Varint(n: nat): (b: Bytes)
    ensures |b| >= 1
  {
    if n < 128 then [n] else [128 + n % 128] + Varint(n / 128)
  }

  /** A record preceded by its length, of which 32 bits are kept. */
  function Delimited(b: Bytes): Bytes { Varint(|b| % TWO_32) + b }

  /** The last `k` bytes of a number, least first. */
  function LittleEndian(n: nat, k: nat): (b: Bytes)
    ensures |b| == k
  {
    if k == 0 then [] else [n % 256] + LittleEndian(n / 256, k - 1)
  }

  const END_GROUP: nat := 4

  class Writer {
    var buf: Bytes
    /** What was written before each open fork. */
    var stack: seq<Bytes>

    constructor ()
      ensures buf == [] && stack == []
    {
      buf, stack := [], [];
    }

    method Uint32(n: nat)
      modifies this`buf
      ensures buf == old(buf) + Varint(n % TWO_32)
    {
      buf := buf + Varint(n % TWO_32);
    }

    method Uint64Number(n: nat)
      modifies this`buf
      ensures buf == old(buf) + Varint(n % TWO_64)
    {
      buf := buf + Varint(n % TWO_64);
    }

    method Bool(b: bool)
      modifies this`buf
      ensures buf == old(buf) + [if b then 1 else 0]
    {
      buf := buf + [if b then 1 else 0];
    }

    method Fixed(n: nat, k: nat)
      modifies this`buf
      ensures buf == old(buf) + LittleEndian(n, k)
    {
      buf := buf + LittleEndian(n, k);
    }

    method PutBytes(b: Bytes)
      modifies this`buf
      ensures buf == old(buf) + Delimited(b)
    {
      buf := buf + Delimited(b);
    }

    /** Starts a record whose length is not known yet. */
    method Fork()
      modifies this
      ensures buf == [] && stack == old(stack) + [old(buf)]
    {
      stack := stack + [buf];
      buf := [];
    }

    /** Ends the record: it is appended, after its length, to what was written before it. */
    method Ldelim()
      requires stack != []
      modifies this
      ensures stack == old(stack[..|stack| - 1]) && buf == old(stack[|stack| - 1]) + Delimited(old(buf))
    {
      buf := stack[|stack| - 1] + Delimited(buf);
      stack := stack[..|stack| - 1];
    }
  }

  // ----- reading

  function ReadVarint(buf: Bytes, pos: nat, most: nat): (r: Parsed<nat>)
    decreases most
    ensures r.Got? ==> pos < r.pos <= |buf|
  {
    if most == 0 || pos >= |buf| then Failed
    else if buf[pos] < 128 then Got(buf[pos], pos + 1)
    else
      match ReadVarint(buf, pos + 1, most - 1)
      case Got(v, p) => Got(buf[pos] - 128 + 128 * v, p)
      case Failed => Failed
  }

  function ReadUint32(buf: Bytes, pos: nat): (r: Parsed<nat>)
    ensures r.Got? ==> pos < r.pos <= |buf|
  {
    match ReadVarint(buf, pos, MOST_VARINT_BYTES)
    case Got(v, p) => Got(v % TWO_32, p)
    case Failed => Failed
  }

  function ReadUint64(buf: Bytes, pos: nat): (r: Parsed<nat>)
    ensures r.Got? ==> pos < r.pos <= |buf|
  {
    match ReadVarint(buf, pos, MOST_VARINT_BYTES)
    case Got(v, p) => Got(v % TWO_64, p)
    case Failed => Failed
  }

  function ReadBytes(buf: Bytes, pos: nat): (r: Parsed<Bytes>)
    ensures r.Got? ==> pos < r.pos <= |buf|
  {
    match ReadUint32(buf, pos)
    case Got(n, p) => if p + n <= |buf| then Got(buf[p..p + n], p + n) else Failed
    case Failed => Failed
  }

  function SkipBytes(buf: Bytes, pos: nat, n: nat): (r: Parsed<()>)
    ensures r.Got? ==> pos <= r.pos <= |buf|
  {
    if pos + n <= |buf| then Got((), pos + n) else Failed
  }

  /** Skips a field that is not known, going by its wire type. */
  function SkipType(buf: Bytes, pos: nat, wireType: nat): (r: Parsed<()>)
    requires pos <= |buf|
    ensures r.Got? ==> pos <= r.pos <= |buf|
    decreases |buf| - pos, 1
  {
    if wireType == 0 then
      match ReadVarint(buf, pos, MOST_VARINT_BYTES) case Got(_, p) => Got((), p) case Failed => Failed
    else if wireType == 1 then SkipBytes(buf, pos, 8)
    else if wireType == 2 then
      match ReadUint32(buf, pos) case Got(n, p) => SkipBytes(buf, p, n) case Failed => Failed
    else if wireType == 3 then SkipGroup(buf, pos)
    else if wireType == 5 then SkipBytes(buf, pos, 4)
    else Failed
  }

  function SkipGroup(buf: Bytes, pos: nat): (r: Parsed<()>)
    requires pos <= |buf|
    ensures r.Got? ==> pos <= r.pos <= |buf|
    decreases |buf| - pos, 0
  {
    match ReadUint32(buf, pos)
    case Failed => Failed
    case Got(tag, p) =>
      if tag % 8 == END_GROUP then Got((), p)
      else
        match SkipType(buf, p, tag % 8)
        case Failed => Failed
        case Got(_, p2) => SkipGroup(buf, p2)
  }

  class Reader {
    const buf: Bytes
    var pos: nat

    ghost predicate Valid()
      reads this
    {
      pos <= |buf|
    }

    constructor (buf: Bytes)
      ensures Valid() && this.buf == buf && pos == 0
    {
      this.buf := buf;
      pos := 0;
    }

    /** A failed read throws; where it leaves the position does not matter. */
    ghost predicate Reads<T>(r: Option<T>, was: nat, spec: Parsed<T>)
      reads this
    {
      match spec
      case Got(v, p) => r == Some(v) && pos == p
      case Failed => r == None && pos == was
    }

    method Uint32() returns (r: Option<nat>)
      requires Valid()
      modifies this
      ensures Valid() && Reads(r, old(pos), ReadUint32(buf, old(pos)))
    {
      match ReadUint32(buf, pos) {
        case Got(v, p) => pos := p; return Some(v);
        case Failed => return None;
      }
    }

    method Uint64Number() returns (r: Option<nat>)
      requires Valid()
      modifies this
      ensures Valid() && Reads(r, old(pos), ReadUint64(buf, old(pos)))
    {
      match ReadUint64(buf, pos) {
        case Got(v, p) => pos := p; return Some(v);
        case Failed => return None;
      }
    }

    method TakeBytes() returns (r: Option<Bytes>)
      requires Valid()
      modifies this
      ensures Valid() && Reads(r, old(pos), ReadBytes(buf, old(pos)))
    {
      match ReadBytes(buf, pos) {
        case Got(v, p) => pos := p; return Some(v);
        case Failed => return None;
      }
    }

    method Skip(wireType: nat) returns (r: Option<()>)
      requires Valid()
      modifies this
      ensures Valid() && Reads(r, old(pos), SkipType(buf, old(pos), wireType))
    {
      match SkipType(buf, pos, wireType) {
        case Got(v, p) => pos := p; return Some(v);
        case Failed => return None;
      }
    }
  }

  // ----- what is written is read back

  /** The bytes at `pos` are `b`. */
  ghost predicate At(buf: Bytes, pos: nat, b: Bytes) { pos + |b| <= |buf| && buf[pos..pos + |b|] == b }

  lemma AtConcat(buf: Bytes, pos: nat, a: Bytes, b: Bytes)
    requires At(buf, pos, a + b)
    ensures At(buf, pos, a) && At(buf, pos + |a|, b)
  {
    assert a == (a + b)[..|a|] && b == (a + b)[|a|..];
  }

  /** What the bytes of a varint stand for: seven bits each, least significant first. */
  function VarintValue(b: Bytes): nat { if b == [] then 0 else b[0] % 128 + 128 * VarintValue(b[1..]) }

  /** A varint stands for its number; all its bytes but the last are marked, and none of them is superfluous. */
  lemma {:induction false} VarintIs(n: nat)
    ensures VarintValue(Varint(n)) == n
    ensures forall i :: 0 <= i < |Varint(n)| ==> (Varint(n)[i] >= 128 <==> i < |Varint(n)| - 1)
    ensures |Varint(n)| > 1 ==> Varint(n)[|Varint(n)| - 1] != 0
  {
    if n < 128 {
      assert VarintValue([n][1..]) == 0;
    } else {
      VarintIs(n / 128);
      var first, rest := 128 + n % 128, Varint(n / 128);
      assert Varint(n) == [first] + rest && Varint(n)[1..] == rest && first % 128 == n % 128;
      if |rest| == 1 {
        assert rest[0] == n / 128;
      }
    }
  }

  function Pow128(k: nat): nat { if k == 0 then 1 else 128 * Pow128(k - 1) }

  lemma {:induction false} VarintBack(buf: Bytes, pos: nat, n: nat, most: nat)
    requires At(buf, pos, Varint(n)) && most >= 1 && n < Pow128(most)
    ensures ReadVarint(buf, pos, most) == Got(n, pos + |Varint(n)|)
    decreases most
  {
    if n < 128 {
      assert buf[pos] == buf[pos..pos + 1][0];
    } else {
      AtConcat(buf, pos, [128 + n % 128], Varint(n / 128));
      assert buf[pos] == buf[pos..pos + 1][0];
      VarintBack(buf, pos + 1, n / 128, most - 1);
    }
  }

  lemma SixtyFourBitsFit()
    ensures TWO_64 <= Pow128(MOST_VARINT_BYTES)
  {
    assert Pow128(2) == 16384;
    assert Pow128(4) == 16384 * 16384;
    assert Pow128(6) == 16384 * 16384 * 16384;
    assert Pow128(8) == 16384 * 16384 * 16384 * 16384;
    assert Pow128(10) == 16384 * 16384 * 16384 * 16384 * 16384;
  }

  /** Every 64-bit number survives the varint, and every 32-bit one the narrower read. */
  lemma NumberBack(buf: Bytes, pos: nat, n: nat)
    requires At(buf, pos, Varint(n)) && n < TWO_64
    ensures ReadUint64(buf, pos) == Got(n, pos + |Varint(n)|)
    ensures ReadUint32(buf, pos) == Got(n % TWO_32, pos + |Varint(n)|)
  {
    SixtyFourBitsFit();
    hide Varint, ReadVarint, Pow128, At;
    VarintBack(buf, pos, n, MOST_VARINT_BYTES);
  }

  /** The length of a record, and its content behind that. */
  lemma DelimitedBack(buf: Bytes, pos: nat, content: Bytes)
    requires At(buf, pos, Delimited(content)) && |content| < TWO_32
    ensures |Delimited(content)| == |Varint(|content|)| + |content|
    ensures ReadUint32(buf, pos) == Got(|content|, pos + |Varint(|content|)|)
    ensures pos + |Varint(|content|)| <= |buf| && At(buf, pos + |Varint(|content|)|, content)
  {
    hide Varint, At, ReadUint32;
    AtConcat(buf, pos, Varint(|content|), content);
    NumberBack(buf, pos, |content|);
  }

  lemma BytesBack(buf: Bytes, pos: nat, b: Bytes)
    requires At(buf, pos, Delimited(b)) && |b| < TWO_32
    ensures ReadBytes(buf, pos) == Got(b, pos + |Delimited(b)|)
  {
    hide Varint, ReadUint32;
    DelimitedBack(buf, pos, b);
  }
}
