/** Base 128 varints and the other primitives of the protobuf wire format, as the generated code of the
    dispute records reads and writes them. */
module Varints {
  import opened Integers

  type Byte = b: int | 0 <= b < 256

  /** A byte slice; its length fits a signed 64-bit integer. */
  type Bytes = s: seq<Byte> | |s| < TWO63

  datatype WireError =
    | IntOverflow
    | UnexpectedEof
    | InvalidLength
    | WrongWireType
    | EndGroup
    | IllegalTag
    | UnexpectedEndOfGroup
    | IllegalWireType

  datatype Decoded<+T> = Good(value: T) | Bad(error: WireError) {
    predicate IsFailure() {
      Bad?
    }

    function PropagateFailure<U>(): Decoded<U>
      requires Bad?
    {
      Bad(error)
    }

    function Extract(): T
      requires Good?
    {
      value
    }
  }

  /** A value read, and the index after it. */
  datatype Read<+T> = Read(value: T, next: nat)

  // ---- Writing ------------------------------------------------------------

  /** Seven bits per byte, least significant first; the high bit says that more follows. */
  function Varint(v: nat): (s: seq<Byte>)
    ensures |s| >= 1
  {
    if v < 128 then [v] else [v % 128 + 128] + Varint(v / 128)
  }

  /** The number of bits needed to write `x`. */
  function Len64(x: nat): nat {
    if x == 0 then 0 else 1 + Len64(x / 2)
  }

  /** `x | 1` */
  function Odd(x: nat): nat {
    if x % 2 == 0 then x + 1 else x
  }

  /** The length of a varint, computed from the bit length. */
  function Sov(x: nat): nat {
    (Len64(Odd(x)) + 6) / 7
  }

  lemma {:induction false} LenShift(x: nat)
    requires x >= 128
    ensures Len64(x) == 7 + Len64(x / 128)
  {
    var a, b, c := x / 2, x / 4, x / 8;
    assert Len64(x) == 1 + Len64(a);
    assert a / 2 == b && b / 2 == c;
    assert Len64(a) == 1 + Len64(b);
    assert Len64(b) == 1 + Len64(c);
    var d, e, f := c / 2, c / 4, c / 8;
    assert d / 2 == e && e / 2 == f && f / 2 == x / 128;
    assert Len64(c) == 1 + Len64(d);
    assert Len64(d) == 1 + Len64(e);
    assert Len64(e) == 1 + Len64(f);
    assert Len64(f) == 1 + Len64(x / 128);
  }

  lemma LenOdd(x: nat)
    requires x > 0
    ensures Len64(Odd(x)) == Len64(x)
  {
  }

  lemma {:induction false} LenSmall(x: nat)
    requires 0 < x < 128
    ensures 1 <= Len64(x) <= 7
  {
    LenBelow(x, 7);
  }

  lemma {:induction false} LenBelow(x: nat, k: nat)
    requires x < Power2(k)
    ensures Len64(x) <= k
  {
    if x > 0 { LenBelow(x / 2, k - 1); }
  }

  function Power2(k: nat): nat {
    if k == 0 then 1 else 2 * Power2(k - 1)
  }

  /** The size function agrees with the encoding. */
  lemma {:induction false} VarintLength(v: nat)
    ensures |Varint(v)| == Sov(v)
    decreases v
  {
    if v < 128 {
      LenSmall(Odd(v));
    } else {
      VarintLength(v / 128);
      LenShift(v);
      LenOdd(v);
      LenOdd(v / 128);
    }
  }

  /** A 64-bit value needs at most ten bytes. */
  lemma VarintFits(v: U64)
    ensures 1 <= |Varint(v)| <= 10
  {
    VarintLength(v);
    if v > 0 {
      LenOdd(v);
      assert Power2(64) == TWO64 by { PowersOfTwo(); }
      LenBelow(v, 64);
    }
  }

  lemma PowersOfTwo()
    ensures Power2(64) == TWO64
  {
    assert Power2(4) == 16;
    PowerSum(4, 4);
    PowerSum(8, 8);
    PowerSum(16, 16);
    PowerSum(32, 32);
  }

  lemma {:induction false} PowerSum(a: nat, b: nat)
    ensures Power2(a + b) == Power2(a) * Power2(b)
  {
    if a > 0 { PowerSum(a - 1, b); }
  }

  /** Writes `v` just before `offset` and answers where it begins. */
  method EncodeVarint(buf: array<Byte>, offset: nat, v: U64) returns (base: nat)
    requires Sov(v) <= offset <= buf.Length
    modifies buf
    ensures base == offset - Sov(v)
    ensures buf[..] == old(buf[..base]) + Varint(v) + old(buf[offset..])
  {
    VarintLength(v);
    var at, rest := offset - Sov(v), v;
    base := at;
    while rest >= 128
      invariant 0 <= rest && base <= at && at + |Varint(rest)| == offset
      invariant buf[..at] + Varint(rest) == old(buf[..base]) + Varint(v)
      invariant buf[at..] == old(buf[at..])
    {
      ghost var done, tail := buf[..at], old(buf[at..]);
      assert Varint(rest) == [rest % 128 + 128] + Varint(rest / 128);
      buf[at] := rest % 128 + 128;
      assert buf[..at + 1] == done + [rest % 128 + 128];
      assert buf[at + 1..] == tail[1..];
      rest := rest / 128;
      at := at + 1;
    }
    ghost var done, tail := buf[..at], old(buf[at..]);
    buf[at] := rest;
    assert buf[..] == done + [rest] + tail[1..];
  }

  // ---- Reading ------------------------------------------------------------

  function Power128(k: nat): nat {
    if k == 0 then 1 else 128 * Power128(k - 1)
  }

  /** Seven more bits at position `7 * k` of a 64-bit word. They never overlap the bits already read,
      so the bitwise or of the source is an addition; bits beyond the 64th are lost. */
  function Accumulate(word: U64, b: Byte, k: nat): U64 {
    (word + (b % 128) * Power128(k)) % TWO64
  }

  /** The varint at index `at`, of which `k` bytes have been read into `word`. */
  function ReadVarint(data: Bytes, at: nat, k: nat, word: U64): (r: Decoded<Read<U64>>)
    ensures r.Good? ==> at < r.value.next <= |data|
    decreases |data| - at
  {
    if k >= 10 then Bad(IntOverflow)
    else if at >= |data| then Bad(UnexpectedEof)
    else
      var word := Accumulate(word, data[at], k);
      if data[at] < 128 then Good(Read(word, at + 1)) else ReadVarint(data, at + 1, k + 1, word)
  }

  /** The length-delimited bytes at index `at`. A sum past the signed 64-bit range has wrapped. */
  function ReadBytes(data: Bytes, at: nat): (r: Decoded<Read<Bytes>>)
    ensures r.Good? ==> at < r.value.next <= |data|
  {
    if at > |data| then Bad(UnexpectedEof) else
    var n :- ReadVarint(data, at, 0, 0);
    var length, from := ToInt64(n.value), n.next;
    if length < 0 then Bad(InvalidLength)
    else if from + length >= TWO63 then Bad(InvalidLength)
    else if from + length > |data| then Bad(UnexpectedEof)
    else Good(Read(data[from..from + length], from + length))
  }

  datatype Tag = Tag(field: int, wireType: nat)

  /** `int32(wire >> 3)` and `wire & 7`. */
  function SplitTag(wire: U64): Tag {
    var low := (wire / 8) % 0x1_0000_0000;
    Tag(if low < 0x8000_0000 then low else low - 0x1_0000_0000, wire % 8)
  }

  function ReadTag(data: Bytes, at: nat): (r: Decoded<Read<Tag>>)
    ensures r.Good? ==> at < r.value.next <= |data| && r.value.value.field > 0
  {
    if at > |data| then Bad(UnexpectedEof) else
    var w :- ReadVarint(data, at, 0, 0);
    var tag := SplitTag(w.value);
    if tag.wireType == 4 then Bad(EndGroup)
    else if tag.field <= 0 then Bad(IllegalTag)
    else Good(Read(tag, w.next))
  }

  /** The index after the payload of wire type `wireType` at `at`; groups only change the depth. */
  function SkipPayload(data: Bytes, at: nat, wireType: nat): (r: Decoded<nat>)
    requires at <= |data|
    ensures r.Good? ==> r.value >= at
  {
    match wireType
    case 0 => (var v :- ReadVarint(data, at, 0, 0); Good(v.next))
    case 1 => Good(at + 8)
    case 2 =>
      var n :- ReadVarint(data, at, 0, 0);
      if ToInt64(n.value) < 0 then Bad(InvalidLength) else Good(n.next + ToInt64(n.value))
    case 3 => Good(at)
    case 4 => Good(at)
    case 5 => Good(at + 4)
    case _ => Bad(IllegalWireType)
  }

  /** Skips one field, nested groups included, starting at `at` with `depth` groups open. The index
      answered may lie past the end. */
  function Skip(data: Bytes, at: nat, depth: nat): (r: Decoded<nat>)
    ensures r.Good? ==> at < r.value < TWO63
    decreases |data| - at
  {
    if at >= |data| then Bad(UnexpectedEof) else
    var wire :- ReadVarint(data, at, 0, 0);
    var wireType := wire.value % 8;
    if wireType == 4 && depth == 0 then Bad(UnexpectedEndOfGroup) else
    var depth := if wireType == 3 then depth + 1 else if wireType == 4 then depth - 1 else depth;
    var next :- SkipPayload(data, wire.next, wireType);
    if next >= TWO63 then Bad(InvalidLength)
    else if depth == 0 then Good(next)
    else Skip(data, next, depth)
  }

  /** Skips the unknown field that begins at `at`. */
  function SkipField(data: Bytes, at: nat): (r: Decoded<nat>)
    requires at <= |data|
    ensures r.Good? ==> at < r.value <= |data|
  {
    var n :- Skip(data[at..], 0, 0);
    if at + n >= TWO63 then Bad(InvalidLength)
    else if at + n > |data| then Bad(UnexpectedEof)
    else Good(at + n)
  }

  method DecodeVarint(data: Bytes, at: nat) returns (r: Decoded<Read<U64>>)
    ensures r == ReadVarint(data, at, 0, 0)
  {
    var i: nat, k: nat, word: U64 := at, 0, 0;
    while true
      invariant k <= 10 && ReadVarint(data, i, k, word) == ReadVarint(data, at, 0, 0)
      decreases 10 - k
    {
      if k >= 10 { return Bad(IntOverflow); }
      if i >= |data| { return Bad(UnexpectedEof); }
      var b := data[i];
      i := i + 1;
      word := Accumulate(word, b, k);
      if b < 128 { return Good(Read(word, i)); }
      k := k + 1;
    }
  }

  method DecodeBytes(data: Bytes, at: nat) returns (r: Decoded<Read<Bytes>>)
    requires at <= |data|
    ensures r == ReadBytes(data, at)
  {
    hide ReadVarint;
    var n := DecodeVarint(data, at);
    if n.Bad? { return Bad(n.error); }
    var length := ToInt64(n.value.value);
    if length < 0 { return Bad(InvalidLength); }
    var post := n.value.next + length;
    if post >= TWO63 { return Bad(InvalidLength); }
    if post > |data| { return Bad(UnexpectedEof); }
    return Good(Read(data[n.value.next..post], post));
  }

  /** The generated skip loop. */
  method SkipLoop(data: Bytes) returns (r: Decoded<nat>)
    ensures r == Skip(data, 0, 0)
  {
    hide ReadVarint;
    var i, depth := 0, 0;
    while i < |data|
      invariant Skip(data, i, depth) == Skip(data, 0, 0)
    {
      var wire := DecodeVarint(data, i);
      if wire.Bad? { return Bad(wire.error); }
      i := wire.value.next;
      match wire.value.value % 8 {
        case 0 =>
          var v := DecodeVarint(data, i);
          if v.Bad? { return Bad(v.error); }
          i := v.value.next;
        case 1 => i := i + 8;
        case 2 =>
          var n := DecodeVarint(data, i);
          if n.Bad? { return Bad(n.error); }
          var length := ToInt64(n.value.value);
          if length < 0 { return Bad(InvalidLength); }
          i := n.value.next + length;
        case 3 => depth := depth + 1;
        case 4 =>
          if depth == 0 { return Bad(UnexpectedEndOfGroup); }
          depth := depth - 1;
        case 5 => i := i + 4;
        case _ => return Bad(IllegalWireType);
      }
      if i >= TWO63 { return Bad(InvalidLength); }
      if depth == 0 { return Good(i); }
    }
    return Bad(UnexpectedEof);
  }

  // ---- Reading what was written -------------------------------------------

  /** `chunk` stands in `data` at index `at`. */
  predicate StandsAt(data: seq<Byte>, at: nat, chunk: seq<Byte>) {
    at + |chunk| <= |data| && data[at..at + |chunk|] == chunk
  }

  lemma StandsSplit(data: seq<Byte>, at: nat, a: seq<Byte>, b: seq<Byte>)
    requires StandsAt(data, at, a + b)
    ensures StandsAt(data, at, a) && StandsAt(data, at + |a|, b)
  {
    var chunk := data[at..at + |a + b|];
    assert chunk[..|a|] == a && chunk[|a|..] == b;
    assert data[at..at + |a|] == chunk[..|a|];
    assert data[at + |a|..at + |a| + |b|] == chunk[|a|..];
  }

  lemma {:induction false} ReadBackFrom(data: Bytes, at: nat, v: nat, k: nat, word: U64)
    requires StandsAt(data, at, Varint(v)) && k + |Varint(v)| <= 10
    requires word + v * Power128(k) < TWO64
    ensures ReadVarint(data, at, k, word) == Good(Read(word + v * Power128(k), at + |Varint(v)|))
    decreases v
  {
    hide Accumulate, Power128, ToInt64;
    var chunk := Varint(v);
    assert data[at] == chunk[0] by { assert data[at..at + |chunk|][0] == chunk[0]; }
    SevenMoreBits(word, v, k);
    if v >= 128 {
      StandsSplit(data, at, [v % 128 + 128], Varint(v / 128));
      ReadBackFrom(data, at + 1, v / 128, k + 1, Accumulate(word, v % 128 + 128, k));
    }
  }

  /** Reading the low seven bits moves them from the value to the word. */
  lemma SevenMoreBits(word: U64, v: nat, k: nat)
    requires word + v * Power128(k) < TWO64
    ensures v < 128 ==> Accumulate(word, v, k) == word + v * Power128(k)
    ensures v >= 128 ==>
              Accumulate(word, v % 128 + 128, k) + v / 128 * Power128(k + 1) == word + v * Power128(k)
  {
    var p, low, q := Power128(k), v % 128, v / 128;
    assert v == low + q * 128;
    Regroup(low, q, p);
    NatProduct(low, p);
    NatProduct(q, 128 * p);
    assert (low + 128) % 128 == low;
  }

  lemma NatProduct(a: nat, b: nat)
    ensures a * b >= 0
  {
  }

  lemma Regroup(low: nat, q: nat, p: nat)
    ensures (low + q * 128) * p == low * p + q * (128 * p)
  {
  }

  /** A written varint is read back, whatever follows it. */
  lemma ReadBack(data: Bytes, at: nat, v: U64)
    requires StandsAt(data, at, Varint(v))
    ensures ReadVarint(data, at, 0, 0) == Good(Read(v, at + |Varint(v)|))
  {
    VarintFits(v);
    ReadBackFrom(data, at, v, 0, 0);
  }

  lemma ReadBackBytes(data: Bytes, at: nat, s: seq<Byte>)
    requires StandsAt(data, at, Varint(|s|) + s)
    ensures ReadBytes(data, at) == Good(Read(s, at + |Varint(|s|)| + |s|))
  {
    StandsSplit(data, at, Varint(|s|), s);
    ReadBack(data, at, |s|);
  }

  lemma ReadBackTag(data: Bytes, at: nat, field: nat, wireType: nat)
    requires 1 <= field < 16 && wireType < 8 && wireType != 4
    requires at < |data| && data[at] == field * 8 + wireType
    ensures ReadTag(data, at) == Good(Read(Tag(field, wireType), at + 1))
  {
    var wire := field * 8 + wireType;
    assert Varint(wire) == [wire];
    ReadBack(data, at, wire);
  }

  // ---- What a varint stands for -------------------------------------------

  /** The number a byte string stands for: seven bits of each byte, the first byte least significant. */
  function ValueOf(bytes: seq<Byte>): nat {
    if bytes == [] then 0 else bytes[0] % 128 + 128 * ValueOf(bytes[1..])
  }

  /** A varint stands for its number, and exactly its last byte is below 128. */
  lemma {:induction false} VarintStandsFor(v: nat)
    ensures ValueOf(Varint(v)) == v
    ensures forall i | 0 <= i < |Varint(v)| :: Varint(v)[i] < 128 <==> i == |Varint(v)| - 1
    decreases v
  {
    if v >= 128 {
      VarintStandsFor(v / 128);
      assert Varint(v)[1..] == Varint(v / 128);
      assert forall i | 0 < i < |Varint(v)| :: Varint(v)[i] == Varint(v / 128)[i - 1];
    } else {
      assert Varint(v)[1..] == [];
    }
  }

  /** The bytes from `at` on are continued until the `j`-th after it. */
  predicate EndsAfter(data: seq<Byte>, at: nat, j: nat) {
    at + j < |data| && data[at + j] < 128 && forall i | at <= i < at + j :: data[i] >= 128
  }

  lemma ModuloSum(a: nat, c: nat)
    ensures (a % TWO64 + c) % TWO64 == (a + c) % TWO64
  {
    var q := a / TWO64;
    assert a == q * TWO64 + a % TWO64;
    ModuloShift(a % TWO64 + c, q);
  }

  lemma {:induction false} ModuloShift(x: nat, q: nat)
    ensures (x + q * TWO64) % TWO64 == x % TWO64
  {
    if q > 0 { ModuloShift(x, q - 1); }
  }

  lemma {:induction false} VarintValue(data: Bytes, at: nat, k: nat, word: U64, j: nat)
    requires EndsAfter(data, at, j) && k + j < 10
    ensures ValueOf(data[at..at + j + 1]) * Power128(k) >= 0
    ensures ReadVarint(data, at, k, word)
         == Good(Read((word + ValueOf(data[at..at + j + 1]) * Power128(k)) % TWO64, at + j + 1))
    decreases j
  {
    hide Power128;
    var b, bytes := data[at], data[at..at + j + 1];
    var low, rest := b % 128, ValueOf(bytes[1..]);
    NatProduct(ValueOf(bytes), Power128(k));
    NatProduct(low, Power128(k));
    assert ValueOf(bytes) == low + rest * 128;
    Regroup(low, rest, Power128(k));
    PowerNext(k);
    if j == 0 {
      assert bytes[1..] == [];
    } else {
      assert bytes[1..] == data[at + 1..at + j + 1];
      VarintValue(data, at + 1, k + 1, Accumulate(word, b, k), j - 1);
      NatProduct(rest, Power128(k + 1));
      ModuloSum(word + low * Power128(k), rest * Power128(k + 1));
    }
  }

  lemma PowerNext(k: nat)
    ensures Power128(k + 1) == 128 * Power128(k)
  {
  }

  lemma {:induction false} VarintUnended(data: Bytes, at: nat, k: nat, word: U64)
    requires k <= 10 && forall j: nat | k + j < 10 :: !EndsAfter(data, at, j)
    ensures ReadVarint(data, at, k, word) == Bad(if at + (10 - k) <= |data| || k == 10 then IntOverflow else UnexpectedEof)
    decreases 10 - k
  {
    if k < 10 && at < |data| {
      assert !EndsAfter(data, at, 0);
      var next := at + 1;
      forall j: nat | k + 1 + j < 10
        ensures !EndsAfter(data, next, j)
      {
        if EndsAfter(data, next, j) { assert EndsAfter(data, at, j + 1); }
      }
      VarintUnended(data, at + 1, k + 1, Accumulate(word, data[at], k));
    }
  }

  /** What is read at `at`, whatever the input: of at most ten bytes, up to and with the first below 128, the
      number they stand for, modulo 2^64. Ten bytes without such an end overflow; fewer run into the end of
      the input. */
  lemma ReadVarintMeans(data: Bytes, at: nat)
    ensures forall j: nat | j < 10 && EndsAfter(data, at, j) ::
              ReadVarint(data, at, 0, 0) == Good(Read(ValueOf(data[at..at + j + 1]) % TWO64, at + j + 1))
    ensures (forall j: nat | j < 10 :: !EndsAfter(data, at, j)) ==>
              ReadVarint(data, at, 0, 0) == Bad(if at + 10 <= |data| then IntOverflow else UnexpectedEof)
  {
    forall j: nat | j < 10 && EndsAfter(data, at, j)
      ensures ReadVarint(data, at, 0, 0) == Good(Read(ValueOf(data[at..at + j + 1]) % TWO64, at + j + 1))
    {
      VarintValue(data, at, 0, 0, j);
      assert Power128(0) == 1;
    }
    if forall j: nat | j < 10 :: !EndsAfter(data, at, j) { VarintUnended(data, at, 0, 0); }
  }
}
