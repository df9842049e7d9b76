/** Marshalling into a byte buffer from its end, and unmarshalling with a moving cursor. */
module DisputeWire {
  import opened Integers
  import opened Varints
  import opened DisputeCodec

  /** `after` is `before` with `chunk` written over the positions from `from` to `to`. */
  ghost predicate Wrote(before: seq<Byte>, after: seq<Byte>, from: nat, to: nat, chunk: seq<Byte>) {
    from + |chunk| == to <= |before| && after == before[..from] + chunk + before[to..]
  }

  /** Writing backwards puts the later chunk in front. */
  lemma WroteBefore(a: seq<Byte>, b: seq<Byte>, c: seq<Byte>, from: nat, mid: nat, to: nat, front: seq<Byte>, back: seq<Byte>)
    requires Wrote(a, b, mid, to, back) && Wrote(b, c, from, mid, front)
    ensures Wrote(a, c, from, to, front + back)
  {
  }

  lemma WroteNothing(a: seq<Byte>, at: nat)
    requires at <= |a|
    ensures Wrote(a, a, at, at, [])
  {
  }

  method WriteByte(buf: array<Byte>, end: nat, b: Byte) returns (i: nat)
    requires 1 <= end <= buf.Length
    modifies buf
    ensures Wrote(old(buf[..]), buf[..], i, end, [b])
  {
    i := end - 1;
    buf[i] := b;
  }

  method WriteVarint(buf: array<Byte>, end: nat, v: U64) returns (i: nat)
    requires Sov(v) <= end <= buf.Length
    modifies buf
    ensures Wrote(old(buf[..]), buf[..], i, end, Varint(v))
  {
    VarintLength(v);
    i := EncodeVarint(buf, end, v);
    assert old(buf[..])[..i] == old(buf[..i]) && old(buf[..])[end..] == old(buf[end..]);
  }

  /** `copy(dAtA[i:], t)` with `i` set so that the copy ends at `end`. */
  method WriteBytes(buf: array<Byte>, end: nat, t: seq<Byte>) returns (i: nat)
    requires |t| <= end <= buf.Length
    modifies buf
    ensures Wrote(old(buf[..]), buf[..], i, end, t)
  {
    i := end - |t|;
    for k := 0 to |t|
      invariant buf[..] == old(buf[..])[..i] + t[..k] + old(buf[..])[i + k..]
    {
      buf[i + k] := t[k];
    }
    assert t[..|t|] == t;
  }

  method WriteNumber(buf: array<Byte>, end: nat, tag: Byte, v: U64) returns (i: nat)
    requires NumberSize(v) <= end <= buf.Length
    modifies buf
    ensures Wrote(old(buf[..]), buf[..], i, end, NumberChunk(tag, v))
  {
    hide Wrote, Sov, Varint;
    i := end;
    if v != 0 {
      ghost var s0 := buf[..];
      i := WriteVarint(buf, i, v);
      ghost var s1, j := buf[..], i;
      WroteBounds(s0, s1, i, end, Varint(v));
      VarintLength(v);
      i := WriteByte(buf, i, tag);
      WroteBefore(s0, s1, buf[..], i, j, end, [tag], Varint(v));
    } else {
      WroteNothing(buf[..], end);
    }
  }

  lemma WroteBounds(a: seq<Byte>, b: seq<Byte>, from: nat, to: nat, chunk: seq<Byte>)
    requires Wrote(a, b, from, to, chunk)
    ensures from + |chunk| == to && |a| == |b|
  {
  }

  /** Length and tag in front of a payload that already stands before `end`. */
  method WriteHeader(buf: array<Byte>, end: nat, tag: Byte, length: U64) returns (i: nat)
    requires 1 + Sov(length) <= end <= buf.Length
    modifies buf
    ensures Wrote(old(buf[..]), buf[..], i, end, [tag] + Varint(length))
  {
    hide Wrote, Sov, Varint;
    ghost var s0 := buf[..];
    i := WriteVarint(buf, end, length);
    ghost var s1, j := buf[..], i;
    WroteBounds(s0, s1, i, end, Varint(length));
    VarintLength(length);
    i := WriteByte(buf, i, tag);
    WroteBefore(s0, s1, buf[..], i, j, end, [tag], Varint(length));
  }

  lemma HeaderAndPayload(tag: Byte, payload: seq<Byte>)
    ensures [tag] + Varint(|payload|) + payload == Delimited(tag, payload)
  {
  }

  method WriteText(buf: array<Byte>, end: nat, tag: Byte, t: Text) returns (i: nat)
    requires |t| < TWO64 && TextSize(t) <= end <= buf.Length
    modifies buf
    ensures Wrote(old(buf[..]), buf[..], i, end, TextChunk(tag, t))
  {
    hide Wrote, Sov, Varint;
    i := end;
    if |t| > 0 {
      ghost var s0 := buf[..];
      i := WriteBytes(buf, i, t);
      ghost var s1, j := buf[..], i;
      WroteBounds(s0, s1, i, end, t);
      i := WriteHeader(buf, i, tag, |t|);
      WroteBefore(s0, s1, buf[..], i, j, end, [tag] + Varint(|t|), t);
      HeaderAndPayload(tag, t);
    } else {
      WroteNothing(buf[..], end);
    }
  }

  /** `Vote.MarshalToSizedBuffer` on the part of the buffer before `end`. */
  method MarshalVote(buf: array<Byte>, end: nat, v: VoteRecord) returns (n: nat)
    requires VoteSize(v) < TWO63 && VoteSize(v) <= end <= buf.Length
    modifies buf
    ensures n == VoteSize(v) && Wrote(old(buf[..]), buf[..], end - n, end, VoteBytes(v))
  {
    hide Wrote, NumberChunk, TextChunk;
    NumberLength(0x18, v.bondId);
    TextLength(0x0a, v.juror);
    ghost var s0 := buf[..];
    var i := WriteNumber(buf, end, 0x18, v.bondId);
    ghost var s1, i1 := buf[..], i;
    WroteBounds(s0, s1, i, end, NumberChunk(0x18, v.bondId));
    ghost var accept: seq<Byte> := if v.accept then [0x10, 1] else [];
    if v.accept {
      i := WriteByte(buf, i, 1);
      ghost var s := buf[..];
      WroteBounds(s1, s, i, i1, [1]);
      ghost var j := i;
      i := WriteByte(buf, i, 0x10);
      WroteBefore(s1, s, buf[..], i, j, i1, [0x10], [1]);
      assert [0x10] + [1] == accept;
    } else {
      WroteNothing(buf[..], i);
    }
    ghost var s2, i2 := buf[..], i;
    WroteBounds(s1, s2, i, i1, accept);
    WroteBefore(s0, s1, s2, i, i1, end, accept, NumberChunk(0x18, v.bondId));
    i := WriteText(buf, i, 0x0a, v.juror);
    WroteBounds(s2, buf[..], i, i2, TextChunk(0x0a, v.juror));
    WroteBefore(s0, s2, buf[..], i, i2, end, TextChunk(0x0a, v.juror), accept + NumberChunk(0x18, v.bondId));
    n := end - i;
  }

  /** The votes, last to first. */
  method WriteVotes(buf: array<Byte>, end: nat, votes: seq<VoteRecord>) returns (i: nat)
    requires VotesSize(votes) < TWO63 && VotesSize(votes) <= end <= buf.Length
    modifies buf
    ensures Wrote(old(buf[..]), buf[..], i, end, VotesBytes(votes))
  {
    hide Wrote, Delimited, Sov, Varint, VoteBytes, VoteSize;
    i := end;
    ghost var s0 := buf[..];
    WroteNothing(s0, end);
    assert votes[|votes|..] == [];
    for k := |votes| downto 0
      invariant Wrote(s0, buf[..], i, end, VotesBytes(votes[k..]))
    {
      ghost var s1, i1, rest := buf[..], i, VotesBytes(votes[k + 1..]);
      var v := votes[k];
      assert votes[k..][0] == v && votes[k..][1..] == votes[k + 1..];
      WroteBounds(s0, s1, i, end, rest);
      VotesLength(votes[k + 1..]);
      VotesSuffix(votes, k);
      VoteLength(v);
      var size := MarshalVote(buf, i, v);
      ghost var s2 := buf[..];
      i := i - size;
      ghost var i2 := i;
      WroteBounds(s1, s2, i, i1, VoteBytes(v));
      i := WriteHeader(buf, i, 0x3a, size);
      WroteBefore(s1, s2, buf[..], i, i2, i1, [0x3a] + Varint(size), VoteBytes(v));
      HeaderAndPayload(0x3a, VoteBytes(v));
      WroteBefore(s0, s1, buf[..], i, i1, end, Delimited(0x3a, VoteBytes(v)), rest);
    }
    assert votes[0..] == votes;
  }

  /** What remains to be written fits. */
  lemma {:induction false} VotesSuffix(votes: seq<VoteRecord>, k: nat)
    requires k <= |votes|
    ensures VotesSize(votes[k..]) <= VotesSize(votes)
  {
    if k == 0 {
      assert votes[0..] == votes;
    } else {
      VotesSuffix(votes, k - 1);
      assert votes[k - 1..][1..] == votes[k..];
    }
  }

  /** `Dispute.MarshalToSizedBuffer`: the record ends where the buffer ends. */
  method MarshalDispute(buf: array<Byte>, d: DisputeRecord) returns (n: nat)
    requires DisputeSize(d) < TWO63 && DisputeSize(d) <= buf.Length
    modifies buf
    ensures n == DisputeSize(d) && Wrote(old(buf[..]), buf[..], buf.Length - n, buf.Length, DisputeBytes(d))
  {
    hide Wrote, NumberChunk, TextChunk, VotesBytes, NumberSize, TextSize, VotesSize;
    NumberLength(0x40, d.bondId);
    VotesLength(d.votes);
    TextsLength(d);
    ghost var s0, end := buf[..], buf.Length;
    var i := WriteNumber(buf, buf.Length, 0x40, d.bondId);
    ghost var s1, i1, bond := buf[..], i, NumberChunk(0x40, d.bondId);
    WroteBounds(s0, s1, i, end, bond);
    i := WriteVotes(buf, i, d.votes);
    ghost var s2, i2, tail := buf[..], i, VotesBytes(d.votes) + bond;
    WroteBefore(s0, s1, s2, i, i1, end, VotesBytes(d.votes), bond);
    WroteBounds(s0, s2, i, end, tail);
    i := MarshalTexts(buf, i, d);
    ghost var s3, i3, texts := buf[..], i, TextsBytes(d);
    WroteBounds(s2, s3, i, i2, texts);
    WroteBefore(s0, s2, s3, i, i2, end, texts, tail);
    i := MarshalIds(buf, i, d);
    ghost var ids := NumberChunk(0x08, d.id) + NumberChunk(0x10, d.escrowId);
    WroteBounds(s3, buf[..], i, i3, ids);
    WroteBefore(s0, s3, buf[..], i, i3, end, ids, texts + tail);
    Regrouped(d);
    DisputeLength(d);
    n := buf.Length - i;
  }

  function TextsBytes(d: DisputeRecord): seq<Byte> {
    TextChunk(0x1a, d.opener) + (TextChunk(0x22, d.reason) + (TextChunk(0x2a, d.status) + TextChunk(0x32, d.resolution)))
  }

  function TextsSize(d: DisputeRecord): nat {
    TextSize(d.opener) + TextSize(d.reason) + TextSize(d.status) + TextSize(d.resolution)
  }

  lemma TextsLength(d: DisputeRecord)
    ensures |TextsBytes(d)| == TextsSize(d)
    ensures |d.opener| <= TextsSize(d) && |d.reason| <= TextsSize(d) && |d.status| <= TextsSize(d) && |d.resolution| <= TextsSize(d)
  {
    hide Sov, TextChunk;
    TextLength(0x1a, d.opener);
    TextLength(0x22, d.reason);
    TextLength(0x2a, d.status);
    TextLength(0x32, d.resolution);
  }

  lemma Regrouped(d: DisputeRecord)
    ensures (NumberChunk(0x08, d.id) + NumberChunk(0x10, d.escrowId))
            + (TextsBytes(d) + (VotesBytes(d.votes) + NumberChunk(0x40, d.bondId))) == DisputeBytes(d)
  {
    hide NumberChunk, TextChunk, VotesBytes;
    var o, r, s, e := TextChunk(0x1a, d.opener), TextChunk(0x22, d.reason), TextChunk(0x2a, d.status), TextChunk(0x32, d.resolution);
    var tail := VotesBytes(d.votes) + NumberChunk(0x40, d.bondId);
    assert TextsBytes(d) + tail == o + (r + (s + (e + tail)));
  }

  method MarshalTexts(buf: array<Byte>, end: nat, d: DisputeRecord) returns (i: nat)
    requires TextsSize(d) < TWO63 && TextsSize(d) <= end <= buf.Length
    modifies buf
    ensures Wrote(old(buf[..]), buf[..], i, end, TextsBytes(d))
  {
    hide Wrote, TextChunk, TextSize;
    TextsLength(d);
    TextLength(0x32, d.resolution);
    TextLength(0x2a, d.status);
    TextLength(0x22, d.reason);
    ghost var s0 := buf[..];
    i := WriteText(buf, end, 0x32, d.resolution);
    ghost var s1, i1, tail1 := buf[..], i, TextChunk(0x32, d.resolution);
    WroteBounds(s0, s1, i, end, tail1);
    i := WriteText(buf, i, 0x2a, d.status);
    ghost var s2, i2, tail2 := buf[..], i, TextChunk(0x2a, d.status) + tail1;
    WroteBefore(s0, s1, s2, i, i1, end, TextChunk(0x2a, d.status), tail1);
    WroteBounds(s0, s2, i, end, tail2);
    i := WriteText(buf, i, 0x22, d.reason);
    ghost var s3, i3, tail3 := buf[..], i, TextChunk(0x22, d.reason) + tail2;
    WroteBefore(s0, s2, s3, i, i2, end, TextChunk(0x22, d.reason), tail2);
    WroteBounds(s0, s3, i, end, tail3);
    i := WriteText(buf, i, 0x1a, d.opener);
    WroteBefore(s0, s3, buf[..], i, i3, end, TextChunk(0x1a, d.opener), tail3);
  }

  method MarshalIds(buf: array<Byte>, end: nat, d: DisputeRecord) returns (i: nat)
    requires NumberSize(d.id) + NumberSize(d.escrowId) <= end <= buf.Length
    modifies buf
    ensures Wrote(old(buf[..]), buf[..], i, end, NumberChunk(0x08, d.id) + NumberChunk(0x10, d.escrowId))
  {
    hide Wrote, NumberChunk, NumberSize;
    NumberLength(0x10, d.escrowId);
    ghost var s0 := buf[..];
    i := WriteNumber(buf, end, 0x10, d.escrowId);
    ghost var s1, i1 := buf[..], i;
    WroteBounds(s0, s1, i, end, NumberChunk(0x10, d.escrowId));
    i := WriteNumber(buf, i, 0x08, d.id);
    WroteBefore(s0, s1, buf[..], i, i1, end, NumberChunk(0x08, d.id), NumberChunk(0x10, d.escrowId));
  }

  method SizeOfVotes(votes: seq<VoteRecord>) returns (n: nat)
    ensures n == VotesSize(votes)
  {
    hide VoteSize, Sov;
    n := 0;
    for k := 0 to |votes|
      invariant n + VotesSize(votes[k..]) == VotesSize(votes)
    {
      var l := VoteSize(votes[k]);
      assert votes[k..][1..] == votes[k + 1..];
      n := n + 1 + l + Sov(l);
    }
  }

  /** `Dispute.Marshal`: a buffer of exactly the announced size is filled from its first byte to its last. */
  method Marshal(d: DisputeRecord) returns (data: seq<Byte>)
    requires DisputeSize(d) < TWO63
    ensures data == DisputeBytes(d) && |data| == DisputeSize(d)
  {
    hide NumberSize, TextSize, VotesSize, DisputeBytes;
    var votes := SizeOfVotes(d.votes);
    var size := NumberSize(d.id) + NumberSize(d.escrowId) + TextSize(d.opener) + TextSize(d.reason) + TextSize(d.status)
                + TextSize(d.resolution) + votes + NumberSize(d.bondId);
    var buf := new Byte[size];
    var n := MarshalDispute(buf, d);
    data := buf[..n];
    DisputeLength(d);
  }

  method UnmarshalVote(data: Bytes) returns (r: Decoded<VoteRecord>)
    ensures r == ParseVote(data, 0, NO_VOTE)
  {
    hide ReadVarint, ReadBytes, SplitTag, Skip;
    var at, m := 0, NO_VOTE;
    while at < |data|
      invariant at <= |data| && ParseVote(data, at, m) == ParseVote(data, 0, NO_VOTE)
    {
      var preIndex := at;
      var wire := DecodeVarint(data, at);
      if wire.Bad? { return Bad(wire.error); }
      at := wire.value.next;
      var tag := SplitTag(wire.value.value);
      if tag.wireType == 4 { return Bad(EndGroup); }
      if tag.field <= 0 { return Bad(IllegalTag); }
      if tag.field == 1 {
        if tag.wireType != 2 { return Bad(WrongWireType); }
        var t := DecodeBytes(data, at);
        if t.Bad? { return Bad(t.error); }
        m := m.(juror := t.value.value);
        at := t.value.next;
      } else if tag.field <= 3 {
        if tag.wireType != 0 { return Bad(WrongWireType); }
        var v := DecodeVarint(data, at);
        if v.Bad? { return Bad(v.error); }
        m := if tag.field == 2 then m.(accept := v.value.value != 0) else m.(bondId := v.value.value);
        at := v.value.next;
      } else {
        at := preIndex;
        var skippy := SkipLoop(data[at..]);
        if skippy.Bad? { return Bad(skippy.error); }
        if at + skippy.value >= TWO63 { return Bad(InvalidLength); }
        if at + skippy.value > |data| { return Bad(UnexpectedEof); }
        at := at + skippy.value;
      }
    }
    return Good(m);
  }

  method UnmarshalDispute(data: Bytes) returns (r: Decoded<DisputeRecord>)
    ensures r == ParseDispute(data, 0, NO_DISPUTE)
  {
    hide DisputeField;
    var at, m := 0, NO_DISPUTE;
    while at < |data|
      invariant at <= |data| && ParseDispute(data, at, m) == ParseDispute(data, 0, NO_DISPUTE)
    {
      var f := ReadDisputeField(data, at, m);
      if f.Bad? { return Bad(f.error); }
      at, m := f.value.next, f.value.value;
    }
    return Good(m);
  }

  /** One turn of the loop: the tag, then the switch on its field number. */
  method ReadDisputeField(data: Bytes, preIndex: nat, before: DisputeRecord) returns (r: Decoded<Read<DisputeRecord>>)
    requires preIndex < |data|
    ensures r == DisputeField(data, preIndex, before)
  {
    hide ReadVarint, ReadBytes, SplitTag, Skip, ParseVote;
    var at, m := preIndex, before;
    var wire := DecodeVarint(data, at);
    if wire.Bad? { return Bad(wire.error); }
    at := wire.value.next;
    var tag := SplitTag(wire.value.value);
    if tag.wireType == 4 { return Bad(EndGroup); }
    if tag.field <= 0 { return Bad(IllegalTag); }
    if tag.field == 1 || tag.field == 2 || tag.field == 8 {
      if tag.wireType != 0 { return Bad(WrongWireType); }
      var v := DecodeVarint(data, at);
      if v.Bad? { return Bad(v.error); }
      var number := v.value.value;
      m := if tag.field == 1 then m.(id := number) else if tag.field == 2 then m.(escrowId := number) else m.(bondId := number);
      at := v.value.next;
    } else if tag.field <= 7 {
      if tag.wireType != 2 { return Bad(WrongWireType); }
      var t := DecodeBytes(data, at);
      if t.Bad? { return Bad(t.error); }
      var text := t.value.value;
      if tag.field == 3 { m := m.(opener := text); }
      else if tag.field == 4 { m := m.(reason := text); }
      else if tag.field == 5 { m := m.(status := text); }
      else if tag.field == 6 { m := m.(resolution := text); }
      else {
        var vote := UnmarshalVote(text);
        if vote.Bad? { return Bad(vote.error); }
        m := m.(votes := m.votes + [vote.value]);
      }
      at := t.value.next;
    } else {
      at := preIndex;
      var skippy := SkipLoop(data[at..]);
      if skippy.Bad? { return Bad(skippy.error); }
      if at + skippy.value >= TWO63 { return Bad(InvalidLength); }
      if at + skippy.value > |data| { return Bad(UnexpectedEof); }
      at := at + skippy.value;
    }
    return Good(Read(m, at));
  }
}
