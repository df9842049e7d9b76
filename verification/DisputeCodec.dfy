/** The stored form of disputes and their nested votes. */
module DisputeCodec {
  import opened Integers
  import opened Varints

  type Text = seq<Byte>

  datatype VoteRecord = VoteRecord(juror: Text, accept: bool, bondId: U64)

  datatype DisputeRecord = DisputeRecord(
    id: U64,
    escrowId: U64,
    opener: Text,
    reason: Text,
    status: Text,
    resolution: Text,
    votes: seq<VoteRecord>,
    bondId: U64)

  const NO_VOTE := VoteRecord([], false, 0)
  const NO_DISPUTE := DisputeRecord(0, 0, [], [], [], [], [], 0)

  // ---- The encoding -------------------------------------------------------

  /** A number that is not zero, behind its tag. */
  function NumberChunk(tag: Byte, v: U64): seq<Byte> {
    if v == 0 then [] else [tag] + Varint(v)
  }

  /** A payload behind its tag and length. */
  function Delimited(tag: Byte, payload: seq<Byte>): seq<Byte> {
    [tag] + (Varint(|payload|) + payload)
  }

  /** A text that is not empty, behind its tag and length. */
  function TextChunk(tag: Byte, t: Text): seq<Byte> {
    if t == [] then [] else Delimited(tag, t)
  }

  function VoteBytes(v: VoteRecord): seq<Byte> {
    TextChunk(0x0a, v.juror) + ((if v.accept then [0x10, 1] else []) + NumberChunk(0x18, v.bondId))
  }

  function VotesBytes(votes: seq<VoteRecord>): seq<Byte> {
    if votes == [] then [] else Delimited(0x3a, VoteBytes(votes[0])) + VotesBytes(votes[1..])
  }

  function DisputeBytes(d: DisputeRecord): seq<Byte> {
    NumberChunk(0x08, d.id) + (NumberChunk(0x10, d.escrowId)
    + (TextChunk(0x1a, d.opener) + (TextChunk(0x22, d.reason) + (TextChunk(0x2a, d.status) + (TextChunk(0x32, d.resolution)
    + (VotesBytes(d.votes) + NumberChunk(0x40, d.bondId)))))))
  }

  // ---- Sizes --------------------------------------------------------------

  function TextSize(t: Text): nat {
    if |t| > 0 then 1 + |t| + Sov(|t|) else 0
  }

  function NumberSize(v: U64): nat {
    if v != 0 then 1 + Sov(v) else 0
  }

  function VoteSize(v: VoteRecord): nat {
    TextSize(v.juror) + (if v.accept then 2 else 0) + NumberSize(v.bondId)
  }

  function VotesSize(votes: seq<VoteRecord>): nat {
    if votes == [] then 0 else 1 + VoteSize(votes[0]) + Sov(VoteSize(votes[0])) + VotesSize(votes[1..])
  }

  function DisputeSize(d: DisputeRecord): nat {
    NumberSize(d.id) + NumberSize(d.escrowId) + TextSize(d.opener) + TextSize(d.reason) + TextSize(d.status)
    + TextSize(d.resolution) + VotesSize(d.votes) + NumberSize(d.bondId)
  }

  lemma NumberLength(tag: Byte, v: U64)
    ensures |NumberChunk(tag, v)| == NumberSize(v)
  {
    VarintLength(v);
  }

  lemma TextLength(tag: Byte, t: Text)
    ensures |TextChunk(tag, t)| == TextSize(t)
  {
    VarintLength(|t|);
  }

  lemma VoteLength(v: VoteRecord)
    ensures |VoteBytes(v)| == VoteSize(v)
  {
    TextLength(0x0a, v.juror);
    NumberLength(0x18, v.bondId);
  }

  lemma {:induction false} VotesLength(votes: seq<VoteRecord>)
    ensures |VotesBytes(votes)| == VotesSize(votes)
    decreases |votes|
  {
    if votes != [] {
      VoteLength(votes[0]);
      VarintLength(VoteSize(votes[0]));
      VotesLength(votes[1..]);
    }
  }

  /** The size function announces exactly the bytes that are written. */
  lemma DisputeLength(d: DisputeRecord)
    ensures |DisputeBytes(d)| == DisputeSize(d)
  {
    hide NumberChunk, TextChunk, VotesBytes, NumberSize, TextSize, VotesSize;
    NumberLength(0x08, d.id);
    NumberLength(0x10, d.escrowId);
    TextLength(0x1a, d.opener);
    TextLength(0x22, d.reason);
    TextLength(0x2a, d.status);
    TextLength(0x32, d.resolution);
    VotesLength(d.votes);
    NumberLength(0x40, d.bondId);
  }

  // ---- The parser ---------------------------------------------------------

  function NumberField(data: Bytes, at: nat, wireType: nat): (r: Decoded<Read<U64>>)
    requires at <= |data|
    ensures r.Good? ==> at < r.value.next <= |data|
  {
    if wireType != 0 then Bad(WrongWireType) else ReadVarint(data, at, 0, 0)
  }

  function TextField(data: Bytes, at: nat, wireType: nat): (r: Decoded<Read<Bytes>>)
    requires at <= |data|
    ensures r.Good? ==> at < r.value.next <= |data|
  {
    if wireType != 2 then Bad(WrongWireType) else ReadBytes(data, at)
  }

  /** Reads one field into a vote. */
  function VoteField(data: Bytes, at: nat, m: VoteRecord): (r: Decoded<Read<VoteRecord>>)
    requires at < |data|
    ensures r.Good? ==> at < r.value.next <= |data|
  {
    var tag :- ReadTag(data, at);
    var next, wireType := tag.next, tag.value.wireType;
    match tag.value.field
    case 1 => (var t :- TextField(data, next, wireType); Good(Read(m.(juror := t.value), t.next)))
    case 2 => (var v :- NumberField(data, next, wireType); Good(Read(m.(accept := v.value != 0), v.next)))
    case 3 => (var v :- NumberField(data, next, wireType); Good(Read(m.(bondId := v.value), v.next)))
    case _ => (var n :- SkipField(data, at); Good(Read(m, n)))
  }

  function ParseVote(data: Bytes, at: nat, m: VoteRecord): Decoded<VoteRecord>
    decreases |data| - at
  {
    if at >= |data| then Good(m) else
    var f :- VoteField(data, at, m);
    ParseVote(data, f.next, f.value)
  }

  /** Reads one field into a dispute; a vote is parsed into a fresh record and appended. */
  function DisputeField(data: Bytes, at: nat, m: DisputeRecord): (r: Decoded<Read<DisputeRecord>>)
    requires at < |data|
    ensures r.Good? ==> at < r.value.next <= |data|
  {
    var tag :- ReadTag(data, at);
    var next, wireType := tag.next, tag.value.wireType;
    match tag.value.field
    case 1 => (var v :- NumberField(data, next, wireType); Good(Read(m.(id := v.value), v.next)))
    case 2 => (var v :- NumberField(data, next, wireType); Good(Read(m.(escrowId := v.value), v.next)))
    case 3 => (var t :- TextField(data, next, wireType); Good(Read(m.(opener := t.value), t.next)))
    case 4 => (var t :- TextField(data, next, wireType); Good(Read(m.(reason := t.value), t.next)))
    case 5 => (var t :- TextField(data, next, wireType); Good(Read(m.(status := t.value), t.next)))
    case 6 => (var t :- TextField(data, next, wireType); Good(Read(m.(resolution := t.value), t.next)))
    case 7 =>
      var t :- TextField(data, next, wireType);
      var v :- ParseVote(t.value, 0, NO_VOTE);
      Good(Read(m.(votes := m.votes + [v]), t.next))
    case 8 => (var v :- NumberField(data, next, wireType); Good(Read(m.(bondId := v.value), v.next)))
    case _ => (var n :- SkipField(data, at); Good(Read(m, n)))
  }

  /** Parses the rest of `data` from `at` into `m`. */
  function ParseDispute(data: Bytes, at: nat, m: DisputeRecord): Decoded<DisputeRecord>
    decreases |data| - at
  {
    if at >= |data| then Good(m) else
    var f :- DisputeField(data, at, m);
    ParseDispute(data, f.next, f.value)
  }

  // ---- Round trip ---------------------------------------------------------

  lemma TagStands(data: seq<Byte>, at: nat, tag: Byte, rest: seq<Byte>)
    requires StandsAt(data, at, [tag] + rest)
    ensures at < |data| && data[at] == tag && StandsAt(data, at + 1, rest)
  {
    StandsSplit(data, at, [tag], rest);
    assert data[at..at + 1][0] == tag;
  }

  /** A number chunk that is there is read as its number. */
  lemma NumberRead(data: Bytes, at: nat, field: nat, v: U64)
    requires 1 <= field < 16 && v != 0 && StandsAt(data, at, NumberChunk(field * 8, v))
    ensures at < |data| && ReadTag(data, at) == Good(Read(Tag(field, 0), at + 1))
    ensures NumberField(data, at + 1, 0) == Good(Read(v, at + |NumberChunk(field * 8, v)|))
  {
    hide ReadTag, ReadVarint, Varint;
    TagStands(data, at, field * 8, Varint(v));
    ReadBackTag(data, at, field, 0);
    ReadBack(data, at + 1, v);
  }

  lemma DelimitedRead(data: Bytes, at: nat, field: nat, payload: seq<Byte>)
    requires 1 <= field < 16 && StandsAt(data, at, Delimited(field * 8 + 2, payload))
    ensures at < |data| && |payload| < TWO63
    ensures ReadTag(data, at) == Good(Read(Tag(field, 2), at + 1))
    ensures TextField(data, at + 1, 2) == Good(Read(payload, at + |Delimited(field * 8 + 2, payload)|))
  {
    hide ReadTag, ReadBytes, Varint;
    TagStands(data, at, field * 8 + 2, Varint(|payload|) + payload);
    ReadBackTag(data, at, field, 2);
    ReadBackBytes(data, at + 1, payload);
  }

  /** What parsing the encoding of `v` makes of a vote already holding `m`. */
  function MergeVote(m: VoteRecord, v: VoteRecord): VoteRecord {
    VoteRecord(if v.juror == [] then m.juror else v.juror, m.accept || v.accept, if v.bondId == 0 then m.bondId else v.bondId)
  }

  lemma VoteStepJuror(data: Bytes, at: nat, m: VoteRecord, juror: Text)
    requires StandsAt(data, at, TextChunk(0x0a, juror))
    ensures ParseVote(data, at, m)
         == ParseVote(data, at + |TextChunk(0x0a, juror)|, m.(juror := if juror == [] then m.juror else juror))
  {
    hide ReadTag, TextField, Delimited, SkipField;
    if juror != [] { DelimitedRead(data, at, 1, juror); }
  }

  lemma VoteStepAccept(data: Bytes, at: nat, m: VoteRecord)
    requires StandsAt(data, at, [0x10, 1])
    ensures ParseVote(data, at, m) == ParseVote(data, at + 2, m.(accept := true))
  {
    hide ReadTag, NumberField, SkipField;
    assert [0x10] + Varint(1) == [0x10, 1];
    NumberRead(data, at, 2, 1);
  }

  lemma VoteStepBond(data: Bytes, at: nat, m: VoteRecord, bondId: U64)
    requires StandsAt(data, at, NumberChunk(0x18, bondId))
    ensures ParseVote(data, at, m)
         == ParseVote(data, at + |NumberChunk(0x18, bondId)|, m.(bondId := if bondId == 0 then m.bondId else bondId))
  {
    hide ReadTag, NumberField, Varint, SkipField;
    if bondId != 0 { NumberRead(data, at, 3, bondId); }
  }

  /** Parsing past an encoded vote merges it in. */
  lemma VoteParses(data: Bytes, at: nat, m: VoteRecord, v: VoteRecord)
    requires StandsAt(data, at, VoteBytes(v))
    ensures ParseVote(data, at, m) == ParseVote(data, at + |VoteBytes(v)|, MergeVote(m, v))
  {
    hide ParseVote, TextChunk, NumberChunk, StandsAt;
    var juror, accept, bond := TextChunk(0x0a, v.juror), if v.accept then [0x10, 1] else [], NumberChunk(0x18, v.bondId);
    StandsSplit(data, at, juror, accept + bond);
    StandsSplit(data, at + |juror|, accept, bond);
    VoteStepJuror(data, at, m, v.juror);
    var m1 := m.(juror := if v.juror == [] then m.juror else v.juror);
    if v.accept { VoteStepAccept(data, at + |juror|, m1); }
    VoteStepBond(data, at + |juror| + |accept|, m1.(accept := m.accept || v.accept), v.bondId);
  }

  lemma VoteRoundTrip(v: VoteRecord)
    requires |VoteBytes(v)| < TWO63
    ensures ParseVote(VoteBytes(v), 0, NO_VOTE) == Good(v)
  {
    VoteParses(VoteBytes(v), 0, NO_VOTE, v);
  }

  // The number and text fields of a dispute, by field number.

  function WithNumber(m: DisputeRecord, field: nat, v: U64): DisputeRecord {
    if v == 0 then m
    else if field == 1 then m.(id := v) else if field == 2 then m.(escrowId := v) else m.(bondId := v)
  }

  function WithText(m: DisputeRecord, field: nat, t: Text): DisputeRecord {
    if t == [] then m
    else if field == 3 then m.(opener := t) else if field == 4 then m.(reason := t)
    else if field == 5 then m.(status := t) else m.(resolution := t)
  }

  lemma StepNumber(data: Bytes, at: nat, m: DisputeRecord, field: nat, v: U64)
    requires field in {1, 2, 8} && StandsAt(data, at, NumberChunk(field * 8, v))
    ensures ParseDispute(data, at, m) == ParseDispute(data, at + |NumberChunk(field * 8, v)|, WithNumber(m, field, v))
  {
    hide ReadTag, NumberField, TextField, Varint, SkipField, ParseVote;
    if v != 0 { NumberRead(data, at, field, v); }
  }

  lemma StepText(data: Bytes, at: nat, m: DisputeRecord, field: nat, t: Text)
    requires 3 <= field <= 6 && StandsAt(data, at, TextChunk(field * 8 + 2, t))
    ensures ParseDispute(data, at, m) == ParseDispute(data, at + |TextChunk(field * 8 + 2, t)|, WithText(m, field, t))
  {
    hide ReadTag, NumberField, TextField, Delimited, SkipField, ParseVote;
    if t != [] { DelimitedRead(data, at, field, t); }
  }

  lemma {:induction false} StepVotes(data: Bytes, at: nat, m: DisputeRecord, votes: seq<VoteRecord>)
    requires StandsAt(data, at, VotesBytes(votes))
    ensures ParseDispute(data, at, m) == ParseDispute(data, at + |VotesBytes(votes)|, m.(votes := m.votes + votes))
    decreases |votes|
  {
    hide ReadTag, NumberField, TextField, Delimited, SkipField, ParseVote, VoteBytes, StandsAt;
    if votes == [] {
      assert m.votes + [] == m.votes;
    } else {
      var first, chunk := VoteBytes(votes[0]), Delimited(0x3a, VoteBytes(votes[0]));
      StandsSplit(data, at, chunk, VotesBytes(votes[1..]));
      DelimitedRead(data, at, 7, first);
      VoteRoundTrip(votes[0]);
      StepVotes(data, at + |chunk|, m.(votes := m.votes + [votes[0]]), votes[1..]);
      assert m.votes + [votes[0]] + votes[1..] == m.votes + votes;
    }
  }

  /** What parsing the encoding of `d` makes of a record already holding `m`: fields that were written
      replace, votes are appended. */
  function Merge(m: DisputeRecord, d: DisputeRecord): DisputeRecord {
    DisputeRecord(if d.id == 0 then m.id else d.id, if d.escrowId == 0 then m.escrowId else d.escrowId,
                  if d.opener == [] then m.opener else d.opener, if d.reason == [] then m.reason else d.reason,
                  if d.status == [] then m.status else d.status, if d.resolution == [] then m.resolution else d.resolution,
                  m.votes + d.votes, if d.bondId == 0 then m.bondId else d.bondId)
  }

  /** One number chunk and what comes after it. */
  lemma PastNumber(data: Bytes, at: nat, m: DisputeRecord, field: nat, v: U64, rest: seq<Byte>) returns (next: nat, m': DisputeRecord)
    requires field in {1, 2, 8} && StandsAt(data, at, NumberChunk(field * 8, v) + rest)
    ensures next == at + |NumberChunk(field * 8, v)| && m' == WithNumber(m, field, v)
    ensures StandsAt(data, next, rest) && ParseDispute(data, at, m) == ParseDispute(data, next, m')
  {
    StandsSplit(data, at, NumberChunk(field * 8, v), rest);
    StepNumber(data, at, m, field, v);
    next, m' := at + |NumberChunk(field * 8, v)|, WithNumber(m, field, v);
  }

  /** One text chunk and what comes after it. */
  lemma PastText(data: Bytes, at: nat, m: DisputeRecord, field: nat, t: Text, rest: seq<Byte>) returns (next: nat, m': DisputeRecord)
    requires 3 <= field <= 6 && StandsAt(data, at, TextChunk(field * 8 + 2, t) + rest)
    ensures next == at + |TextChunk(field * 8 + 2, t)| && m' == WithText(m, field, t)
    ensures StandsAt(data, next, rest) && ParseDispute(data, at, m) == ParseDispute(data, next, m')
  {
    StandsSplit(data, at, TextChunk(field * 8 + 2, t), rest);
    StepText(data, at, m, field, t);
    next, m' := at + |TextChunk(field * 8 + 2, t)|, WithText(m, field, t);
  }

  /** Parsing past an encoded dispute, wherever it stands in the input, merges it in. */
  lemma DisputeParses(data: Bytes, at: nat, m: DisputeRecord, d: DisputeRecord)
    requires StandsAt(data, at, DisputeBytes(d))
    ensures ParseDispute(data, at, m) == ParseDispute(data, at + |DisputeBytes(d)|, Merge(m, d))
  {
    hide ParseDispute, TextChunk, NumberChunk, VotesBytes, StandsAt;
    var votes, bond := VotesBytes(d.votes), NumberChunk(0x40, d.bondId);
    var tail3 := votes + bond;
    var tail2 := TextChunk(0x2a, d.status) + (TextChunk(0x32, d.resolution) + tail3);
    var tail1 := TextChunk(0x1a, d.opener) + (TextChunk(0x22, d.reason) + tail2);
    var i, n := PastNumber(data, at, m, 1, d.id, NumberChunk(0x10, d.escrowId) + tail1);
    i, n := PastNumber(data, i, n, 2, d.escrowId, tail1);
    i, n := PastText(data, i, n, 3, d.opener, TextChunk(0x22, d.reason) + tail2);
    i, n := PastText(data, i, n, 4, d.reason, tail2);
    i, n := PastText(data, i, n, 5, d.status, TextChunk(0x32, d.resolution) + tail3);
    i, n := PastText(data, i, n, 6, d.resolution, tail3);
    StandsSplit(data, i, votes, bond);
    StepVotes(data, i, n, d.votes);
    StepNumber(data, i + |votes|, n.(votes := n.votes + d.votes), 8, d.bondId);
  }

  lemma MergeIntoNothing(d: DisputeRecord)
    ensures Merge(NO_DISPUTE, d) == d
  {
  }

  /** Unmarshalling what was marshalled gives the record back, whatever its fields and votes. */
  lemma DisputeRoundTrip(d: DisputeRecord)
    requires |DisputeBytes(d)| < TWO63
    ensures ParseDispute(DisputeBytes(d), 0, NO_DISPUTE) == Good(d)
  {
    hide DisputeBytes;
    DisputeParses(DisputeBytes(d), 0, NO_DISPUTE, d);
    MergeIntoNothing(d);
  }

  /** So different records have different encodings. */
  lemma DisputeBytesInjective(c: DisputeRecord, d: DisputeRecord)
    requires |DisputeBytes(c)| < TWO63 && DisputeBytes(c) == DisputeBytes(d)
    ensures c == d
  {
    hide DisputeBytes, ParseDispute;
    DisputeRoundTrip(c);
    DisputeRoundTrip(d);
  }

  /** Encodings can be concatenated: parsing both is parsing the merged record. */
  lemma ConcatenationMerges(c: DisputeRecord, d: DisputeRecord)
    requires |DisputeBytes(c) + DisputeBytes(d)| < TWO63
    ensures ParseDispute(DisputeBytes(c) + DisputeBytes(d), 0, NO_DISPUTE) == Good(Merge(c, d))
  {
    hide DisputeBytes, Merge, DisputeField;
    var data := DisputeBytes(c) + DisputeBytes(d);
    assert data[|DisputeBytes(c)|..] == DisputeBytes(d);
    DisputeParses(data, 0, NO_DISPUTE, c);
    MergeIntoNothing(c);
    DisputeParses(data, |DisputeBytes(c)|, c, d);
  }

  // ---- Field numbers ------------------------------------------------------

  /** A number field, and a text field, that is the whole input. */
  lemma LoneNumber(field: nat, v: U64)
    requires field in {1, 2, 8} && v != 0
    ensures |NumberChunk(field * 8, v)| < TWO63
    ensures ParseDispute(NumberChunk(field * 8, v), 0, NO_DISPUTE) == Good(WithNumber(NO_DISPUTE, field, v))
  {
    NumberLength(field * 8, v);
    SovSmall(v);
    StepNumber(NumberChunk(field * 8, v), 0, NO_DISPUTE, field, v);
  }

  lemma SovSmall(v: U64)
    ensures NumberSize(v) <= 11
  {
    VarintFits(v);
    VarintLength(v);
  }

  lemma LoneText(field: nat, t: Text)
    requires 3 <= field <= 6 && t != [] && |TextChunk(field * 8 + 2, t)| < TWO63
    ensures ParseDispute(TextChunk(field * 8 + 2, t), 0, NO_DISPUTE) == Good(WithText(NO_DISPUTE, field, t))
  {
    StepText(TextChunk(field * 8 + 2, t), 0, NO_DISPUTE, field, t);
  }

  /** Behind the tag of each field number a number, or a length and as many bytes, is read as the field that the
      message definition gives that number: 1 the id, 2 the escrow, 3 the opener, 4 the reason, 5 the status, 6
      the resolution, 8 the bond. */
  lemma FieldNumbers(n: U64, t: Text)
    requires n != 0 && t != [] && 1 + |Varint(|t|)| + |t| < TWO63
    ensures 1 + |Varint(n)| < TWO63
    ensures ParseDispute([8] + Varint(n), 0, NO_DISPUTE) == Good(DisputeRecord(n, 0, [], [], [], [], [], 0))
    ensures ParseDispute([16] + Varint(n), 0, NO_DISPUTE) == Good(DisputeRecord(0, n, [], [], [], [], [], 0))
    ensures ParseDispute([26] + (Varint(|t|) + t), 0, NO_DISPUTE) == Good(DisputeRecord(0, 0, t, [], [], [], [], 0))
    ensures ParseDispute([34] + (Varint(|t|) + t), 0, NO_DISPUTE) == Good(DisputeRecord(0, 0, [], t, [], [], [], 0))
    ensures ParseDispute([42] + (Varint(|t|) + t), 0, NO_DISPUTE) == Good(DisputeRecord(0, 0, [], [], t, [], [], 0))
    ensures ParseDispute([50] + (Varint(|t|) + t), 0, NO_DISPUTE) == Good(DisputeRecord(0, 0, [], [], [], t, [], 0))
    ensures ParseDispute([64] + Varint(n), 0, NO_DISPUTE) == Good(DisputeRecord(0, 0, [], [], [], [], [], n))
  {
    hide ParseDispute, Varint;
    LoneNumber(1, n);
    LoneNumber(2, n);
    LoneNumber(8, n);
    LoneText(3, t);
    LoneText(4, t);
    LoneText(5, t);
    LoneText(6, t);
  }

  /** The same for votes, field 7 of a dispute: 1 the juror, 2 the verdict, 3 the bond. */
  lemma VoteFieldNumbers(n: U64, t: Text, v: VoteRecord)
    requires n != 0 && t != [] && 1 + |Varint(|t|)| + |t| < TWO63
    requires 1 + |Varint(|VoteBytes(v)|)| + |VoteBytes(v)| < TWO63
    ensures 1 + |Varint(n)| < TWO63
    ensures ParseVote([10] + (Varint(|t|) + t), 0, NO_VOTE) == Good(VoteRecord(t, false, 0))
    ensures ParseVote([16, 1], 0, NO_VOTE) == Good(VoteRecord([], true, 0))
    ensures ParseVote([24] + Varint(n), 0, NO_VOTE) == Good(VoteRecord([], false, n))
    ensures ParseDispute([58] + (Varint(|VoteBytes(v)|) + VoteBytes(v)), 0, NO_DISPUTE)
         == Good(DisputeRecord(0, 0, [], [], [], [], [v], 0))
  {
    hide Varint, VoteBytes, ParseVote, ParseDispute, VotesBytes;
    LoneJuror(t);
    LoneAccept();
    LoneBond(n);
    assert Delimited(0x3a, VoteBytes(v)) == [58] + (Varint(|VoteBytes(v)|) + VoteBytes(v));
    LoneVote(v);
  }

  lemma LoneJuror(t: Text)
    requires t != [] && |TextChunk(10, t)| < TWO63
    ensures ParseVote(TextChunk(10, t), 0, NO_VOTE) == Good(NO_VOTE.(juror := t))
  {
    VoteStepJuror(TextChunk(10, t), 0, NO_VOTE, t);
  }

  lemma LoneAccept()
    ensures ParseVote([16, 1], 0, NO_VOTE) == Good(NO_VOTE.(accept := true))
  {
    VoteStepAccept([16, 1], 0, NO_VOTE);
  }

  lemma LoneBond(n: U64)
    requires n != 0
    ensures |NumberChunk(24, n)| < TWO63 && ParseVote(NumberChunk(24, n), 0, NO_VOTE) == Good(NO_VOTE.(bondId := n))
  {
    NumberLength(24, n);
    SovSmall(n);
    VoteStepBond(NumberChunk(24, n), 0, NO_VOTE, n);
  }

  lemma LoneVote(v: VoteRecord)
    requires 1 + |Varint(|VoteBytes(v)|)| + |VoteBytes(v)| < TWO63
    ensures VotesBytes([v]) == Delimited(0x3a, VoteBytes(v)) && |VotesBytes([v])| < TWO63
    ensures ParseDispute(VotesBytes([v]), 0, NO_DISPUTE) == Good(NO_DISPUTE.(votes := [v]))
  {
    hide DisputeField, Varint, VoteBytes;
    assert [v][1..] == [] && VotesBytes([]) == [];
    assert VotesBytes([v]) == Delimited(0x3a, VoteBytes(v));
    assert [] + [v] == [v];
    StepVotes(VotesBytes([v]), 0, NO_DISPUTE, [v]);
  }

  // ---- Unknown fields -----------------------------------------------------

  /** `payload` is one value of wire type `wireType`: a varint, eight bytes, a length and as many bytes, or four
      bytes. */
  ghost predicate OneValue(wireType: nat, payload: seq<Byte>) {
    || (wireType == 0 && exists v: U64 :: payload == Varint(v))
    || (wireType == 1 && |payload| == 8)
    || (wireType == 2 && exists s: seq<Byte> :: payload == Varint(|s|) + s)
    || (wireType == 5 && |payload| == 4)
  }

  lemma PayloadSkipped(data: Bytes, at: nat, wireType: nat, payload: seq<Byte>)
    requires OneValue(wireType, payload) && StandsAt(data, at, payload)
    ensures SkipPayload(data, at, wireType) == Good(at + |payload|)
  {
    hide ReadVarint, Varint;
    if wireType == 0 {
      var v: U64 :| payload == Varint(v);
      ReadBack(data, at, v);
    } else if wireType == 2 {
      var s: seq<Byte> :| payload == Varint(|s|) + s;
      StandsSplit(data, at, Varint(|s|), s);
      ReadBack(data, at, |s|);
    }
  }

  lemma FieldSkipped(data: Bytes, at: nat, wire: U64, payload: seq<Byte>)
    requires OneValue(wire % 8, payload) && StandsAt(data, at, Varint(wire) + payload)
    ensures SkipField(data, at) == Good(at + |Varint(wire) + payload|)
  {
    hide ReadVarint, Varint, SkipPayload, OneValue;
    var tail: Bytes := data[at..];
    var chunk := Varint(wire) + payload;
    assert StandsAt(tail, 0, chunk) by { assert tail[0..|chunk|] == data[at..at + |chunk|]; }
    StandsSplit(tail, 0, Varint(wire), payload);
    ReadBack(tail, 0, wire);
    PayloadSkipped(tail, |Varint(wire)|, wire % 8, payload);
    WireTypes(wire % 8, payload);
  }

  lemma WireTypes(wireType: nat, payload: seq<Byte>)
    requires OneValue(wireType, payload)
    ensures wireType in {0, 1, 2, 5}
  {
  }

  lemma TagRead(data: Bytes, at: nat, field: nat, wireType: nat)
    requires 1 <= field < 0x2000_0000 && wireType in {0, 1, 2, 5} && StandsAt(data, at, Varint(field * 8 + wireType))
    ensures ReadTag(data, at) == Good(Read(Tag(field, wireType), at + |Varint(field * 8 + wireType)|))
  {
    hide ReadVarint, Varint;
    ReadBack(data, at, field * 8 + wireType);
  }

  /** Records written with further fields are still read: a field whose number is not one of the eight, of any
      wire type but a group, is passed over wherever it stands. */
  lemma UnknownFieldIgnored(data: Bytes, at: nat, m: DisputeRecord, field: nat, wireType: nat, payload: seq<Byte>)
    requires 8 < field < 0x2000_0000 && OneValue(wireType, payload)
    requires StandsAt(data, at, Varint(field * 8 + wireType) + payload)
    ensures ParseDispute(data, at, m) == ParseDispute(data, at + |Varint(field * 8 + wireType) + payload|, m)
  {
    hide ReadTag, SkipField, Varint, OneValue, TextField, NumberField, ParseVote;
    WireTypes(wireType, payload);
    StandsSplit(data, at, Varint(field * 8 + wireType), payload);
    TagRead(data, at, field, wireType);
    FieldSkipped(data, at, field * 8 + wireType, payload);
  }
}
