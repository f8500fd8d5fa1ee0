/** The `ProtoWireType` enum of the benchmark: the closed set of Protocol
    Buffers wire types, the reference linear-scan decoder and the four
    alternative decoding strategies whose cost the benchmark compares. */
module WireType {
  import opened KotlinInt

  /** The enum entries, in declaration order. The deprecated group wire types
      3 and 4 are not members. */
  datatype ProtoWireType = INVALID | VARINT | i64 | SIZE_DELIMITED | i32

  datatype Option<T> = None | Some(value: T)

  /** The constructor argument `typeId` of each entry. */
  function TypeId(t: ProtoWireType): int
  {
    match t
    case INVALID => -1
    case VARINT => 0
    case i64 => 1
    case SIZE_DELIMITED => 2
    case i32 => 5
  }

  /** The wire-type codes of the non-sentinel entries. */
  predicate IsWireTypeCode(x: int)
  {
    x == 0 || x == 1 || x == 2 || x == 5
  }

  /** `ProtoWireType.entries`: every entry once, in declaration order. */
  const Entries: seq<ProtoWireType> := [INVALID, VARINT, i64, SIZE_DELIMITED, i32]

  /** Kotlin's `find { it.typeId == typeId }`: the first element of `s` whose
      code is `typeId`, or `None` when no element has that code. */
  function Find(s: seq<ProtoWireType>, typeId: int): (r: Option<ProtoWireType>)
    ensures r.None? <==> forall i | 0 <= i < |s| :: TypeId(s[i]) != typeId
    ensures r.Some? ==> exists i | 0 <= i < |s| ::
      s[i] == r.value && TypeId(s[i]) == typeId && forall j | 0 <= j < i :: TypeId(s[j]) != typeId
  {
    if s == [] then None
    else if TypeId(s[0]) == typeId then Some(s[0])
    else
      var r := Find(s[1..], typeId);
      assert forall i | 1 <= i < |s| :: s[i] == s[1..][i - 1];
      if r.Some? then
        var k :| 0 <= k < |s[1..]| && s[1..][k] == r.value && TypeId(s[1..][k]) == typeId
          && forall j | 0 <= j < k :: TypeId(s[1..][j]) != typeId;
        assert s[k + 1] == r.value;
        r
      else r
  }

  /** The reference decoder `fromDefaultImpl`: a linear scan of `Entries`,
      falling back to `INVALID` (Kotlin's `?: INVALID`). The result is a
      non-sentinel entry exactly when the input is one of the four wire-type
      codes, and that entry then carries the input as its code. */
  function FromDefaultImpl(typeId: Int32): (r: ProtoWireType)
    ensures r != INVALID <==> IsWireTypeCode(typeId)
    ensures r != INVALID ==> TypeId(r) == typeId
  {
    match Find(Entries, typeId)
    case Some(t) => t
    case None => INVALID
  }

  /** `Array(size) { typeId -> find ... ?: INVALID }`: entry `i` of the table
      is what the reference decoder gives for `i`. */
  function BuildTable(size: nat): (table: seq<ProtoWireType>)
    requires size <= 0x8000_0000
    ensures |table| == size
    ensures forall i | 0 <= i < size :: table[i] == FromDefaultImpl(i)
  {
    seq(size, i requires 0 <= i < size => FromDefaultImpl(i))
  }

  /** `staticEntries`, the 8-entry table, built once and never written. */
  const StaticEntries: seq<ProtoWireType> := BuildTable(8)

  /** `shortEntries`, the 6-entry table, built once and never written. */
  const ShortEntries: seq<ProtoWireType> := BuildTable(6)

  /** `fromArray`: a guarded read of the 8-entry table. The guard keeps every
      read in bounds, and the result is the reference decoder's for every input. */
  function FromArray(typeId: Int32): (r: ProtoWireType)
    ensures r == FromDefaultImpl(typeId)
    ensures (typeId < 0 || typeId >= 8) ==> r == INVALID
  {
    if typeId < 0 || typeId >= |StaticEntries| then INVALID
    else StaticEntries[typeId]
  }

  /** `fromShortArray`: a guarded read of the 6-entry table. The guard keeps
      every read in bounds, and the result is the reference decoder's for every
      input; 6 and 7 are turned away by the guard. */
  function FromShortArray(typeId: Int32): (r: ProtoWireType)
    ensures r == FromDefaultImpl(typeId)
    ensures (typeId < 0 || typeId >= 6) ==> r == INVALID
  {
    if typeId < 0 || typeId >= |ShortEntries| then INVALID
    else ShortEntries[typeId]
  }

  /** `fromArrayLowerBits`: an unguarded read of the 8-entry table at
      `typeId and 7`. The mask alone keeps the read in bounds; the result is
      what the guarded 8-entry lookup gives for the masked input, that is, the
      reference decoder's answer for `typeId` modulo 8. */
  function FromArrayLowerBits(typeId: Int32): (r: ProtoWireType)
    ensures r == FromArray(Low3Bits(typeId))
    ensures r == FromDefaultImpl(typeId % 8)
  {
    StaticEntries[Low3Bits(typeId)]
  }

  /** `fromSwitch`: a `when` chain comparing the input with each non-sentinel
      entry's code in declaration order. It agrees with the reference decoder
      on every input. */
  function FromSwitch(typeId: Int32): (r: ProtoWireType)
    ensures r == FromDefaultImpl(typeId)
  {
    if typeId == TypeId(VARINT) then VARINT
    else if typeId == TypeId(i64) then i64
    else if typeId == TypeId(SIZE_DELIMITED) then SIZE_DELIMITED
    else if typeId == TypeId(i32) then i32
    else INVALID
  }

  /** No two entries share a code. */
  lemma TypeIdInjective(a: ProtoWireType, b: ProtoWireType)
    requires TypeId(a) == TypeId(b)
    ensures a == b
  {
  }

  /** `Entries` lists every entry exactly once. */
  lemma EntriesListEveryEntryOnce(t: ProtoWireType)
    ensures t in Entries
    ensures forall i, j | 0 <= i < j < |Entries| :: Entries[i] != Entries[j]
  {
  }

  /** The reference decoder on each code: the four wire types for 0, 1, 2
      and 5, and `INVALID` for everything else. For -1 the scan actually meets
      `INVALID`, the first entry, whose own code is -1; for every other
      non-code it runs off the end and falls back to `INVALID`. */
  lemma FromDefaultImplResults(x: Int32)
    ensures FromDefaultImpl(0) == VARINT
    ensures FromDefaultImpl(1) == i64
    ensures FromDefaultImpl(2) == SIZE_DELIMITED
    ensures FromDefaultImpl(5) == i32
    ensures !IsWireTypeCode(x) ==> FromDefaultImpl(x) == INVALID
    ensures Find(Entries, -1) == Some(INVALID)
    ensures x != -1 && !IsWireTypeCode(x) ==> Find(Entries, x) == None
  {
  }

  /** The contents of the 8-entry table: the wire types sit at their codes
      and the gaps 3, 4, 6 and 7 hold `INVALID`. */
  lemma StaticEntriesContents()
    ensures StaticEntries == [VARINT, i64, SIZE_DELIMITED, INVALID, INVALID, i32, INVALID, INVALID]
  {
    assert StaticEntries[0] == VARINT && StaticEntries[1] == i64;
    assert StaticEntries[2] == SIZE_DELIMITED && StaticEntries[3] == INVALID;
    assert StaticEntries[4] == INVALID && StaticEntries[5] == i32;
    assert StaticEntries[6] == INVALID && StaticEntries[7] == INVALID;
  }

  /** The contents of the 6-entry table: the first six entries of the
      8-entry one, the last of them i32. */
  lemma ShortEntriesContents()
    ensures ShortEntries == [VARINT, i64, SIZE_DELIMITED, INVALID, INVALID, i32]
    ensures ShortEntries == StaticEntries[..6]
  {
    assert ShortEntries[0] == VARINT && ShortEntries[1] == i64;
    assert ShortEntries[2] == SIZE_DELIMITED && ShortEntries[3] == INVALID;
    assert ShortEntries[4] == INVALID && ShortEntries[5] == i32;
    assert ShortEntries == [VARINT, i64, SIZE_DELIMITED, INVALID, INVALID, i32];
    StaticEntriesContents();
  }

  /** The masked lookup aliases: shifting the input by 8 does not change
      its answer, so 8 decodes as VARINT and 13 as i32 although neither is a
      wire-type code, while the guarded lookup rejects both. */
  lemma LowerBitsAliasing(x: Int32)
    requires x + 8 < 0x8000_0000
    ensures FromArrayLowerBits(x + 8) == FromArrayLowerBits(x)
    ensures FromArrayLowerBits(8) == VARINT && FromArray(8) == INVALID
    ensures FromArrayLowerBits(13) == i32 && FromArray(13) == INVALID
    ensures FromArrayLowerBits(-1) == INVALID
  {
    assert (x + 8) % 8 == x % 8;
  }

  /** Exactly when the masked lookup departs from the reference decoder: the
      input lies outside [0, 8) and its low three bits form a wire-type code. */
  lemma LowerBitsAgreesWithReference(x: Int32)
    ensures FromArrayLowerBits(x) != FromDefaultImpl(x)
        <==> (x < 0 || 8 <= x) && IsWireTypeCode(x % 8)
    ensures 0 <= x < 8 ==> FromArrayLowerBits(x) == FromDefaultImpl(x)
  {
  }
}
