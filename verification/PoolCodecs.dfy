/**
 The two records that carry a leadership pool distribution: the frozen leadership
 object (crates/ade_ledger/src/frozen_leadership.rs) and the bootstrap bridge record
 (crates/ade_ledger/src/bootstrap_bridge.rs).
 */
module PoolCodecs {
  import opened LedgerTypes
  import opened Cbor
  import opened CanonicalMaps
  import opened SeedAuthority

  datatype PoolEntry = PoolEntry(activeStake: U64, vrf: Hash32)

  function ReadPoolEntry(b: Bytes, o: nat): Decoded<PoolEntry> {
    var n :- ExpectArray(b, o, 2);
    var stake :- ReadU64(b, n.next);
    var vrf :- ReadHash32(b, stake.next);
    Ok(Read(PoolEntry(stake.value, vrf.value), 0, vrf.next))
  }

  function PoolItems(key: Hash28, entry: PoolEntry): Items {
    [ByteString(key), ArrayHeader(2), UInt(entry.activeStake), ByteString(entry.vrf)]
  }

  function PoolFormat(duplicate: DecodeError, disorder: DecodeError): EntryFormat<Hash28, PoolEntry> {
    EntryFormat(ReadHash28, ReadPoolEntry, (key, entry) => WriteItems(PoolItems(key, entry)),
                KeyBelow, duplicate, disorder)
  }

  lemma PoolReadsBack(b: Bytes, o: nat, key: Hash28, entry: PoolEntry)
    requires At(b, o, WriteItems(PoolItems(key, entry)))
    ensures ReadHash28(b, o).Ok? && ReadHash28(b, o).value.value == key
    ensures ReadPoolEntry(b, ReadHash28(b, o).value.next)
         == Ok(Read(entry, 0, o + |WriteItems(PoolItems(key, entry))|))
  {
    hide At, WriteItems, ReadHead, ReadBytes, ReadContainer;
    var items := PoolItems(key, entry);
    ItemsReadBack(b, o, items);
    assert ReadsAs(b, Offset(o, items, 0), items[0], Offset(o, items, 1));
    assert ReadsAs(b, Offset(o, items, 1), items[1], Offset(o, items, 2));
    assert ReadsAs(b, Offset(o, items, 2), items[2], Offset(o, items, 3));
    assert ReadsAs(b, Offset(o, items, 3), items[3], Offset(o, items, 4));
  }

  lemma PoolFormatIsFaithful(duplicate: DecodeError, disorder: DecodeError)
    ensures Faithful(PoolFormat(duplicate, disorder))
  {
    hide WriteItems, ReadHash28, ReadPoolEntry;
    var f := PoolFormat(duplicate, disorder);
    forall key: Hash28
      ensures !f.below(key, key)
    {
      BelowIsIrreflexive(key);
    }
    forall b, o: nat, key, entry | At(b, o, f.write(key, entry))
      ensures f.readKey(b, o).Ok? && f.readKey(b, o).value.value == key
      ensures f.readValue(b, f.readKey(b, o).value.next) == Ok(Read(entry, 0, o + |f.write(key, entry)|))
    {
      PoolReadsBack(b, o, key, entry);
    }
  }

  /** An ordered map from pool key hashes to entries. */
  type PoolDistr = s: seq<(Hash28, PoolEntry)> |
    |s| <= U64_MAX && (forall i, j :: 0 <= i < |s| && j == i + 1 && j < |s| ==> Below(s[i].0, s[j].0))

  function ReadPools(b: Bytes, o: nat, duplicate: DecodeError, disorder: DecodeError): Decoded<PoolDistr> {
    var n :- DefiniteCount(ReadMapHeader(b, o));
    var pools :- ReadEntries(PoolFormat(duplicate, disorder), b, n.next, n.value);
    EntriesAreWritten(PoolFormat(duplicate, disorder), b, n.next, n.value);
    assert Ascending(PoolFormat(duplicate, disorder), pools.value);
    Ok(Read(pools.value, 0, pools.next))
  }

  /** The entries as written; the order's error codes do not matter here. */
  function WritePools(pools: PoolDistr): Bytes {
    WriteEntries(PoolFormat(Structural, Structural), pools)
  }

  lemma {:induction false} WritePoolsAnyErrors(pools: PoolDistr, duplicate: DecodeError, disorder: DecodeError)
    ensures WriteEntries(PoolFormat(duplicate, disorder), pools) == WritePools(pools)
  {
    if pools != [] {
      WritePoolsAnyErrors(pools[..|pools| - 1], duplicate, disorder);
    }
  }

  lemma PoolsReadBack(b: Bytes, o: nat, pools: PoolDistr, duplicate: DecodeError, disorder: DecodeError)
    requires ReadsAs(b, o, MapHeader(|pools|), o + |WriteItem(MapHeader(|pools|))|)
    requires At(b, o + |WriteItem(MapHeader(|pools|))|, WritePools(pools))
    ensures ReadPools(b, o, duplicate, disorder)
         == Ok(Read(pools, 0, o + |WriteItem(MapHeader(|pools|))| + |WritePools(pools)|))
  {
    hide At, WriteItem, ReadContainer, ReadEntries;
    WritePoolsAnyErrors(pools, duplicate, disorder);
    PoolFormatIsFaithful(duplicate, disorder);
    assert Ascending(PoolFormat(duplicate, disorder), pools);
    EntriesReadBack(PoolFormat(duplicate, disorder), b, o + |WriteItem(MapHeader(|pools|))|, pools);
  }

  // The frozen leadership object.

  datatype FrozenLeadership = FrozenLeadership(
    targetEpoch: U64,
    sourceSlot: U64,
    sourceHash: Hash32,
    sourceCommitment: Hash32,
    totalActiveStake: U64,
    pools: PoolDistr)

  const FROZEN_VERSION: U64 := 7

  function FrozenItems(d: FrozenLeadership): Items {
    [ArrayHeader(7), UInt(FROZEN_VERSION), UInt(d.targetEpoch), UInt(d.sourceSlot), ByteString(d.sourceHash),
     ByteString(d.sourceCommitment), UInt(d.totalActiveStake)]
  }

  function EncodeFrozen(d: FrozenLeadership): Bytes {
    WriteItems(FrozenItems(d)) + (WriteItem(MapHeader(|d.pools|)) + WritePools(d.pools))
  }

  function DecodeFrozen(b: Bytes): Result<FrozenLeadership, DecodeError> {
    var head :- ExpectArray(b, 0, 7);
    var version :- ReadU32(b, head.next, FieldOverflow);
    if version.value != FROZEN_VERSION then
      Err(UnknownVersion(version.value))
    else
      var target :- ReadU64(b, version.next);
      var slot :- ReadU64(b, target.next);
      var hash :- ReadHash32(b, slot.next);
      var commitment :- ReadHash32(b, hash.next);
      var total :- ReadU64(b, commitment.next);
      var pools :- ReadPools(b, total.next, DuplicateKey, NonCanonicalMapOrder);
      if pools.next != |b| then
        Err(TrailingBytes)
      else
        var d := FrozenLeadership(target.value, slot.value, hash.value, commitment.value, total.value, pools.value);
        if EncodeFrozen(d) == b then Ok(d) else Err(NonCanonicalBytes)
  }

  lemma FrozenReadsBack(d: FrozenLeadership)
    ensures DecodeFrozen(EncodeFrozen(d)) == Ok(d)
  {
    hide At, WriteItem, WriteItems, WritePools, ReadHead, ReadBytes, ReadContainer, ReadPools;
    var b, items, header := EncodeFrozen(d), FrozenItems(d), WriteItem(MapHeader(|d.pools|));
    Whole(b);
    AtParts(b, 0, WriteItems(items), header + WritePools(d.pools));
    AtParts(b, |WriteItems(items)|, header, WritePools(d.pools));
    ItemsReadBack(b, 0, items);
    assert ReadsAs(b, Offset(0, items, 0), items[0], Offset(0, items, 1));
    assert ReadsAs(b, Offset(0, items, 1), items[1], Offset(0, items, 2));
    assert ReadsAs(b, Offset(0, items, 2), items[2], Offset(0, items, 3));
    assert ReadsAs(b, Offset(0, items, 3), items[3], Offset(0, items, 4));
    assert ReadsAs(b, Offset(0, items, 4), items[4], Offset(0, items, 5));
    assert ReadsAs(b, Offset(0, items, 5), items[5], Offset(0, items, 6));
    assert ReadsAs(b, Offset(0, items, 6), items[6], Offset(0, items, 7));
    ItemReadsBack(b, Offset(0, items, 7), MapHeader(|d.pools|), Offset(0, items, 7) + |header|);
    PoolsReadBack(b, Offset(0, items, 7), d.pools, DuplicateKey, NonCanonicalMapOrder);
  }

  /** Decoding accepts exactly the encodings: each object has one, and it decodes to that object. */
  lemma FrozenDecodesExactlyEncodings(b: Bytes, d: FrozenLeadership)
    ensures DecodeFrozen(b) == Ok(d) <==> b == EncodeFrozen(d)
  {
    hide EncodeFrozen, ReadHash32, ReadU64, ReadPools, ExpectArray, ReadU32;
    FrozenReadsBack(d);
  }

  // The bootstrap bridge.

  type U32 = x: int | 0 <= x <= 0xffff_ffff

  datatype BridgeAuthority = BridgeAuthority(
    anchor: Hash32,
    targetEpoch: U64,
    sourceSlot: U64,
    sourceHash: Hash32,
    genesisHash: Hash32,
    paramsHash: Hash32,
    slotsNumer: U32,
    slotsDenom: U32,
    eta0: Hash32,
    totalActiveStake: U64,
    pools: PoolDistr,
    commitment: Hash32)

  const BRIDGE_VERSION: U64 := 1

  /** The only source kind, an imported mark snapshot. */
  const MARK_SNAPSHOT: U64 := 0

  function BridgeItems(a: BridgeAuthority): Items {
    [ByteString(a.anchor), UInt(a.targetEpoch), UInt(MARK_SNAPSHOT), UInt(a.sourceSlot), ByteString(a.sourceHash),
     ByteString(a.genesisHash), ByteString(a.paramsHash), ArrayHeader(2), UInt(a.slotsNumer), UInt(a.slotsDenom),
     ByteString(a.eta0), UInt(a.totalActiveStake)]
  }

  function BridgeBody(a: BridgeAuthority): Bytes {
    WriteItems(BridgeItems(a)) + (WriteItem(MapHeader(|a.pools|)) + WritePools(a.pools))
  }

  function BridgeCommitment(hash: Hash, a: BridgeAuthority): Hash32 {
    hash(Ascii("ade.eca5.bootstrap-bridge.v1") + BridgeBody(a))
  }

  function BridgeHead(): Items {
    [ArrayHeader(13), UInt(BRIDGE_VERSION)]
  }

  function EncodeBridge(a: BridgeAuthority): Bytes {
    WriteItems(BridgeHead()) + BridgeBody(a) + WriteItem(ByteString(a.commitment))
  }

  function SealedBridge(b: Bytes, hash: Hash, a: BridgeAuthority, end: nat): Result<BridgeAuthority, DecodeError> {
    if end != |b| then Err(TrailingBytes)
    else if BridgeCommitment(hash, a) != a.commitment then Err(CommitmentMismatch)
    else if EncodeBridge(a) != b then Err(MalformedCbor)
    else Ok(a)
  }

  function DecodeBridgeBody(b: Bytes, hash: Hash, o: nat): Result<BridgeAuthority, DecodeError> {
    var anchor :- ReadHash32(b, o);
    var target :- ReadU64(b, anchor.next);
    var kind :- ReadU64(b, target.next);
    if kind.value != MARK_SNAPSHOT then
      Err(UnknownSourceKind)
    else
      var slot :- ReadU64(b, kind.next);
      var source :- ReadHash32(b, slot.next);
      var genesis :- ReadHash32(b, source.next);
      var params :- ReadHash32(b, genesis.next);
      var coeff :- ExpectArray(b, params.next, 2);
      var numer :- ReadU32(b, coeff.next, Structural);
      var denom :- ReadU32(b, numer.next, Structural);
      var eta0 :- ReadHash32(b, denom.next);
      var total :- ReadU64(b, eta0.next);
      var pools :- ReadPools(b, total.next, Structural, Structural);
      var commitment :- ReadHash32(b, pools.next);
      SealedBridge(b, hash,
        BridgeAuthority(anchor.value, target.value, slot.value, source.value, genesis.value, params.value,
                        numer.value, denom.value, eta0.value, total.value, pools.value, commitment.value),
        commitment.next)
  }

  function DecodeBridge(b: Bytes, hash: Hash): Result<BridgeAuthority, DecodeError> {
    var head :- ExpectArray(b, 0, 13);
    var version :- ReadU32(b, head.next, Structural);
    if version.value != BRIDGE_VERSION then
      Err(UnknownVersion(version.value))
    else
      DecodeBridgeBody(b, hash, version.next)
  }

  lemma BridgeFieldsReadBack(b: Bytes, o: nat, a: BridgeAuthority)
    requires At(b, o, WriteItems(BridgeItems(a)))
    ensures var items := BridgeItems(a);
      && Offset(o, items, 0) == o && Offset(o, items, 12) == o + |WriteItems(items)|
      && ReadsAs(b, Offset(o, items, 0), items[0], Offset(o, items, 1))
      && ReadsAs(b, Offset(o, items, 1), items[1], Offset(o, items, 2))
      && ReadsAs(b, Offset(o, items, 2), items[2], Offset(o, items, 3))
      && ReadsAs(b, Offset(o, items, 3), items[3], Offset(o, items, 4))
      && ReadsAs(b, Offset(o, items, 4), items[4], Offset(o, items, 5))
      && ReadsAs(b, Offset(o, items, 5), items[5], Offset(o, items, 6))
      && ReadsAs(b, Offset(o, items, 6), items[6], Offset(o, items, 7))
      && ReadsAs(b, Offset(o, items, 7), items[7], Offset(o, items, 8))
      && ReadsAs(b, Offset(o, items, 8), items[8], Offset(o, items, 9))
      && ReadsAs(b, Offset(o, items, 9), items[9], Offset(o, items, 10))
      && ReadsAs(b, Offset(o, items, 10), items[10], Offset(o, items, 11))
      && ReadsAs(b, Offset(o, items, 11), items[11], Offset(o, items, 12))
  {
    hide At, ReadsAs, WriteItems;
    ItemsReadBack(b, o, BridgeItems(a));
  }

  lemma BridgeBodyReadsBack(b: Bytes, hash: Hash, a: BridgeAuthority, o: nat)
    requires At(b, o, BridgeBody(a)) && At(b, o + |BridgeBody(a)|, WriteItem(ByteString(a.commitment)))
    ensures DecodeBridgeBody(b, hash, o)
         == SealedBridge(b, hash, a, o + |BridgeBody(a)| + |WriteItem(ByteString(a.commitment))|)
  {
    hide At, WriteItem, WriteItems, WritePools, ReadHead, ReadBytes, ReadContainer, ReadPools, SealedBridge;
    var items, header := BridgeItems(a), WriteItem(MapHeader(|a.pools|));
    AtParts(b, o, WriteItems(items), header + WritePools(a.pools));
    AtParts(b, o + |WriteItems(items)|, header, WritePools(a.pools));
    BridgeFieldsReadBack(b, o, a);
    ItemReadsBack(b, Offset(o, items, 12), MapHeader(|a.pools|), Offset(o, items, 12) + |header|);
    PoolsReadBack(b, Offset(o, items, 12), a.pools, Structural, Structural);
    CommitmentReadsBack(b, o + |BridgeBody(a)|, a.commitment);
  }

  lemma BridgeReadsBack(hash: Hash, a: BridgeAuthority)
    ensures DecodeBridge(EncodeBridge(a), hash) == SealedBridge(EncodeBridge(a), hash, a, |EncodeBridge(a)|)
  {
    hide At, WriteItem, WriteItems, DecodeBridgeBody, BridgeBody, SealedBridge, ReadHead, ReadContainer;
    var b, items, tail := EncodeBridge(a), BridgeHead(), WriteItem(ByteString(a.commitment));
    Whole(b);
    AtParts(b, 0, WriteItems(items) + BridgeBody(a), tail);
    AtParts(b, 0, WriteItems(items), BridgeBody(a));
    ItemsReadBack(b, 0, items);
    assert ReadsAs(b, Offset(0, items, 0), items[0], Offset(0, items, 1));
    assert ReadsAs(b, Offset(0, items, 1), items[1], Offset(0, items, 2));
    BridgeBodyReadsBack(b, hash, a, |WriteItems(items)|);
  }

  lemma AcceptedBridgeIsSealed(b: Bytes, hash: Hash)
    ensures DecodeBridge(b, hash).Ok? ==>
              var a := DecodeBridge(b, hash).value;
              b == EncodeBridge(a) && a.commitment == BridgeCommitment(hash, a)
  {
    hide ReadHash32, ReadU64, ReadPools, ExpectArray, ReadU32, EncodeBridge, BridgeCommitment;
  }

  /** Decoding yields `a` exactly on its encoding, and only when its commitment matches. */
  lemma BridgeDecodesExactlyEncodings(b: Bytes, hash: Hash, a: BridgeAuthority)
    ensures DecodeBridge(b, hash) == Ok(a) <==> b == EncodeBridge(a) && a.commitment == BridgeCommitment(hash, a)
  {
    hide DecodeBridge, EncodeBridge, BridgeCommitment;
    AcceptedBridgeIsSealed(b, hash);
    BridgeReadsBack(hash, a);
  }

  // What the bridge commitment binds.

  function BridgePreimage(a: BridgeAuthority): Bytes {
    Ascii("ade.eca5.bootstrap-bridge.v1") + BridgeBody(a)
  }

  predicate SameBridge(x: BridgeAuthority, y: BridgeAuthority) {
    x == y.(commitment := x.commitment)
  }

  /** The commitment binds every other field. */
  lemma BridgeCommitmentBinds(hash: Hash, x: BridgeAuthority, y: BridgeAuthority)
    ensures BridgeCommitment(hash, x) == hash(BridgePreimage(x))
    ensures BridgePreimage(x) == BridgePreimage(y) <==> SameBridge(x, y)
  {
    hide BridgeBody, Ascii;
    if SameBridge(x, y) {
      SameBridgeBody(x, y);
    } else if BridgePreimage(x) == BridgePreimage(y) {
      SuffixEqual(Ascii("ade.eca5.bootstrap-bridge.v1"), BridgeBody(x), BridgeBody(y));
      var z := y.(commitment := x.commitment);
      SameBridgeBody(z, y);
      BridgeIsInjective(x, z);
    }
  }

  lemma SuffixEqual(domain: Bytes, x: Bytes, y: Bytes)
    requires domain + x == domain + y
    ensures x == y
  {
    assert (domain + x)[|domain|..] == x && (domain + y)[|domain|..] == y;
  }

  lemma SameBridgeBody(x: BridgeAuthority, y: BridgeAuthority)
    requires SameBridge(x, y)
    ensures BridgeBody(x) == BridgeBody(y)
  {
  }

  lemma BridgeIsInjective(x: BridgeAuthority, y: BridgeAuthority)
    requires BridgeBody(x) == BridgeBody(y) && x.commitment == y.commitment
    ensures x == y
  {
    hide DecodeBridge, BridgeBody, Ascii, WriteItem, WriteItems;
    var hash: Hash := _ => x.commitment;
    BridgeReadsBack(hash, x);
    BridgeReadsBack(hash, y);
  }

  /** The two kinds of record are hashed in different domains: no bridge is committed to as a seed authority. */
  lemma DomainsDiffer(a: SeedRewardAuthority, b: BridgeAuthority)
    ensures Preimage(a) != BridgePreimage(b)
  {
    hide Body, BridgeBody, WriteItem;
    assert Ascii("ade.lv2.seed-reward-authority.v4")[4] == 'l' as int;
    assert Ascii("ade.eca5.bootstrap-bridge.v1")[4] == 'e' as int;
    assert Preimage(a)[4] == 'l' as int && BridgePreimage(b)[4] == 'e' as int;
  }

  /** The first bytes of the two records: their lengths and versions. */
  lemma PoolRecordsBegin(d: FrozenLeadership, a: BridgeAuthority)
    ensures EncodeFrozen(d)[..2] == [0x87, 0x07] && EncodeBridge(a)[..2] == [0x8d, 0x01]
  {
    hide WriteItem, WriteItems, WritePools, BridgeBody;
    SmallHeads();
    FirstTwo(FrozenItems(d));
    FirstTwo(BridgeHead());
    Begins(WriteItems(FrozenItems(d)), EncodeFrozen(d));
    Begins(WriteItems(BridgeHead()), EncodeBridge(a));
  }

  lemma Begins(x: Bytes, y: Bytes)
    requires 2 <= |x| <= |y| && y[..|x|] == x
    ensures y[..2] == x[..2]
  {
  }

  lemma SmallHeads()
    ensures WriteItem(ArrayHeader(7)) == [0x87] && WriteItem(UInt(FROZEN_VERSION)) == [0x07]
    ensures WriteItem(ArrayHeader(13)) == [0x8d] && WriteItem(UInt(BRIDGE_VERSION)) == [0x01]
  {
    hide WriteHead;
    HeadLayout(4, 7);
    HeadLayout(0, 7);
    HeadLayout(4, 13);
    HeadLayout(0, 1);
  }

  lemma {:induction false} FirstTwo(items: Items)
    requires |items| >= 2 && |WriteItem(items[0])| == |WriteItem(items[1])| == 1
    ensures |WriteItems(items)| >= 2 && WriteItems(items)[..2] == WriteItem(items[0]) + WriteItem(items[1])
    decreases |items|
  {
    hide WriteItem;
    var init: Items := items[..|items| - 1];
    if |items| == 2 {
      assert init == [] + [items[0]];
      OneMore([], items[0]);
      NothingWritten();
    } else {
      FirstTwo(init);
    }
  }
}
