/**
 The seed reward authority and its canonical codec
 (crates/ade_ledger/src/bootstrap_reward_update.rs). The Blake2b hash is a parameter:
 nothing here depends on which function it is.
 */
module SeedAuthority {
  import opened LedgerTypes
  import opened Cbor
  import opened CanonicalMaps

  type Hash = Bytes -> Hash32

  // The reward delta.

  function CredentialTag(c: Credential): U64 {
    if c.KeyHash? then 0 else 1
  }

  predicate CredentialBelow(a: Credential, b: Credential) {
    CredentialTag(a) < CredentialTag(b) || (CredentialTag(a) == CredentialTag(b) && Below(a.hash, b.hash))
  }

  /** Keys come before scripts, and each kind in the order of its hashes. */
  lemma CredentialOrder(a: Credential, b: Credential)
    ensures CredentialBelow(a, b) <==>
              (a.KeyHash? && b.ScriptHash?) || (a.KeyHash? == b.KeyHash? && Below(a.hash, b.hash))
  {
  }

  function ReadCredential(b: Bytes, o: nat): Decoded<Credential> {
    var n :- ExpectArray(b, o, 2);
    var tag :- ReadU64(b, n.next);
    var hash :- ReadHash28(b, tag.next);
    if tag.value == 0 then Ok(Read(KeyHash(hash.value), 0, hash.next))
    else if tag.value == 1 then Ok(Read(ScriptHash(hash.value), 0, hash.next))
    else Err(UnknownCredentialTag(tag.value))
  }

  function RewardItems(c: Credential, coin: Coin): Items {
    [ArrayHeader(2), UInt(CredentialTag(c)), ByteString(c.hash), UInt(coin)]
  }

  function RewardFormat(): EntryFormat<Credential, Coin> {
    EntryFormat(ReadCredential, ReadU64, (c, coin) => WriteItems(RewardItems(c, coin)),
                CredentialBelow, DuplicateKey, NonCanonicalMapOrder)
  }

  lemma RewardReadsBack(b: Bytes, o: nat, c: Credential, coin: Coin)
    requires At(b, o, WriteItems(RewardItems(c, coin)))
    ensures ReadCredential(b, o).Ok? && ReadCredential(b, o).value.value == c
    ensures ReadU64(b, ReadCredential(b, o).value.next).Ok?
    ensures ReadU64(b, ReadCredential(b, o).value.next).value.value == coin
    ensures ReadU64(b, ReadCredential(b, o).value.next).value.next == o + |WriteItems(RewardItems(c, coin))|
  {
    hide At, WriteItems, ReadHead, ReadBytes, ReadContainer;
    var items := RewardItems(c, coin);
    ItemsReadBack(b, o, items);
    assert ReadsAs(b, Offset(o, items, 0), items[0], Offset(o, items, 1));
    assert ReadsAs(b, Offset(o, items, 1), items[1], Offset(o, items, 2));
    assert ReadsAs(b, Offset(o, items, 2), items[2], Offset(o, items, 3));
    assert ReadsAs(b, Offset(o, items, 3), items[3], Offset(o, items, 4));
  }

  lemma RewardFormatIsFaithful()
    ensures Faithful(RewardFormat())
  {
    hide WriteItems, ReadCredential, ReadU64;
    forall c: Credential
      ensures !CredentialBelow(c, c)
    {
      BelowIsIrreflexive(c.hash);
    }
    forall b, o: nat, c, coin | At(b, o, RewardFormat().write(c, coin))
      ensures var k := ReadCredential(b, o);
        && k.Ok? && k.value.value == c && ReadU64(b, k.value.next).Ok?
        && ReadU64(b, k.value.next).value.value == coin
        && ReadU64(b, k.value.next).value.next == o + |RewardFormat().write(c, coin)|
    {
      RewardReadsBack(b, o, c, coin);
    }
  }

  /** An ordered map from credentials to coins. */
  type RewardDelta = s: seq<(Credential, Coin)> | |s| <= U64_MAX && Ascending(RewardFormat(), s)

  lemma CredentialBelowIsStrictOrder()
    ensures StrictOrder(CredentialBelow)
  {
    forall k: Credential
      ensures !CredentialBelow(k, k)
    {
      BelowIsIrreflexive(k.hash);
    }
    forall a: Credential, b: Credential
      ensures a == b || CredentialBelow(a, b) || CredentialBelow(b, a)
    {
      BelowIsTotal(a.hash, b.hash);
    }
    forall a: Credential, b: Credential, c: Credential | CredentialBelow(a, b) && CredentialBelow(b, c)
      ensures CredentialBelow(a, c)
    {
      if a.hash != b.hash && b.hash != c.hash && CredentialTag(a) == CredentialTag(c) {
        BelowIsTransitive(a.hash, b.hash, c.hash);
      }
    }
  }

  /** A reward delta is the one ascending list of its map. */
  lemma DeltaIsItsMap(delta: RewardDelta)
    ensures StrictOrder(CredentialBelow) && SortedList(CredentialBelow, ToMap(delta)) == delta
  {
    CredentialBelowIsStrictOrder();
    assert SortedBy(CredentialBelow, delta);
    hide StrictOrder;
    SortedListIsUnique(CredentialBelow, delta);
  }

  // The record.

  datatype SeedRewardAuthority =
    | Imported(
        manifest: Hash32, slot: U64, point: Hash32, targetEpoch: U64,
        deltaTreasury: Coin, deltaReserves: Coin, deltaFees: Coin, rewardDelta: RewardDelta, commitment: Hash32)
    | Native(
        manifest: Hash32, slot: U64, point: Hash32, targetEpoch: U64, feeSs: Coin, commitment: Hash32)

  const SCHEMA_VERSION: U64 := 4

  function Ascii(text: string): Bytes {
    seq(|text|, i requires 0 <= i < |text| => text[i] as int % 256)
  }

  function Variant(a: SeedRewardAuthority): U64 {
    if a.Imported? then 0 else 1
  }

  function Arity(a: SeedRewardAuthority): U64 {
    if a.Imported? then 11 else 8
  }

  function BodyItems(a: SeedRewardAuthority): Items {
    match a
    case Imported(manifest, slot, point, target, treasury, reserves, fees, delta, _) =>
      [ByteString(manifest), UInt(slot), ByteString(point), UInt(target),
       UInt(treasury), UInt(reserves), UInt(fees), MapHeader(|delta|)]
    case Native(manifest, slot, point, target, fee, _) =>
      [ByteString(manifest), UInt(slot), ByteString(point), UInt(target), UInt(fee)]
  }

  function Body(a: SeedRewardAuthority): Bytes {
    WriteItems(BodyItems(a)) + if a.Imported? then WriteEntries(RewardFormat(), a.rewardDelta) else []
  }

  /** `commit_variant`: the variant is inside the hash, so a record cannot be relabelled. */
  function Commitment(hash: Hash, a: SeedRewardAuthority): Hash32 {
    hash(Ascii("ade.lv2.seed-reward-authority.v4") + WriteItem(UInt(Variant(a))) + Body(a))
  }

  function Head(a: SeedRewardAuthority): Items {
    [ArrayHeader(Arity(a)), UInt(SCHEMA_VERSION), UInt(Variant(a))]
  }

  function Encode(a: SeedRewardAuthority): Bytes {
    WriteItems(Head(a)) + Body(a) + WriteItem(ByteString(a.commitment))
  }

  /** The checks every variant ends with: nothing trails, the commitment matches, the bytes are canonical. */
  function Sealed(b: Bytes, hash: Hash, a: SeedRewardAuthority, end: nat): Result<SeedRewardAuthority, DecodeError> {
    if end != |b| then Err(TrailingBytes)
    else if Commitment(hash, a) != a.commitment then Err(CommitmentMismatch)
    else if Encode(a) != b then Err(MalformedCbor)
    else Ok(a)
  }

  function ReadRewardDelta(b: Bytes, o: nat): (r: Decoded<RewardDelta>)
  {
    var n :- DefiniteCount(ReadMapHeader(b, o));
    var entries :- ReadEntries(RewardFormat(), b, n.next, n.value);
    EntriesAreWritten(RewardFormat(), b, n.next, n.value);
    Ok(Read(entries.value, 0, entries.next))
  }

  function DecodeImported(b: Bytes, hash: Hash, o: nat): Result<SeedRewardAuthority, DecodeError> {
    var manifest :- ReadHash32(b, o);
    var slot :- ReadU64(b, manifest.next);
    var point :- ReadHash32(b, slot.next);
    var target :- ReadU64(b, point.next);
    var treasury :- ReadU64(b, target.next);
    var reserves :- ReadU64(b, treasury.next);
    var fees :- ReadU64(b, reserves.next);
    var delta :- ReadRewardDelta(b, fees.next);
    var commitment :- ReadHash32(b, delta.next);
    Sealed(b, hash,
           Imported(manifest.value, slot.value, point.value, target.value, treasury.value, reserves.value,
                    fees.value, delta.value, commitment.value),
           commitment.next)
  }

  function DecodeNative(b: Bytes, hash: Hash, o: nat): Result<SeedRewardAuthority, DecodeError> {
    var manifest :- ReadHash32(b, o);
    var slot :- ReadU64(b, manifest.next);
    var point :- ReadHash32(b, slot.next);
    var target :- ReadU64(b, point.next);
    var fee :- ReadU64(b, target.next);
    var commitment :- ReadHash32(b, fee.next);
    Sealed(b, hash,
           Native(manifest.value, slot.value, point.value, target.value, fee.value, commitment.value),
           commitment.next)
  }

  /** The version is checked before the shape, the variant before its arity. */
  function Decode(b: Bytes, hash: Hash): Result<SeedRewardAuthority, DecodeError> {
    var arity :- DefiniteCount(ReadArrayHeader(b, 0));
    var version :- ReadU32(b, arity.next, Structural);
    if version.value != SCHEMA_VERSION then
      Err(UnknownVersion(version.value))
    else
      var variant :- ReadU64(b, version.next);
      if variant.value == 0 then
        if arity.value == 11 then DecodeImported(b, hash, variant.next) else Err(Structural)
      else if variant.value == 1 then
        if arity.value == 8 then DecodeNative(b, hash, variant.next) else Err(Structural)
      else
        Err(UnknownVariant(variant.value))
  }

  // Round trip and uniqueness.

  lemma CommitmentReadsBack(b: Bytes, o: nat, h: Hash32)
    requires At(b, o, WriteItem(ByteString(h)))
    ensures ReadHash32(b, o) == Ok(Read(h, CanonicalWidth(32), o + |WriteItem(ByteString(h))|))
  {
    hide At, WriteItem, ReadBytes;
    ItemReadsBack(b, o, ByteString(h), o + |WriteItem(ByteString(h))|);
  }

  lemma HeadReadsBack(b: Bytes, hash: Hash, a: SeedRewardAuthority)
    requires At(b, 0, WriteItems(Head(a)))
    ensures Decode(b, hash)
         == if a.Imported? then DecodeImported(b, hash, |WriteItems(Head(a))|)
            else DecodeNative(b, hash, |WriteItems(Head(a))|)
  {
    hide At, WriteItems, ReadHead, ReadBytes, ReadContainer, DecodeImported, DecodeNative;
    var items := Head(a);
    ItemsReadBack(b, 0, items);
    assert ReadsAs(b, Offset(0, items, 0), items[0], Offset(0, items, 1));
    assert ReadsAs(b, Offset(0, items, 1), items[1], Offset(0, items, 2));
    assert ReadsAs(b, Offset(0, items, 2), items[2], Offset(0, items, 3));
  }

  lemma NativeReadsBack(b: Bytes, hash: Hash, a: SeedRewardAuthority, o: nat)
    requires a.Native? && At(b, o, Body(a)) && At(b, o + |Body(a)|, WriteItem(ByteString(a.commitment)))
    ensures DecodeNative(b, hash, o) == Sealed(b, hash, a, o + |Body(a)| + |WriteItem(ByteString(a.commitment))|)
  {
    hide At, WriteItem, WriteItems, ReadHead, ReadBytes, ReadContainer, Sealed;
    var items := BodyItems(a);
    assert Body(a) == WriteItems(items);
    ItemsReadBack(b, o, items);
    assert ReadsAs(b, Offset(o, items, 0), items[0], Offset(o, items, 1));
    assert ReadsAs(b, Offset(o, items, 1), items[1], Offset(o, items, 2));
    assert ReadsAs(b, Offset(o, items, 2), items[2], Offset(o, items, 3));
    assert ReadsAs(b, Offset(o, items, 3), items[3], Offset(o, items, 4));
    assert ReadsAs(b, Offset(o, items, 4), items[4], Offset(o, items, 5));
    CommitmentReadsBack(b, o + |Body(a)|, a.commitment);
  }

  lemma ImportedReadsBack(b: Bytes, hash: Hash, a: SeedRewardAuthority, o: nat)
    requires a.Imported? && At(b, o, Body(a)) && At(b, o + |Body(a)|, WriteItem(ByteString(a.commitment)))
    ensures DecodeImported(b, hash, o) == Sealed(b, hash, a, o + |Body(a)| + |WriteItem(ByteString(a.commitment))|)
  {
    hide At, WriteItem, WriteItems, ReadHead, ReadBytes, ReadContainer, Sealed, ReadEntries, WriteEntries;
    hide RewardFormat, Ascending;
    var items := BodyItems(a);
    AtParts(b, o, WriteItems(items), WriteEntries(RewardFormat(), a.rewardDelta));
    ItemsReadBack(b, o, items);
    assert ReadsAs(b, Offset(o, items, 0), items[0], Offset(o, items, 1));
    assert ReadsAs(b, Offset(o, items, 1), items[1], Offset(o, items, 2));
    assert ReadsAs(b, Offset(o, items, 2), items[2], Offset(o, items, 3));
    assert ReadsAs(b, Offset(o, items, 3), items[3], Offset(o, items, 4));
    assert ReadsAs(b, Offset(o, items, 4), items[4], Offset(o, items, 5));
    assert ReadsAs(b, Offset(o, items, 5), items[5], Offset(o, items, 6));
    assert ReadsAs(b, Offset(o, items, 6), items[6], Offset(o, items, 7));
    assert ReadsAs(b, Offset(o, items, 7), items[7], Offset(o, items, 8));
    RewardFormatIsFaithful();
    EntriesReadBack(RewardFormat(), b, Offset(o, items, 8), a.rewardDelta);
    CommitmentReadsBack(b, o + |Body(a)|, a.commitment);
  }

  /**
   The two directions in one: decoding accepts a byte string with result `a` exactly
   when the string is the encoding of `a` and the commitment of `a` matches. So every
   matching record survives the round trip and no record has a second encoding.
   */
  lemma DecodesExactlyEncodings(b: Bytes, hash: Hash, a: SeedRewardAuthority)
    ensures Decode(b, hash) == Ok(a) <==> b == Encode(a) && a.commitment == Commitment(hash, a)
  {
    if Decode(b, hash) == Ok(a) {
      AcceptedIsSealed(b, hash);
    } else if b == Encode(a) {
      EncodingReadsBack(hash, a);
    }
  }

  lemma AcceptedIsSealed(b: Bytes, hash: Hash)
    ensures Decode(b, hash).Ok? ==>
              var a := Decode(b, hash).value;
              b == Encode(a) && a.commitment == Commitment(hash, a)
  {
    hide At, WriteItems, ReadHead, ReadBytes, ReadContainer, Encode, Commitment;
  }

  lemma EncodingReadsBack(hash: Hash, a: SeedRewardAuthority)
    ensures Decode(Encode(a), hash) == Sealed(Encode(a), hash, a, |Encode(a)|)
  {
    hide At, WriteItem, WriteItems, Decode, DecodeImported, DecodeNative, Body, Sealed;
    var b, head, tail := Encode(a), WriteItems(Head(a)), WriteItem(ByteString(a.commitment));
    Whole(b);
    AtParts(b, 0, head + Body(a), tail);
    AtParts(b, 0, head, Body(a));
    HeadReadsBack(b, hash, a);
    if a.Imported? {
      ImportedReadsBack(b, hash, a, |head|);
    } else {
      NativeReadsBack(b, hash, a, |head|);
    }
  }

  /** Two different records never share an encoding, whatever their commitments. */
  lemma EncodeIsInjective(x: SeedRewardAuthority, y: SeedRewardAuthority)
    requires Encode(x) == Encode(y)
    ensures x == y
  {
    hide Decode, Encode, Body, Ascii, WriteItem;
    var hash: Hash := _ => x.commitment;
    EncodingReadsBack(hash, x);
    EncodingReadsBack(hash, y);
  }

  // What the commitment binds.

  /** What is hashed: a domain, the variant, and the body without the commitment. */
  function Preimage(a: SeedRewardAuthority): Bytes {
    Ascii("ade.lv2.seed-reward-authority.v4") + WriteItem(UInt(Variant(a))) + Body(a)
  }

  predicate SameButCommitment(x: SeedRewardAuthority, y: SeedRewardAuthority) {
    x == y.(commitment := x.commitment)
  }

  /**
   A commitment binds every other field, and the variant too: records with one preimage
   are the same record but for the commitment, so none can be relabelled.
   */
  lemma CommitmentBinds(hash: Hash, x: SeedRewardAuthority, y: SeedRewardAuthority)
    ensures Commitment(hash, x) == hash(Preimage(x))
    ensures Preimage(x) == Preimage(y) <==> SameButCommitment(x, y)
  {
    if SameButCommitment(x, y) {
      SameBody(x, y);
    } else if Preimage(x) == Preimage(y) {
      var domain := Ascii("ade.lv2.seed-reward-authority.v4");
      hide Body, WriteItem, Ascii;
      SplitEqual(domain, WriteItem(UInt(Variant(x))), Body(x), WriteItem(UInt(Variant(y))), Body(y));
      SameRecord(x, y);
    }
  }

  lemma SameBody(x: SeedRewardAuthority, y: SeedRewardAuthority)
    requires SameButCommitment(x, y)
    ensures Variant(x) == Variant(y) && Body(x) == Body(y)
  {
  }

  lemma SplitEqual(domain: Bytes, a: Bytes, x: Bytes, b: Bytes, y: Bytes)
    requires domain + a + x == domain + b + y && |a| == |b|
    ensures a == b && x == y
  {
    var n := |domain|;
    assert (domain + a + x)[n..n + |a|] == a && (domain + b + y)[n..n + |b|] == b;
    assert (domain + a + x)[n + |a|..] == x && (domain + b + y)[n + |b|..] == y;
  }

  lemma SameRecord(x: SeedRewardAuthority, y: SeedRewardAuthority)
    requires WriteItem(UInt(Variant(x))) == WriteItem(UInt(Variant(y))) && Body(x) == Body(y)
    ensures SameButCommitment(x, y)
  {
    HeadLayout(0, Variant(x));
    HeadLayout(0, Variant(y));
    var z := y.(commitment := x.commitment);
    hide Body, WriteItems, WriteHead;
    SameBody(z, y);
    EncodeIsInjective(x, z);
  }

  /** The first bytes of each variant: its length, the schema version and its tag. */
  lemma FirstBytes(a: SeedRewardAuthority)
    ensures WriteItems(Head(a)) == if a.Imported? then [0x8b, 0x04, 0x00] else [0x88, 0x04, 0x01]
  {
    HeadLayout(4, Arity(a));
    HeadLayout(0, SCHEMA_VERSION);
    HeadLayout(0, Variant(a));
    hide WriteHead;
    ThreeItems(ArrayHeader(Arity(a)), UInt(SCHEMA_VERSION), UInt(Variant(a)));
  }

  lemma ThreeItems(x: Item, y: Item, z: Item)
    requires Writable(x) && Writable(y) && Writable(z)
    ensures WriteItems([x, y, z]) == WriteItem(x) + WriteItem(y) + WriteItem(z)
  {
    hide WriteItems, WriteItem, Writable;
    OneMore([], x);
    OneMore([x], y);
    OneMore([x, y], z);
    assert [] + [x] == [x] && [x] + [y] == [x, y] && [x, y] + [z] == [x, y, z];
    NothingWritten();
  }

  lemma OneMore(items: Items, last: Item)
    requires Writable(last)
    ensures WriteItems(items + [last]) == WriteItems(items) + WriteItem(last)
  {
    hide WriteItem, Writable;
    assert (items + [last])[..|items|] == items;
  }

  lemma NothingWritten()
    ensures WriteItems([]) == []
  {
  }
}
