/**
 The bootstrap manifest's fixed layout (crates/ade_ledger/src/bootstrap_manifest.rs).
 Its decoder does not re-encode: that every field has one form is a fact of the layout.
 */
module Manifest {
  import opened LedgerTypes
  import opened Cbor
  import opened PoolCodecs

  /** The era tags, from Byron boundary blocks to Conway. */
  type Era = x: int | 0 <= x <= 7

  datatype BootstrapManifest = BootstrapManifest(
    networkMagic: U32,
    era: Era,
    slot: U64,
    point: Hash32,
    seedHash: Hash32,
    certStateHash: Hash32,
    sourceCommitment: Hash32,
    utxoSeedHash: Option<Hash32>)

  function CanonicalBytes(m: BootstrapManifest): Bytes {
    [if m.utxoSeedHash.Some? then 0xB1 else 0xB0]
    + ToBigEndian(m.networkMagic, 4) + [m.era as Byte] + ToBigEndian(m.slot, 8)
    + m.point + m.seedHash + m.certStateHash + m.sourceCommitment
    + if m.utxoSeedHash.Some? then m.utxoSeedHash.value else []
  }

  function Decode(b: Bytes): Option<BootstrapManifest> {
    if b == [] || (b[0] != 0xB0 && b[0] != 0xB1) then
      None
    else if |b| != (if b[0] == 0xB1 then 174 else 142) then
      None
    else if b[5] > 7 then
      None
    else
      BigEndianIsUnique(b[1..5]);
      BigEndianIsUnique(b[6..14]);
      Powers();
      Some(BootstrapManifest(
        FromBigEndian(b[1..5]), b[5], FromBigEndian(b[6..14]),
        b[14..46], b[46..78], b[78..110], b[110..142],
        if b[0] == 0xB1 then Some(b[142..174]) else None))
  }

  lemma Layout(m: BootstrapManifest)
    ensures var b := CanonicalBytes(m);
      && |b| == (if m.utxoSeedHash.Some? then 174 else 142)
      && b[0] == (if m.utxoSeedHash.Some? then 0xB1 else 0xB0)
      && b[1..5] == ToBigEndian(m.networkMagic, 4)
      && b[5] == m.era
      && b[6..14] == ToBigEndian(m.slot, 8)
      && b[14..46] == m.point && b[46..78] == m.seedHash
      && b[78..110] == m.certStateHash && b[110..142] == m.sourceCommitment
      && (m.utxoSeedHash.Some? ==> b[142..174] == m.utxoSeedHash.value)
  {
    hide ToBigEndian, FromBigEndian;
    Powers();
    BigEndianRoundTrip(m.networkMagic, 4);
    BigEndianRoundTrip(m.slot, 8);
  }

  /** Two byte strings of the same layout are equal when their fields are. */
  lemma SameFields(a: Bytes, b: Bytes)
    requires |a| == |b| && (|a| == 142 || |a| == 174)
    requires a[0] == b[0] && a[1..5] == b[1..5] && a[5] == b[5] && a[6..14] == b[6..14]
    requires a[14..46] == b[14..46] && a[46..78] == b[46..78] && a[78..110] == b[78..110] && a[110..142] == b[110..142]
    requires |a| == 174 ==> a[142..174] == b[142..174]
    ensures a == b
  {
    assert a == [a[0]] + a[1..5] + [a[5]] + a[6..14] + a[14..46] + a[46..78] + a[78..110] + a[110..142] + a[142..];
    assert b == [b[0]] + b[1..5] + [b[5]] + b[6..14] + b[14..46] + b[46..78] + b[78..110] + b[110..142] + b[142..];
    assert a[142..] == if |a| == 174 then a[142..174] else [];
    assert b[142..] == if |b| == 174 then b[142..174] else [];
  }

  /** Both manifest versions: a byte string decodes to `m` exactly when it is the encoding of `m`. */
  lemma DecodesExactlyEncodings(b: Bytes, m: BootstrapManifest)
    ensures Decode(b) == Some(m) <==> b == CanonicalBytes(m)
  {
    hide CanonicalBytes, ToBigEndian, FromBigEndian;
    Layout(m);
    Powers();
    BigEndianRoundTrip(m.networkMagic, 4);
    BigEndianRoundTrip(m.slot, 8);
    if Decode(b) == Some(m) {
      BigEndianIsUnique(b[1..5]);
      BigEndianIsUnique(b[6..14]);
      SameFields(b, CanonicalBytes(m));
    }
  }
}
