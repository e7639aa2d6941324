/**
 Two decoders of crates/ade_ledger/src/epoch_accumulator.rs: the pool count map, read
 leniently and held to its canonical form by re-encoding, and the strict list of
 invalid transaction indices, beside the lenient one of
 crates/ade_ledger/src/plutus_eval.rs.
 */
module AccumulatorCodecs {
  import opened LedgerTypes
  import opened Cbor
  import opened CanonicalMaps

  // The pool count map.

  /** An ordered map from pool ids to block counts. */
  type PoolCounts = s: seq<(Hash28, U64)> |
    forall i, j :: 0 <= i < |s| && j == i + 1 && j < |s| ==> Below(s[i].0, s[j].0)

  function CountItems(pool: Hash28, count: U64): Items {
    [ByteString(pool), UInt(count)]
  }

  function EncodeCounts(m: PoolCounts): Bytes
    requires |m| <= U64_MAX
  {
    WriteItem(MapHeader(|m|)) + WriteEntries(CountFormat(), m)
  }

  /** Insertion into an ordered map: an equal key is overwritten. */
  function Insert(m: PoolCounts, pool: Hash28, count: U64): (r: PoolCounts)
    ensures r != []
    ensures r[|r| - 1].0 == pool || (m != [] && r[|r| - 1].0 == m[|m| - 1].0)
    ensures |r| <= |m| + 1
  {
    if m == [] then
      [(pool, count)]
    else
      var n := |m| - 1;
      BelowIsTotal(m[n].0, pool);
      if m[n].0 == pool then m[..n] + [(pool, count)]
      else if Below(m[n].0, pool) then m + [(pool, count)]
      else Insert(m[..n], pool, count) + [m[n]]
  }

  /** `read_pool_u64_map`: any widths, any order, duplicates collapse. */
  function ReadCounts(b: Bytes, o: nat, count: nat): (r: Decoded<PoolCounts>)
    ensures r.Ok? ==> |r.value.value| <= count
  {
    if count == 0 then
      Ok(Read([], 0, o))
    else
      var init :- ReadCounts(b, o, count - 1);
      var pool :- ReadHash28(b, init.next);
      var n :- ReadU64(b, pool.next);
      Ok(Read(Insert(init.value, pool.value, n.value), 0, n.next))
  }

  method DecodeCounts(b: Bytes, o: nat, count: nat) returns (r: Decoded<PoolCounts>)
    ensures r == ReadCounts(b, o, count)
  {
    var m: PoolCounts, next := [], o;
    for i := 0 to count
      invariant ReadCounts(b, o, i) == Ok(Read(m, 0, next))
    {
      var pool := ReadHash28(b, next);
      if pool.Err? {
        CountRefusalIsFinal(b, o, i + 1, count);
        return Err(pool.error);
      }
      var n := ReadU64(b, pool.value.next);
      if n.Err? {
        CountRefusalIsFinal(b, o, i + 1, count);
        return Err(n.error);
      }
      m, next := Insert(m, pool.value.value, n.value.value), n.value.next;
    }
    return Ok(Read(m, 0, next));
  }

  lemma {:induction false} CountRefusalIsFinal(b: Bytes, o: nat, i: nat, count: nat)
    requires i <= count && ReadCounts(b, o, i).Err?
    ensures ReadCounts(b, o, count) == ReadCounts(b, o, i)
  {
    hide ReadHash28, ReadU64, Insert;
    if i < count {
      CountRefusalIsFinal(b, o, i, count - 1);
    }
  }

  /** The lenient reader with the re-encode comparison behind it. */
  function DecodeLenient(b: Bytes): Option<PoolCounts> {
    var n := DefiniteCount(ReadMapHeader(b, 0));
    if n.Err? then
      None
    else
      var m := ReadCounts(b, n.value.next, n.value.value);
      if m.Ok? && m.value.next == |b| && EncodeCounts(m.value.value) == b then Some(m.value.value) else None
  }

  /** A strict reader: shortest widths and strictly ascending keys, nothing re-encoded. */
  function ReadShortestHash28(b: Bytes, o: nat): Decoded<Hash28> {
    var r :- ReadHash28(b, o);
    if r.width == CanonicalWidth(28) then Ok(r) else Err(NonCanonicalBytes)
  }

  function ReadShortestU64(b: Bytes, o: nat): Decoded<U64> {
    var r :- ReadU64(b, o);
    if r.width == CanonicalWidth(r.value) then Ok(r) else Err(NonCanonicalBytes)
  }

  function CountFormat(): EntryFormat<Hash28, U64> {
    EntryFormat(ReadShortestHash28, ReadShortestU64, (pool, count) => WriteItems(CountItems(pool, count)),
                KeyBelow, DuplicateKey, NonCanonicalMapOrder)
  }

  function DecodeStrict(b: Bytes): Option<PoolCounts> {
    var n := DefiniteCount(ReadMapHeader(b, 0));
    if n.Err? || n.value.width != CanonicalWidth(n.value.value) then
      None
    else
      var m := ReadEntries(CountFormat(), b, n.value.next, n.value.value);
      if m.Ok? && m.value.next == |b| then
        EntriesAreWritten(CountFormat(), b, n.value.next, n.value.value);
        assert Ascending(CountFormat(), m.value.value);
        Some(m.value.value)
      else
        None
  }

  lemma CountItemsRead(b: Bytes, o: nat, pool: Hash28, count: U64, mid: nat, next: nat)
    ensures At(b, o, WriteItems(CountItems(pool, count)))
        ==> var mid := o + |WriteItem(ByteString(pool))|;
            ReadsAs(b, o, ByteString(pool), mid)
            && ReadsAs(b, mid, UInt(count), o + |WriteItems(CountItems(pool, count))|)
    ensures ReadsAs(b, o, ByteString(pool), mid) && ReadsAs(b, mid, UInt(count), next)
        ==> At(b, o, WriteItems(CountItems(pool, count))) && next == o + |WriteItems(CountItems(pool, count))|
  {
    hide At, ReadsAs, WriteItem;
    var items := CountItems(pool, count);
    var x, y := WriteItem(ByteString(pool)), WriteItem(UInt(count));
    assert items[..1] == [ByteString(pool)] && items[..1][..0] == [];
    assert WriteItems(items[..1]) == WriteItems(items[..1][..0]) + x;
    assert WriteItems(items) == x + y;
    AtParts(b, o, x, y);
    ItemReadsBack(b, o, ByteString(pool), mid);
    ItemReadsBack(b, o, ByteString(pool), o + |x|);
    ItemReadsBack(b, o + |x|, UInt(count), next);
    ItemReadsBack(b, o + |x|, UInt(count), o + |x| + |y|);
  }

  lemma CountFormatIsFaithful()
    ensures Faithful(CountFormat())
  {
    hide WriteItems, ReadHead, ReadBytes, At;
    var f := CountFormat();
    forall key: Hash28
      ensures !f.below(key, key)
    {
      BelowIsIrreflexive(key);
    }
    forall b, o: nat, pool, count | At(b, o, f.write(pool, count))
      ensures f.readKey(b, o).Ok? && f.readKey(b, o).value.value == pool
      ensures var v := f.readValue(b, f.readKey(b, o).value.next);
        v.Ok? && v.value.value == count && v.value.next == o + |f.write(pool, count)|
    {
      CountItemsRead(b, o, pool, count, 0, 0);
    }
  }

  lemma CountFormatIsStrict()
    ensures Strict(CountFormat())
  {
    hide WriteItems, ReadHead, ReadBytes, At;
    var f := CountFormat();
    forall b, o: nat | f.readKey(b, o).Ok? && f.readValue(b, f.readKey(b, o).value.next).Ok?
      ensures var k, v := f.readKey(b, o).value, f.readValue(b, f.readKey(b, o).value.next).value;
        At(b, o, f.write(k.value, v.value)) && v.next == o + |f.write(k.value, v.value)|
    {
      var k, v := f.readKey(b, o).value, f.readValue(b, f.readKey(b, o).value.next).value;
      CountItemsRead(b, o, k.value, v.value, k.next, v.next);
    }
  }

  lemma InsertAppends(m: PoolCounts, pool: Hash28, count: U64)
    requires m != [] ==> Below(m[|m| - 1].0, pool)
    ensures Insert(m, pool, count) == m + [(pool, count)]
  {
    BelowIsIrreflexive(pool);
  }

  lemma StrictEntryReadsLeniently(b: Bytes, o: nat, prev: Option<Hash28>)
    requires ReadOne(CountFormat(), b, o, prev).Ok?
    ensures var e := ReadOne(CountFormat(), b, o, prev).value;
      && ReadHash28(b, o).Ok? && ReadHash28(b, o).value.value == e.value.0
      && ReadU64(b, ReadHash28(b, o).value.next).Ok?
      && ReadU64(b, ReadHash28(b, o).value.next).value.value == e.value.1
      && ReadU64(b, ReadHash28(b, o).value.next).value.next == e.next
      && (prev.Some? ==> Below(prev.value, e.value.0))
  {
    hide ReadHash28, ReadU64, Below;
  }

  /** A strictly accepted map reads leniently to the same map. */
  lemma {:induction false} StrictReadsLeniently(b: Bytes, o: nat, count: nat)
    requires ReadEntries(CountFormat(), b, o, count).Ok?
    ensures ReadCounts(b, o, count).Ok?
    ensures ReadCounts(b, o, count).value.value == ReadEntries(CountFormat(), b, o, count).value.value
    ensures ReadCounts(b, o, count).value.next == ReadEntries(CountFormat(), b, o, count).value.next
  {
    hide ReadHash28, ReadU64, ReadOne, Insert, Below, CountFormat;
    if count > 0 {
      StrictReadsLeniently(b, o, count - 1);
      var before := ReadEntries(CountFormat(), b, o, count - 1).value;
      StrictEntryReadsLeniently(b, before.next, LastKey(before.value));
      var e := ReadOne(CountFormat(), b, before.next, LastKey(before.value)).value.value;
      InsertAppends(ReadCounts(b, o, count - 1).value.value, e.0, e.1);
    }
  }

  lemma StrictReadsBack(m: PoolCounts)
    requires |m| <= U64_MAX
    ensures DecodeStrict(EncodeCounts(m)) == Some(m)
  {
    hide At, WriteItem, WriteEntries, ReadEntries, ReadContainer;
    var b, header := EncodeCounts(m), WriteItem(MapHeader(|m|));
    assert At(b, 0, header) && At(b, |header|, WriteEntries(CountFormat(), m)) by {
      Whole(b);
      AtParts(b, 0, header, WriteEntries(CountFormat(), m));
    }
    ItemReadsBack(b, 0, MapHeader(|m|), |header|);
    CountFormatIsFaithful();
    assert Ascending(CountFormat(), m);
    EntriesReadBack(CountFormat(), b, |header|, m);
  }

  lemma StrictIsEncoding(b: Bytes)
    requires DecodeStrict(b).Some?
    ensures |DecodeStrict(b).value| <= U64_MAX && EncodeCounts(DecodeStrict(b).value) == b
  {
    hide At, WriteItem, WriteEntries, ReadEntries, ReadContainer;
    var n := DefiniteCount(ReadMapHeader(b, 0)).value;
    var m := DecodeStrict(b).value;
    CountFormatIsStrict();
    EntriesAreWritten(CountFormat(), b, n.next, n.value);
    ItemReadsBack(b, 0, MapHeader(n.value), n.next);
    var header := WriteItem(MapHeader(|m|));
    AtParts(b, 0, header, WriteEntries(CountFormat(), m));
    WithinBounds(b, 0, header);
    FillsWhole(b, EncodeCounts(m));
  }

  lemma WithinBounds(b: Bytes, o: nat, w: Bytes)
    requires At(b, o, w)
    ensures o + |w| <= |b|
  {
  }

  lemma FillsWhole(b: Bytes, w: Bytes)
    requires At(b, 0, w) && |w| == |b|
    ensures w == b
  {
  }

  /**
   The re-encode comparison makes the lenient reader strict: the two accept the same
   byte strings, with the same map.
   */
  lemma LenientWithBackstopIsStrict(b: Bytes)
    ensures DecodeLenient(b) == DecodeStrict(b)
  {
    if DecodeStrict(b).Some? {
      StrictIsEncoding(b);
      var n := DefiniteCount(ReadMapHeader(b, 0)).value;
      hide ReadContainer, EncodeCounts, ReadEntries, ReadCounts;
      StrictReadsLeniently(b, n.next, n.value);
    } else if DecodeLenient(b).Some? {
      StrictReadsBack(DecodeLenient(b).value);
    }
  }

  /** The previous epoch's counts, keyed by pool id hash. */
  function ByHash(m: map<PoolId, U64>): map<Hash28, U64> {
    map p | p in m :: p.hash := m[p]
  }

  function ByPool(m: map<Hash28, U64>): map<PoolId, U64> {
    map h | h in m :: PoolId(h) := m[h]
  }

  /** The accumulator's count map as it is written: in ascending order of pool ids. */
  ghost function CountsOf(m: map<PoolId, U64>): (r: PoolCounts)
    ensures |r| == |ByHash(m)|
  {
    KeyBelowIsStrictOrder();
    SortedListIsSorted(KeyBelow, ByHash(m));
    SortedList(KeyBelow, ByHash(m))
  }

  /** The count map the accumulator holds is the one its encoding yields. */
  lemma CountMapRoundTrips(m: map<PoolId, U64>)
    requires |ByHash(m)| <= U64_MAX
    ensures DecodeLenient(EncodeCounts(CountsOf(m))).Some?
    ensures ByPool(ToMap(DecodeLenient(EncodeCounts(CountsOf(m))).value)) == m
  {
    hide DecodeLenient, DecodeStrict, EncodeCounts;
    LenientWithBackstopIsStrict(EncodeCounts(CountsOf(m)));
    StrictReadsBack(CountsOf(m));
    KeyBelowIsStrictOrder();
    SortedListIsSorted(KeyBelow, ByHash(m));
    SamePools(m);
  }

  lemma SamePools(m: map<PoolId, U64>)
    ensures ByPool(ByHash(m)) == m
  {
  }

  // Invalid transaction indices.

  /** An ordered set of indices. */
  type Indices = s: seq<U64> | forall i, j :: 0 <= i < |s| && j == i + 1 && j < |s| ==> s[i] < s[j]

  function IndexItems(s: seq<U64>): Items {
    seq(|s|, i requires 0 <= i < |s| => UInt(s[i]))
  }

  function EncodeIndices(s: seq<U64>): Bytes
    requires |s| <= U64_MAX
  {
    WriteItem(ArrayHeader(|s|)) + WriteItems(IndexItems(s))
  }

  function ReadIndex(b: Bytes, o: nat, prev: Option<U64>, txCount: U64): Option<Read<U64>> {
    match ReadUint(b, o)
    case None => None
    case Some(r) =>
      if r.width == CanonicalWidth(r.value) && (prev.Some? ==> prev.value < r.value) && r.value < txCount then Some(r)
      else None
  }

  function LastIndex(s: seq<U64>): Option<U64> {
    if s == [] then None else Some(s[|s| - 1])
  }

  function ReadIndices(b: Bytes, o: nat, count: nat, txCount: U64): (r: Option<Read<Indices>>)
    ensures r.Some? ==> |r.value.value| == count && r.value.width == 0
  {
    if count == 0 then
      Some(Read([], 0, o))
    else
      match ReadIndices(b, o, count - 1, txCount)
      case None => None
      case Some(init) =>
        match ReadIndex(b, init.next, LastIndex(init.value), txCount)
        case None => None
        case Some(r) => Some(Read(init.value + [r.value], 0, r.next))
  }

  /** `decode_invalid_tx_indices_canonical`; `None` is a malformed block. */
  function DecodeIndices(field: Option<Bytes>, txCount: U64): Option<Indices> {
    if field.None? || field.value == [] then
      Some([])
    else
      var b := field.value;
      match ReadArrayHeader(b, 0)
      case Some(Read(Definite(n), width, next)) =>
        if width != CanonicalWidth(n) then
          None
        else
          (match ReadIndices(b, next, n, txCount)
           case None => None
           case Some(r) => if r.next == |b| then Some(r.value) else None)
      case _ => None
  }

  method DecodeInvalidIndices(field: Option<Bytes>, txCount: U64) returns (r: Option<Indices>)
    ensures r == DecodeIndices(field, txCount)
  {
    hide ReadHead, ReadContainer, CanonicalWidth;
    if field.None? || field.value == [] {
      return Some([]);
    }
    var b := field.value;
    var header := ReadArrayHeader(b, 0);
    if header.None? || header.value.value.Indefinite? {
      return None;
    }
    var n, start := header.value.value.count, header.value.next;
    if header.value.width != CanonicalWidth(n) {
      return None;
    }
    var out, next, prev: Option<U64> := [], start, None;
    for i := 0 to n
      invariant ReadIndices(b, start, i, txCount) == Some(Read(out, 0, next)) && prev == LastIndex(out)
    {
      var index := ReadUint(b, next);
      if index.None? || index.value.width != CanonicalWidth(index.value.value)
         || (prev.Some? && index.value.value <= prev.value) || index.value.value >= txCount {
        IndexRefusalIsFinal(b, start, i + 1, n, txCount);
        return None;
      }
      out, next, prev := out + [index.value.value], index.value.next, Some(index.value.value);
    }
    return if next == |b| then Some(out) else None;
  }

  lemma {:induction false} IndexRefusalIsFinal(b: Bytes, o: nat, i: nat, count: nat, txCount: U64)
    requires i <= count && ReadIndices(b, o, i, txCount).None?
    ensures ReadIndices(b, o, count, txCount).None?
  {
    if i < count {
      IndexRefusalIsFinal(b, o, i, count - 1, txCount);
    }
  }

  predicate InRange(s: seq<U64>, txCount: U64) {
    forall i :: 0 <= i < |s| ==> s[i] < txCount
  }

  lemma IndexItemsAppend(s: seq<U64>)
    requires s != []
    ensures WriteItems(IndexItems(s))
         == WriteItems(IndexItems(s[..|s| - 1])) + WriteItem(UInt(s[|s| - 1]))
  {
    assert IndexItems(s)[..|s| - 1] == IndexItems(s[..|s| - 1]);
  }

  lemma NothingIsWritten(b: Bytes, o: nat)
    requires o <= |b|
    ensures WriteItems(IndexItems([])) == [] && At(b, o, [])
  {
  }

  /** A list in range reads back where it was written, and whatever is read was written. */
  lemma {:induction false} IndicesReadBack(b: Bytes, o: nat, s: Indices, next: nat, txCount: U64)
    requires o <= |b|
    ensures ReadIndices(b, o, |s|, txCount) == Some(Read(s, 0, next)) <==>
              InRange(s, txCount) && At(b, o, WriteItems(IndexItems(s))) && next == o + |WriteItems(IndexItems(s))|
  {
    hide ReadHead, WriteItem, WriteItems, At, IndexItems;
    if s == [] {
      NothingIsWritten(b, o);
    } else {
      var n := |s| - 1;
      var init: Indices := s[..n];
      var before := o + |WriteItems(IndexItems(init))|;
      IndexItemsAppend(s);
      AtParts(b, o, WriteItems(IndexItems(init)), WriteItem(UInt(s[n])));
      IndicesReadBack(b, o, init, before, txCount);
      ItemReadsBack(b, before, UInt(s[n]), next);
      ItemReadsBack(b, before, UInt(s[n]), before + |WriteItem(UInt(s[n]))|);
      assert s == init + [s[n]];
      var r := ReadIndices(b, o, |s|, txCount);
      if r.Some? && r.value.value == s {
        var p := ReadIndices(b, o, n, txCount).value;
        assert p.value == init;
        IndicesReadBack(b, o, init, p.next, txCount);
      }
    }
  }

  /**
   Among non-empty fields exactly the canonical encodings of ascending index lists
   below the transaction count are accepted, each with its own list.
   */
  lemma AcceptsExactlyCanonical(b: Bytes, txCount: U64, s: Indices)
    requires b != []
    ensures DecodeIndices(Some(b), txCount) == Some(s) <==>
              |s| <= U64_MAX && InRange(s, txCount) && b == EncodeIndices(s)
  {
    hide At, WriteItem, WriteItems, ReadContainer, ReadIndices, InRange;
    if DecodeIndices(Some(b), txCount) == Some(s) {
      var next := ReadArrayHeader(b, 0).value.next;
      ItemReadsBack(b, 0, ArrayHeader(|s|), next);
      WithinBounds(b, 0, WriteItem(ArrayHeader(|s|)));
      IndicesReadBack(b, next, s, |b|, txCount);
      AtParts(b, 0, WriteItem(ArrayHeader(|s|)), WriteItems(IndexItems(s)));
      FillsWhole(b, EncodeIndices(s));
    } else if |s| <= U64_MAX && InRange(s, txCount) && b == EncodeIndices(s) {
      var header := WriteItem(ArrayHeader(|s|));
      Whole(b);
      AtParts(b, 0, header, WriteItems(IndexItems(s)));
      ItemReadsBack(b, 0, ArrayHeader(|s|), |header|);
      IndicesReadBack(b, |header|, s, |b|, txCount);
    }
  }

  // The lenient index reader.

  /** A failed read is skipped; only its initial byte, if there was one, is consumed. */
  function LenientDefinite(b: Bytes, o: nat, count: nat): Read<set<U64>> {
    if count == 0 then
      Read({}, 0, o)
    else
      var init := LenientDefinite(b, o, count - 1);
      match ReadUint(b, init.next)
      case Some(r) => Read(init.value + {r.value}, 0, r.next)
      case None => Read(init.value, 0, if init.next < |b| then init.next + 1 else init.next)
  }

  function LenientIndefinite(b: Bytes, o: nat): set<U64>
    decreases |b| - o
  {
    if o >= |b| || b[o] == 0xff then
      {}
    else
      match ReadUint(b, o)
      case None => {}
      case Some(r) => {r.value} + LenientIndefinite(b, r.next)
  }

  function Elements(s: seq<U64>): set<U64> {
    set i | i in s
  }

  function LenientIndices(field: Option<Bytes>): set<U64> {
    if field.None? || field.value == [] then
      {}
    else
      match ReadArrayHeader(field.value, 0)
      case None => {}
      case Some(Read(Definite(n), _, next)) => LenientDefinite(field.value, next, n).value
      case Some(Read(Indefinite, _, next)) => LenientIndefinite(field.value, next)
  }

  lemma {:induction false} LenientFollowsStrict(b: Bytes, o: nat, count: nat, txCount: U64)
    requires ReadIndices(b, o, count, txCount).Some?
    ensures var r := ReadIndices(b, o, count, txCount).value;
      LenientDefinite(b, o, count).value == Elements(r.value) && LenientDefinite(b, o, count).next == r.next
  {
    hide ReadHead;
    if count > 0 {
      LenientFollowsStrict(b, o, count - 1, txCount);
      var before := ReadIndices(b, o, count - 1, txCount).value.value;
      var after := ReadIndices(b, o, count, txCount).value.value;
      assert Elements(after) == Elements(before) + {after[count - 1]};
    }
  }

  /** Wherever the strict reader accepts, the lenient one yields the same indices. */
  lemma LenientAgreesWithStrict(field: Option<Bytes>, txCount: U64)
    requires DecodeIndices(field, txCount).Some?
    ensures LenientIndices(field) == Elements(DecodeIndices(field, txCount).value)
  {
    hide ReadContainer, ReadIndices, LenientDefinite;
    if field.Some? && field.value != [] {
      var header := ReadArrayHeader(field.value, 0).value;
      LenientFollowsStrict(field.value, header.next, header.value.count, txCount);
    }
  }

  /** A written list reads back leniently, in any range. */
  lemma {:induction false} LenientReadsBack(b: Bytes, o: nat, s: seq<U64>)
    requires o <= |b| && At(b, o, WriteItems(IndexItems(s)))
    ensures LenientDefinite(b, o, |s|).value == Elements(s)
    ensures LenientDefinite(b, o, |s|).next == o + |WriteItems(IndexItems(s))|
  {
    hide ReadHead, WriteItem, WriteItems, At, IndexItems;
    if s == [] {
      NothingIsWritten(b, o);
    } else {
      var n := |s| - 1;
      IndexItemsAppend(s);
      AtParts(b, o, WriteItems(IndexItems(s[..n])), WriteItem(UInt(s[n])));
      LenientReadsBack(b, o, s[..n]);
      var before := o + |WriteItems(IndexItems(s[..n]))|;
      ItemReadsBack(b, before, UInt(s[n]), before + |WriteItem(UInt(s[n]))|);
      SetAppend(s);
    }
  }

  lemma SetAppend(s: seq<U64>)
    requires s != []
    ensures Elements(s) == Elements(s[..|s| - 1]) + {s[|s| - 1]}
  {
    assert s == s[..|s| - 1] + [s[|s| - 1]];
  }

  /** At the end of the field the lenient reader keeps what it has. */
  lemma {:induction false} LenientStops(b: Bytes, o: nat, k: nat, count: nat)
    requires k <= count && LenientDefinite(b, o, k).next == |b|
    ensures LenientDefinite(b, o, count).value == LenientDefinite(b, o, k).value
    ensures LenientDefinite(b, o, count).next == |b|
  {
    if k < count {
      LenientStops(b, o, k, count - 1);
    }
  }

  lemma {:induction false} StrictlyBelow(s: Indices, i: nat, k: nat)
    requires i < k < |s|
    ensures s[i] < s[k]
  {
    if i + 1 < k {
      StrictlyBelow(s, i, k - 1);
    }
  }

  /** A field that announces all of `s` and holds only its first `k` indices. */
  function Truncated(s: seq<U64>, k: nat): Bytes
    requires k <= |s| <= U64_MAX
  {
    WriteItem(ArrayHeader(|s|)) + WriteItems(IndexItems(s[..k]))
  }

  /**
   Where the strict reader refuses, the lenient one may under-report: every truncated
   field loses the indices that were cut off.
   */
  lemma LenientUnderReports(s: Indices, k: nat, txCount: U64)
    requires k < |s| <= U64_MAX
    ensures DecodeIndices(Some(Truncated(s, k)), txCount).None?
    ensures LenientIndices(Some(Truncated(s, k))) == Elements(s[..k])
    ensures s[k] !in LenientIndices(Some(Truncated(s, k)))
  {
    hide At, WriteItem, WriteItems, ReadContainer, ReadIndices, LenientDefinite, IndexItems;
    var b, header, rest := Truncated(s, k), WriteItem(ArrayHeader(|s|)), WriteItems(IndexItems(s[..k]));
    Whole(b);
    AtParts(b, 0, header, rest);
    ItemReadsBack(b, 0, ArrayHeader(|s|), |header|);
    HeaderIsNotEmpty(|s|);
    LenientReadsBack(b, |header|, s[..k]);
    LenientStops(b, |header|, k, |s|);
    StrictNeedsMore(b, |header|, k, |s|, txCount);
    forall i | 0 <= i < k
      ensures s[i] < s[k]
    {
      StrictlyBelow(s, i, k);
    }
  }

  lemma HeaderIsNotEmpty(n: U64)
    ensures |WriteItem(ArrayHeader(n))| > 0
  {
  }

  lemma NothingAtEnd(b: Bytes)
    ensures ReadUint(b, |b|).None?
  {
  }

  lemma StrictNeedsMore(b: Bytes, o: nat, k: nat, count: nat, txCount: U64)
    requires k < count && LenientDefinite(b, o, k).next == |b|
    ensures ReadIndices(b, o, count, txCount).None?
  {
    hide ReadHead, LenientDefinite;
    if ReadIndices(b, o, k, txCount).Some? {
      LenientFollowsStrict(b, o, k, txCount);
      NothingAtEnd(b);
      assert ReadIndices(b, o, k + 1, txCount).None?;
      IndexRefusalIsFinal(b, o, k + 1, count, txCount);
    } else {
      IndexRefusalIsFinal(b, o, k, count, txCount);
    }
  }

  // Lists of indefinite length.

  lemma {:induction false} FirstItem(s: seq<U64>)
    requires s != []
    ensures WriteItems(IndexItems(s)) == WriteItem(UInt(s[0])) + WriteItems(IndexItems(s[1..]))
  {
    hide WriteItem;
    var n := |s| - 1;
    IndexItemsAppend(s);
    if n == 0 {
      assert s[..0] == [] && s[1..] == [];
    } else {
      FirstItem(s[..n]);
      IndexItemsAppend(s[1..]);
      assert s[..n][1..] == s[1..][..n - 1];
    }
  }

  /** The lenient reader takes a list of indefinite length up to its break byte, whatever the order. */
  lemma {:induction false} LenientReadsIndefinite(b: Bytes, o: nat, s: seq<U64>)
    requires At(b, o, WriteItems(IndexItems(s)) + [0xff])
    ensures LenientIndefinite(b, o) == Elements(s)
    decreases |s|
  {
    hide WriteItem, WriteItems, ReadHead, At;
    if s == [] {
      BreakStands(b, o);
    } else {
      var first, rest := WriteItem(UInt(s[0])), WriteItems(IndexItems(s[1..])) + [0xff];
      FirstItem(s);
      assert WriteItems(IndexItems(s)) + [0xff] == first + rest;
      AtParts(b, o, first, rest);
      ItemReadsBack(b, o, UInt(s[0]), o + |first|);
      UintIsNoBreak(b, o);
      LenientReadsIndefinite(b, o + |first|, s[1..]);
      assert s == [s[0]] + s[1..];
    }
  }

  lemma BreakStands(b: Bytes, o: nat)
    requires At(b, o, WriteItems(IndexItems([])) + [0xff])
    ensures o < |b| && b[o] == 0xff
  {
    assert WriteItems(IndexItems([])) + [0xff] == [0xff];
    assert b[o..o + 1][0] == b[o];
  }

  lemma UintIsNoBreak(b: Bytes, o: nat)
    requires ReadUint(b, o).Some?
    ensures o < |b| && b[o] != 0xff
  {
  }

  /** Such a field is refused by the strict reader and taken by the lenient one. */
  lemma IndefiniteIsRefusedStrictly(s: seq<U64>, txCount: U64)
    ensures var b := [0x9f] + WriteItems(IndexItems(s)) + [0xff];
      DecodeIndices(Some(b), txCount) == None && LenientIndices(Some(b)) == Elements(s)
  {
    hide WriteItems, ReadIndices, LenientDefinite, IndexItems, At;
    var b := [0x9f] + WriteItems(IndexItems(s)) + [0xff];
    ReservedForms(b, 0, 4);
    Whole(b);
    assert b == [0x9f] + (WriteItems(IndexItems(s)) + [0xff]);
    AtParts(b, 0, [0x9f], WriteItems(IndexItems(s)) + [0xff]);
    LenientReadsIndefinite(b, 1, s);
  }
}
