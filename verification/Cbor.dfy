/**
 The CBOR primitives (crates/ade_codec/src/cbor/mod.rs): readers that advance an
 offset and accept any argument width, and writers of the shortest form
 (sections 3 and 4.2.1 of RFC 8949).
 */
module Cbor {
  import opened LedgerTypes

  type Bytes = seq<Byte>

  // Big-endian numbers.

  function Pow256(n: nat): nat {
    if n == 0 then 1 else 256 * Pow256(n - 1)
  }

  function ToBigEndian(v: nat, n: nat): Bytes {
    if n == 0 then [] else ToBigEndian(v / 256, n - 1) + [v % 256]
  }

  function FromBigEndian(s: Bytes): nat {
    if s == [] then 0 else FromBigEndian(s[..|s| - 1]) * 256 + s[|s| - 1]
  }

  lemma {:induction false} BigEndianRoundTrip(v: nat, n: nat)
    requires v < Pow256(n)
    ensures |ToBigEndian(v, n)| == n && FromBigEndian(ToBigEndian(v, n)) == v
  {
    if n > 0 {
      BigEndianRoundTrip(v / 256, n - 1);
      assert ToBigEndian(v, n)[..n - 1] == ToBigEndian(v / 256, n - 1);
    }
  }

  lemma {:induction false} BigEndianIsUnique(s: Bytes)
    ensures FromBigEndian(s) < Pow256(|s|) && ToBigEndian(FromBigEndian(s), |s|) == s
  {
    if s != [] {
      BigEndianIsUnique(s[..|s| - 1]);
      assert s == s[..|s| - 1] + [s[|s| - 1]];
    }
  }

  lemma Powers()
    ensures Pow256(1) == 0x100 && Pow256(2) == 0x1_0000
    ensures Pow256(4) == 0x1_0000_0000 && Pow256(8) == 0x1_0000_0000_0000_0000
  {
    assert Pow256(4) == 256 * (256 * Pow256(2));
    assert Pow256(8) == 256 * (256 * (256 * (256 * Pow256(4))));
  }

  // Readers.

  /** A value read, the number of argument bytes it took, and the offset after it. */
  datatype Read<+T> = Read(value: T, width: nat, next: nat)

  datatype Container = Definite(count: U64) | Indefinite

  /** How many bytes follow the initial byte; 28 and above are no argument. */
  function ArgumentBytes(info: nat): Option<nat> {
    if info < 24 then Some(0)
    else if info == 24 then Some(1)
    else if info == 25 then Some(2)
    else if info == 26 then Some(4)
    else if info == 27 then Some(8)
    else None
  }

  function ReadArgument(b: Bytes, o: nat, info: nat): Option<Read<U64>> {
    match ArgumentBytes(info)
    case None => None
    case Some(n) =>
      if n == 0 then
        Some(Read(info, 0, o))
      else if o + n <= |b| then
        BigEndianIsUnique(b[o..o + n]);
        Powers();
        Some(Read(FromBigEndian(b[o..o + n]), n, o + n))
      else
        None
  }

  /** An initial byte of the given major type, with its argument. */
  function ReadHead(b: Bytes, o: nat, major: nat): Option<Read<U64>> {
    if o < |b| && b[o] / 32 == major then ReadArgument(b, o + 1, b[o] % 32) else None
  }

  function ReadUint(b: Bytes, o: nat): Option<Read<U64>> {
    ReadHead(b, o, 0)
  }

  function ReadBytes(b: Bytes, o: nat): Option<Read<Bytes>> {
    match ReadHead(b, o, 2)
    case None => None
    case Some(len) =>
      if len.next + len.value <= |b| then
        Some(Read(b[len.next..len.next + len.value], len.width, len.next + len.value))
      else
        None
  }

  function ReadContainer(b: Bytes, o: nat, major: nat): Option<Read<Container>> {
    if o < |b| && b[o] / 32 == major && b[o] % 32 == 31 then
      Some(Read(Indefinite, 0, o + 1))
    else
      match ReadHead(b, o, major)
      case None => None
      case Some(n) => Some(Read(Definite(n.value), n.width, n.next))
  }

  function ReadArrayHeader(b: Bytes, o: nat): Option<Read<Container>> {
    ReadContainer(b, o, 4)
  }

  function ReadMapHeader(b: Bytes, o: nat): Option<Read<Container>> {
    ReadContainer(b, o, 5)
  }

  // Writers.

  /** `canonical_width`, as the number of argument bytes. */
  function CanonicalWidth(v: U64): nat {
    if v <= 23 then 0
    else if v <= 0xff then 1
    else if v <= 0xffff then 2
    else if v <= 0xffff_ffff then 4
    else 8
  }

  function Info(v: U64): Byte {
    if v <= 23 then v
    else if v <= 0xff then 24
    else if v <= 0xffff then 25
    else if v <= 0xffff_ffff then 26
    else 27
  }

  function WriteHead(major: nat, v: U64): Bytes
    requires major < 8
  {
    [major * 32 + Info(v)] + ToBigEndian(v, CanonicalWidth(v))
  }

  /** `At(b, o, w)`: the bytes `w` stand in `b` at offset `o`. */
  predicate At(b: Bytes, o: nat, w: Bytes) {
    o + |w| <= |b| && b[o..o + |w|] == w
  }

  lemma AtParts(b: Bytes, o: nat, x: Bytes, y: Bytes)
    ensures At(b, o, x + y) <==> At(b, o, x) && At(b, o + |x|, y)
  {
    if At(b, o, x + y) {
      assert b[o..o + |x|] == (x + y)[..|x|];
      assert b[o + |x|..o + |x| + |y|] == (x + y)[|x|..];
    }
  }

  lemma Whole(b: Bytes)
    ensures At(b, 0, b)
  {
  }

  /** Reading undoes writing. */
  lemma HeadReadsBack(b: Bytes, o: nat, major: nat, v: U64)
    requires major < 8 && At(b, o, WriteHead(major, v))
    ensures ReadHead(b, o, major) == Some(Read(v, CanonicalWidth(v), o + |WriteHead(major, v)|))
  {
    var n := CanonicalWidth(v);
    Powers();
    if n > 0 {
      BigEndianRoundTrip(v, n);
    }
    AtParts(b, o, [major * 32 + Info(v)], ToBigEndian(v, n));
    assert b[o..o + 1][0] == b[o];
    assert b[o + 1..o + 1 + n] == ToBigEndian(v, n);
  }

  /** The four forms with argument bytes: additional information 24 to 27 for 1, 2, 4 and 8 of them. */
  predicate Form(info: nat, n: nat) {
    (info == 24 && n == 1) || (info == 25 && n == 2) || (info == 26 && n == 4) || (info == 27 && n == 8)
  }

  /** Every form is read, shortest or not, and its width is reported. */
  lemma AnyWidthReads(b: Bytes, o: nat, major: nat, info: nat, n: nat, v: U64)
    requires major < 8 && Form(info, n) && v < Pow256(n)
    requires At(b, o, [major * 32 + info] + ToBigEndian(v, n))
    ensures ReadHead(b, o, major) == Some(Read(v, n, o + 1 + n))
  {
    BigEndianRoundTrip(v, n);
    AtParts(b, o, [major * 32 + info], ToBigEndian(v, n));
    assert b[o..o + 1][0] == b[o];
    assert b[o + 1..o + 1 + n] == ToBigEndian(v, n);
  }

  /** The reserved forms are not read, and the indefinite one only for arrays and maps. */
  lemma ReservedForms(b: Bytes, o: nat, major: nat)
    requires o < |b| && b[o] / 32 == major && 28 <= b[o] % 32
    ensures ReadHead(b, o, major).None?
    ensures ReadContainer(b, o, major) == if b[o] % 32 == 31 then Some(Read(Indefinite, 0, o + 1)) else None
  {
  }

  /** What is read in the shortest form is what the writer writes. */
  lemma ShortestIsWritten(b: Bytes, o: nat, major: nat)
    requires major < 8 && ReadHead(b, o, major).Some?
    requires ReadHead(b, o, major).value.width == CanonicalWidth(ReadHead(b, o, major).value.value)
    ensures var r := ReadHead(b, o, major).value;
      At(b, o, WriteHead(major, r.value)) && r.next == o + |WriteHead(major, r.value)|
  {
    hide ReadArgument, ToBigEndian, Info, CanonicalWidth, At;
    var r := ReadHead(b, o, major).value;
    ShortestArgument(b, o + 1, b[o] % 32);
    InitialByte(b, o, major, Info(r.value));
    ArgumentStands(b, o + 1, ToBigEndian(r.value, r.width));
    AtParts(b, o, [major * 32 + Info(r.value)], ToBigEndian(r.value, r.width));
  }

  /** An argument in the shortest form has the writer's additional information and big-endian bytes. */
  lemma ShortestArgument(b: Bytes, o: nat, info: nat)
    requires ReadArgument(b, o, info).Some?
    requires ReadArgument(b, o, info).value.width == CanonicalWidth(ReadArgument(b, o, info).value.value)
    ensures var r := ReadArgument(b, o, info).value;
      && info == Info(r.value) && r.next == o + r.width && |ToBigEndian(r.value, r.width)| == r.width
      && (r.width > 0 ==> r.next <= |b| && b[o..r.next] == ToBigEndian(r.value, r.width))
  {
    hide FromBigEndian;
    var r := ReadArgument(b, o, info).value;
    if r.width > 0 {
      hide ToBigEndian;
      BigEndianIsUnique(b[o..o + r.width]);
    }
  }

  lemma InitialByte(b: Bytes, o: nat, major: nat, info: Byte)
    requires o < |b| && major < 8 && info < 32 && b[o] / 32 == major && b[o] % 32 == info
    ensures At(b, o, [major * 32 + info])
  {
    assert b[o..o + 1] == [b[o]];
  }

  lemma ArgumentStands(b: Bytes, o: nat, w: Bytes)
    requires o <= |b| && (w != [] ==> o + |w| <= |b| && b[o..o + |w|] == w)
    ensures At(b, o, w)
  {
  }

  // Sequences of items.

  datatype Item =
    | UInt(n: U64)
    | ByteString(data: Bytes)
    | ArrayHeader(count: U64)
    | MapHeader(count: U64)

  predicate Writable(item: Item) {
    item.ByteString? ==> |item.data| <= U64_MAX
  }

  function WriteItem(item: Item): Bytes
    requires Writable(item)
  {
    match item
    case UInt(n) => WriteHead(0, n)
    case ByteString(data) => WriteHead(2, |data|) + data
    case ArrayHeader(count) => WriteHead(4, count)
    case MapHeader(count) => WriteHead(5, count)
  }

  /** The reader of an item's kind yields it, in the shortest form, and ends at `next`. */
  predicate ReadsAs(b: Bytes, o: nat, item: Item, next: nat)
    requires Writable(item)
  {
    match item
    case UInt(n) => ReadUint(b, o) == Some(Read(n, CanonicalWidth(n), next))
    case ByteString(data) => ReadBytes(b, o) == Some(Read(data, CanonicalWidth(|data|), next))
    case ArrayHeader(count) => ReadArrayHeader(b, o) == Some(Read(Definite(count), CanonicalWidth(count), next))
    case MapHeader(count) => ReadMapHeader(b, o) == Some(Read(Definite(count), CanonicalWidth(count), next))
  }

  lemma HeaderReadsBack(b: Bytes, o: nat, major: nat, v: U64)
    requires major < 8 && At(b, o, WriteHead(major, v))
    ensures ReadContainer(b, o, major) == Some(Read(Definite(v), CanonicalWidth(v), o + |WriteHead(major, v)|))
  {
    HeadReadsBack(b, o, major, v);
    assert b[o..o + |WriteHead(major, v)|][0] == b[o];
  }

  lemma BytesReadBack(b: Bytes, o: nat, data: Bytes)
    requires |data| <= U64_MAX && At(b, o, WriteHead(2, |data|) + data)
    ensures ReadBytes(b, o)
         == Some(Read(data, CanonicalWidth(|data|), o + |WriteHead(2, |data|) + data|))
  {
    AtParts(b, o, WriteHead(2, |data|), data);
    HeadReadsBack(b, o, 2, |data|);
  }

  /** Every item reads back where it was written, and whatever reads back was written. */
  lemma ItemReadsBack(b: Bytes, o: nat, item: Item, next: nat)
    requires Writable(item)
    ensures ReadsAs(b, o, item, next) <==> At(b, o, WriteItem(item)) && next == o + |WriteItem(item)|
  {
    hide At, WriteItem, ReadsAs;
    if At(b, o, WriteItem(item)) {
      WrittenReadsBack(b, o, item, next);
    } else if ReadsAs(b, o, item, next) {
      ReadWasWritten(b, o, item, next);
    }
  }

  lemma WrittenReadsBack(b: Bytes, o: nat, item: Item, next: nat)
    requires Writable(item) && At(b, o, WriteItem(item))
    ensures ReadsAs(b, o, item, next) <==> next == o + |WriteItem(item)|
  {
    hide ReadHead, WriteHead, ReadContainer, ReadBytes, CanonicalWidth;
    match item
    case UInt(n) => HeadReadsBack(b, o, 0, n);
    case ByteString(data) => BytesReadBack(b, o, data);
    case ArrayHeader(n) => HeaderReadsBack(b, o, 4, n);
    case MapHeader(n) => HeaderReadsBack(b, o, 5, n);
  }

  lemma ReadWasWritten(b: Bytes, o: nat, item: Item, next: nat)
    requires Writable(item) && ReadsAs(b, o, item, next)
    ensures At(b, o, WriteItem(item)) && next == o + |WriteItem(item)|
  {
    hide ReadHead, WriteHead;
    match item
    case UInt(n) => ShortestIsWritten(b, o, 0);
    case ByteString(data) =>
      ShortestIsWritten(b, o, 2);
      AtParts(b, o, WriteHead(2, |data|), data);
    case ArrayHeader(n) => ShortestIsWritten(b, o, 4);
    case MapHeader(n) => ShortestIsWritten(b, o, 5);
  }

  type Items = s: seq<Item> | forall i :: 0 <= i < |s| ==> Writable(s[i])

  function WriteItems(items: Items): Bytes {
    if items == [] then [] else WriteItems(items[..|items| - 1]) + WriteItem(items[|items| - 1])
  }

  /** The offset of the k-th of the items written at `o`. */
  function Offset(o: nat, items: Items, k: nat): nat
    requires k <= |items|
  {
    o + |WriteItems(items[..k])|
  }

  /** The k-th of the items written at `o` stands at its offset. */
  lemma {:induction false} ItemStandsAt(b: Bytes, o: nat, items: Items, k: nat)
    requires k < |items| && At(b, o, WriteItems(items))
    ensures At(b, Offset(o, items, k), WriteItem(items[k]))
    ensures Offset(o, items, k + 1) == Offset(o, items, k) + |WriteItem(items[k])|
  {
    hide WriteItem, Writable, At;
    var n := |items| - 1;
    var init: Items := items[..n];
    AtParts(b, o, WriteItems(init), WriteItem(items[n]));
    if k == n {
      assert items[..k + 1] == items;
    } else {
      ItemStandsAt(b, o, init, k);
      assert init[..k] == items[..k] && init[..k + 1] == items[..k + 1];
    }
  }

  /** All items written in a row read back one after another. */
  lemma ItemsReadBack(b: Bytes, o: nat, items: Items)
    requires At(b, o, WriteItems(items))
    ensures Offset(o, items, 0) == o && Offset(o, items, |items|) == o + |WriteItems(items)|
    ensures forall k :: 0 <= k < |items| ==> ReadsAs(b, Offset(o, items, k), items[k], Offset(o, items, k + 1))
  {
    hide ReadsAs, WriteItem, At, Writable;
    assert items[..|items|] == items;
    forall k | 0 <= k < |items|
      ensures ReadsAs(b, Offset(o, items, k), items[k], Offset(o, items, k + 1))
    {
      ItemStandsAt(b, o, items, k);
      ItemReadsBack(b, Offset(o, items, k), items[k], Offset(o, items, k + 1));
    }
  }

  /** Heads byte by byte: the major type in the top three bits, the argument in the shortest of five forms. */
  lemma HeadLayout(major: nat, v: U64)
    requires major < 8
    ensures v <= 23 ==> WriteHead(major, v) == [major * 32 + v]
    ensures 24 <= v <= 0xff ==> WriteHead(major, v) == [major * 32 + 24, v]
    ensures 0xff < v <= 0xffff ==> WriteHead(major, v) == [major * 32 + 25, v / 0x100, v % 0x100]
    ensures 0xffff < v <= 0xffff_ffff ==>
              WriteHead(major, v) == [major * 32 + 26, v / 0x100_0000, v / 0x1_0000 % 0x100, v / 0x100 % 0x100,
                                      v % 0x100]
    ensures 0xffff_ffff < v ==> WriteHead(major, v) == [major * 32 + 27] + ToBigEndian(v, 8)
  {
    hide ToBigEndian;
    NoBytes(v);
    OneByte(v);
    TwoBytes(v);
    FourBytes(v);
  }

  /** Examples of Appendix A of RFC 8949. */
  lemma KnownAnswers()
    ensures WriteItem(UInt(10)) == [0x0a] && WriteItem(UInt(100)) == [0x18, 0x64]
    ensures WriteItem(UInt(1000)) == [0x19, 0x03, 0xe8]
    ensures WriteItem(UInt(1000000)) == [0x1a, 0x00, 0x0f, 0x42, 0x40]
    ensures WriteItem(ByteString([1, 2, 3, 4])) == [0x44, 0x01, 0x02, 0x03, 0x04]
    ensures WriteItem(ArrayHeader(3)) == [0x83] && WriteItem(MapHeader(1)) == [0xa1]
  {
    hide WriteHead;
    HeadLayout(0, 10);
    HeadLayout(0, 100);
    HeadLayout(0, 1000);
    HeadLayout(0, 1000000);
    HeadLayout(2, 4);
    HeadLayout(4, 3);
    HeadLayout(5, 1);
  }

  lemma NoBytes(v: nat)
    ensures ToBigEndian(v, 0) == []
  {
  }

  lemma OneByte(v: nat)
    ensures ToBigEndian(v, 1) == [v % 0x100]
  {
  }

  lemma TwoBytes(v: nat)
    ensures ToBigEndian(v, 2) == [v / 0x100 % 0x100, v % 0x100]
  {
    OneByte(v / 0x100);
  }

  lemma FourBytes(v: nat)
    ensures ToBigEndian(v, 4) == [v / 0x100_0000 % 0x100, v / 0x1_0000 % 0x100, v / 0x100 % 0x100, v % 0x100]
  {
    TwoBytes(v / 0x100 / 0x100);
    assert ToBigEndian(v / 0x100, 3) == ToBigEndian(v / 0x100 / 0x100, 2) + [v / 0x100 % 0x100];
    assert v / 0x100 / 0x100 == v / 0x1_0000 && v / 0x100 / 0x100 / 0x100 == v / 0x100_0000;
  }
}
