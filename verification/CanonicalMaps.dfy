/**
 Maps on the wire: a definite header and entries in strictly ascending key order, as
 the decoders' loops read them and the encoders write an ordered map. An ordered map
 is modelled as its ascending list of entries.
 */
module CanonicalMaps {
  import opened LedgerTypes
  import opened Cbor

  datatype DecodeError =
    | MalformedCbor
    | Structural
    | UnknownVersion(found: U64)
    | UnknownVariant(found: U64)
    | UnknownCredentialTag(found: U64)
    | UnknownSourceKind
    | DuplicateKey
    | NonCanonicalMapOrder
    | FieldOverflow
    | CommitmentMismatch
    | NonCanonicalBytes
    | TrailingBytes

  type Decoded<T> = Result<Read<T>, DecodeError>

  // Field readers.

  function FromCbor<T>(r: Option<Read<T>>): Decoded<T> {
    if r.Some? then Ok(r.value) else Err(MalformedCbor)
  }

  function ReadU64(b: Bytes, o: nat): Decoded<U64> {
    FromCbor(ReadUint(b, o))
  }

  function ReadU32(b: Bytes, o: nat, overflow: DecodeError): Decoded<U64> {
    var r :- ReadU64(b, o);
    if r.value <= 0xffff_ffff then Ok(r) else Err(overflow)
  }

  function ReadHash28(b: Bytes, o: nat): Decoded<Hash28> {
    var r :- FromCbor(ReadBytes(b, o));
    if |r.value| == 28 then Ok(Read(r.value, r.width, r.next)) else Err(Structural)
  }

  function ReadHash32(b: Bytes, o: nat): Decoded<Hash32> {
    var r :- FromCbor(ReadBytes(b, o));
    if |r.value| == 32 then Ok(Read(r.value, r.width, r.next)) else Err(Structural)
  }

  function DefiniteCount(r: Option<Read<Container>>): Decoded<U64> {
    var h :- FromCbor(r);
    match h.value
    case Indefinite => Err(Structural)
    case Definite(n) => Ok(Read(n, h.width, h.next))
  }

  function ExpectArray(b: Bytes, o: nat, count: U64): Decoded<U64> {
    var n :- DefiniteCount(ReadArrayHeader(b, o));
    if n.value == count then Ok(n) else Err(Structural)
  }

  // Entries.

  /** How one map's entries are read, written and ordered. */
  datatype EntryFormat<!K, !V> = EntryFormat(
    readKey: (Bytes, nat) -> Decoded<K>,
    readValue: (Bytes, nat) -> Decoded<V>,
    write: (K, V) -> Bytes,
    below: (K, K) -> bool,
    duplicate: DecodeError,
    disorder: DecodeError)

  function ReadOne<K(==), V>(f: EntryFormat<K, V>, b: Bytes, o: nat, prev: Option<K>): Decoded<(K, V)> {
    var k :- f.readKey(b, o);
    if prev.Some? && k.value == prev.value then
      Err(f.duplicate)
    else if prev.Some? && !f.below(prev.value, k.value) then
      Err(f.disorder)
    else
      var v :- f.readValue(b, k.next);
      Ok(Read((k.value, v.value), 0, v.next))
  }

  function LastKey<K, V>(s: seq<(K, V)>): Option<K> {
    if s == [] then None else Some(s[|s| - 1].0)
  }

  function ReadEntries<K(==), V>(f: EntryFormat<K, V>, b: Bytes, o: nat, count: nat): Decoded<seq<(K, V)>> {
    if count == 0 then
      Ok(Read([], 0, o))
    else
      var init :- ReadEntries(f, b, o, count - 1);
      var e :- ReadOne(f, b, init.next, LastKey(init.value));
      Ok(Read(init.value + [e.value], 0, e.next))
  }

  /** The decoder's loop: an offset, the previous key and a growing map. */
  method DecodeEntries<K(==), V>(f: EntryFormat<K, V>, b: Bytes, o: nat, count: nat)
    returns (r: Decoded<seq<(K, V)>>)
    ensures r == ReadEntries(f, b, o, count)
  {
    var entries, next, prev: Option<K> := [], o, None;
    for i := 0 to count
      invariant ReadEntries(f, b, o, i) == Ok(Read(entries, 0, next)) && prev == LastKey(entries)
    {
      var e := ReadOne(f, b, next, prev);
      if e.Err? {
        RefusalIsFinal(f, b, o, i + 1, count);
        return Err(e.error);
      }
      entries, next, prev := entries + [e.value.value], e.value.next, Some(e.value.value.0);
    }
    return Ok(Read(entries, 0, next));
  }

  lemma {:induction false} RefusalIsFinal<K, V>(f: EntryFormat<K, V>, b: Bytes, o: nat, i: nat, count: nat)
    requires i <= count && ReadEntries(f, b, o, i).Err?
    ensures ReadEntries(f, b, o, count) == ReadEntries(f, b, o, i)
  {
    if i < count {
      RefusalIsFinal(f, b, o, i, count - 1);
    }
  }

  function WriteEntries<K, V>(f: EntryFormat<K, V>, s: seq<(K, V)>): Bytes {
    if s == [] then [] else WriteEntries(f, s[..|s| - 1]) + f.write(s[|s| - 1].0, s[|s| - 1].1)
  }

  predicate Ascending<K, V>(f: EntryFormat<K, V>, s: seq<(K, V)>) {
    forall i, j :: 0 <= i < |s| && j == i + 1 && j < |s| ==> f.below(s[i].0, s[j].0)
  }

  ghost predicate Irreflexive<K(!new)>(below: (K, K) -> bool) {
    forall k :: !below(k, k)
  }

  /** Reading an entry undoes writing it. */
  ghost predicate Faithful<K(!new), V(!new)>(f: EntryFormat<K, V>) {
    && Irreflexive(f.below)
    && (forall b, o: nat, k, v {:trigger At(b, o, f.write(k, v))} :: At(b, o, f.write(k, v)) ==>
          && f.readKey(b, o).Ok? && f.readKey(b, o).value.value == k
          && f.readValue(b, f.readKey(b, o).value.next).Ok?
          && f.readValue(b, f.readKey(b, o).value.next).value.value == v
          && f.readValue(b, f.readKey(b, o).value.next).value.next == o + |f.write(k, v)|)
  }

  /** Whatever is read was written: no entry has a second form. */
  ghost predicate Strict<K(!new), V(!new)>(f: EntryFormat<K, V>) {
    forall b, o: nat {:trigger f.readKey(b, o)} ::
      f.readKey(b, o).Ok? && f.readValue(b, f.readKey(b, o).value.next).Ok? ==>
        var k, v := f.readKey(b, o).value, f.readValue(b, f.readKey(b, o).value.next).value;
        At(b, o, f.write(k.value, v.value)) && v.next == o + |f.write(k.value, v.value)|
  }

  lemma EntryReadsBack<K(!new), V(!new)>(f: EntryFormat<K, V>, b: Bytes, o: nat, prev: Option<K>, k: K, v: V)
    requires Faithful(f) && At(b, o, f.write(k, v)) && (prev.Some? ==> f.below(prev.value, k))
    ensures ReadOne(f, b, o, prev) == Ok(Read((k, v), 0, o + |f.write(k, v)|))
  {
    hide At;
    assert !f.below(k, k);
  }

  lemma EntryIsWritten<K(!new), V(!new)>(f: EntryFormat<K, V>, b: Bytes, o: nat, prev: Option<K>)
    requires ReadOne(f, b, o, prev).Ok?
    ensures var e := ReadOne(f, b, o, prev).value;
      && (prev.Some? ==> f.below(prev.value, e.value.0))
      && (Strict(f) ==> At(b, o, f.write(e.value.0, e.value.1)) && e.next == o + |f.write(e.value.0, e.value.1)|)
  {
    hide At;
  }

  lemma AscendingAppend<K, V>(f: EntryFormat<K, V>, s: seq<(K, V)>, e: (K, V))
    ensures Ascending(f, s + [e]) <==>
              Ascending(f, s) && (LastKey(s).Some? ==> f.below(LastKey(s).value, e.0))
  {
    var t := s + [e];
    if Ascending(f, t) {
      forall i, j | 0 <= i < |s| && j == i + 1 && j < |s|
        ensures f.below(s[i].0, s[j].0)
      {
        assert t[i] == s[i] && t[j] == s[j];
      }
      if s != [] {
        assert f.below(t[|s| - 1].0, t[|s|].0);
      }
    }
  }

  lemma WriteEntriesAppend<K, V>(f: EntryFormat<K, V>, s: seq<(K, V)>, e: (K, V))
    ensures WriteEntries(f, s + [e]) == WriteEntries(f, s) + f.write(e.0, e.1)
  {
    assert (s + [e])[..|s|] == s;
  }

  /** An ascending list of entries reads back where it was written. */
  lemma {:induction false} EntriesReadBack<K(!new), V(!new)>(
    f: EntryFormat<K, V>, b: Bytes, o: nat, s: seq<(K, V)>)
    requires Faithful(f) && Ascending(f, s) && At(b, o, WriteEntries(f, s))
    ensures ReadEntries(f, b, o, |s|) == Ok(Read(s, 0, o + |WriteEntries(f, s)|))
  {
    hide Faithful, Ascending, ReadOne, At;
    if s != [] {
      var n := |s| - 1;
      var init, e := s[..n], s[n];
      assert s == init + [e];
      AscendingAppend(f, init, e);
      AtParts(b, o, WriteEntries(f, init), f.write(e.0, e.1));
      EntriesReadBack(f, b, o, init);
      EntryReadsBack(f, b, o + |WriteEntries(f, init)|, LastKey(init), e.0, e.1);
    }
  }

  lemma NothingIsWritten<K, V>(f: EntryFormat<K, V>, b: Bytes, o: nat)
    ensures Ascending(f, []) && WriteEntries(f, []) == [] && (o <= |b| ==> At(b, o, []))
  {
  }

  /** Whatever list is read is ascending, and a strict format reads only what is written. */
  lemma {:induction false} EntriesAreWritten<K(!new), V(!new)>(f: EntryFormat<K, V>, b: Bytes, o: nat, count: nat)
    requires ReadEntries(f, b, o, count).Ok?
    ensures |ReadEntries(f, b, o, count).value.value| == count
    ensures Ascending(f, ReadEntries(f, b, o, count).value.value)
    ensures Strict(f) ==>
              var r := ReadEntries(f, b, o, count).value;
              o <= |b| ==> At(b, o, WriteEntries(f, r.value)) && r.next == o + |WriteEntries(f, r.value)|
  {
    hide Strict, Ascending, ReadOne, At, WriteEntries;
    if count == 0 {
      NothingIsWritten(f, b, o);
    } else {
      EntriesAreWritten(f, b, o, count - 1);
      var init := ReadEntries(f, b, o, count - 1).value;
      var e := ReadOne(f, b, init.next, LastKey(init.value)).value;
      EntryIsWritten(f, b, init.next, LastKey(init.value));
      AscendingAppend(f, init.value, e.value);
      WriteEntriesAppend(f, init.value, e.value);
      AtParts(b, o, WriteEntries(f, init.value), f.write(e.value.0, e.value.1));
    }
  }

  // The lexicographic order of byte strings.

  predicate Below(a: Bytes, b: Bytes) {
    if b == [] then false
    else if a == [] then true
    else a[0] < b[0] || (a[0] == b[0] && Below(a[1..], b[1..]))
  }

  lemma {:induction false} BelowIsIrreflexive(a: Bytes)
    ensures !Below(a, a)
  {
    if a != [] {
      BelowIsIrreflexive(a[1..]);
    }
  }

  lemma {:induction false} BelowIsTransitive(a: Bytes, b: Bytes, c: Bytes)
    requires Below(a, b) && Below(b, c)
    ensures Below(a, c)
  {
    if a != [] && a[0] == b[0] == c[0] {
      BelowIsTransitive(a[1..], b[1..], c[1..]);
    }
  }

  lemma {:induction false} BelowIsTotal(a: Bytes, b: Bytes)
    ensures a == b || Below(a, b) || Below(b, a)
  {
    if a != [] && b != [] {
      BelowIsTotal(a[1..], b[1..]);
      if a[0] == b[0] && a[1..] == b[1..] {
        assert a == [a[0]] + a[1..] && b == [b[0]] + b[1..];
      }
    }
  }

  // Ordered maps: each map has exactly one ascending list of entries.

  /** The order of 28-byte keys. */
  /** Where two strings first differ, the smaller byte decides; a proper prefix comes first. */
  ghost predicate FirstDifference(a: Bytes, b: Bytes, k: nat) {
    k <= |a| && k < |b| && a[..k] == b[..k] && (k < |a| ==> a[k] < b[k])
  }

  /** The order of the keys is the lexicographic one, ascending. */
  lemma {:induction false} BelowIsLexicographic(a: Bytes, b: Bytes)
    ensures Below(a, b) <==> exists k: nat :: FirstDifference(a, b, k)
  {
    if b == [] {
    } else if a == [] {
      assert FirstDifference(a, b, 0);
    } else {
      BelowIsLexicographic(a[1..], b[1..]);
      if a[0] < b[0] {
        assert FirstDifference(a, b, 0);
      } else if a[0] == b[0] {
        if k: nat :| FirstDifference(a[1..], b[1..], k) {
          assert a[..k + 1] == [a[0]] + a[1..][..k] && b[..k + 1] == [b[0]] + b[1..][..k];
          assert FirstDifference(a, b, k + 1);
        }
      }
      if k: nat :| FirstDifference(a, b, k) {
        LaterDifference(a, b, k);
      }
    }
  }

  lemma LaterDifference(a: Bytes, b: Bytes, k: nat)
    requires a != [] && b != [] && FirstDifference(a, b, k)
    ensures a[0] < b[0] || (a[0] == b[0] && k > 0 && FirstDifference(a[1..], b[1..], k - 1))
  {
    if k > 0 {
      assert a[0] == a[..k][0] == b[..k][0] == b[0];
      assert a[1..][..k - 1] == a[..k][1..] && b[1..][..k - 1] == b[..k][1..];
    }
  }

  predicate KeyBelow(a: Hash28, b: Hash28) {
    Below(a, b)
  }

  ghost predicate StrictOrder<K(!new)>(below: (K, K) -> bool) {
    && (forall k :: !below(k, k))
    && (forall a, b, c :: below(a, b) && below(b, c) ==> below(a, c))
    && (forall a, b :: a == b || below(a, b) || below(b, a))
  }

  lemma KeyBelowIsStrictOrder()
    ensures StrictOrder(KeyBelow)
  {
    forall k: Hash28
      ensures !KeyBelow(k, k)
    {
      BelowIsIrreflexive(k);
    }
    forall a: Hash28, b: Hash28
      ensures a == b || KeyBelow(a, b) || KeyBelow(b, a)
    {
      BelowIsTotal(a, b);
    }
    forall a: Hash28, b: Hash28, c: Hash28 | KeyBelow(a, b) && KeyBelow(b, c)
      ensures KeyBelow(a, c)
    {
      BelowIsTransitive(a, b, c);
    }
  }

  predicate SortedBy<K, V>(below: (K, K) -> bool, s: seq<(K, V)>) {
    forall i, j :: 0 <= i < |s| && j == i + 1 && j < |s| ==> below(s[i].0, s[j].0)
  }

  function ToMap<K(==), V>(s: seq<(K, V)>): map<K, V> {
    if s == [] then map[] else ToMap(s[..|s| - 1])[s[|s| - 1].0 := s[|s| - 1].1]
  }

  ghost predicate IsGreatest<K>(below: (K, K) -> bool, keys: set<K>, k: K) {
    k in keys && forall j :: j in keys && j != k ==> below(j, k)
  }

  lemma {:induction false} GreatestExists<K(!new)>(below: (K, K) -> bool, keys: set<K>)
    requires StrictOrder(below) && keys != {}
    ensures exists k :: IsGreatest(below, keys, k)
    decreases |keys|
  {
    var x :| x in keys;
    var rest := keys - {x};
    if rest == {} {
      assert keys == {x};
      assert IsGreatest(below, keys, x);
    } else {
      GreatestExists(below, rest);
      var m :| IsGreatest(below, rest, m);
      assert IsGreatest(below, keys, if below(m, x) then x else m);
    }
  }

  ghost function Greatest<K(!new)>(below: (K, K) -> bool, keys: set<K>): (k: K)
    requires StrictOrder(below) && keys != {}
    ensures IsGreatest(below, keys, k)
  {
    GreatestExists(below, keys);
    var k :| IsGreatest(below, keys, k);
    k
  }

  /** The entries of a map in ascending order. */
  ghost function SortedList<K(!new), V>(below: (K, K) -> bool, m: map<K, V>): seq<(K, V)>
    requires StrictOrder(below)
    decreases |m|
  {
    if m == map[] then
      []
    else
      var k := Greatest(below, m.Keys);
      assert (m - {k}).Keys == m.Keys - {k};
      SortedList(below, m - {k}) + [(k, m[k])]
  }

  lemma SortedAppend<K, V>(below: (K, K) -> bool, s: seq<(K, V)>, e: (K, V))
    requires SortedBy(below, s) && (s != [] ==> below(s[|s| - 1].0, e.0))
    ensures SortedBy(below, s + [e])
  {
  }

  lemma ToMapAppend<K, V>(s: seq<(K, V)>, e: (K, V))
    ensures ToMap(s + [e]) == ToMap(s)[e.0 := e.1]
  {
    assert (s + [e])[..|s|] == s;
  }

  lemma {:induction false} SortedListIsSorted<K(!new), V>(below: (K, K) -> bool, m: map<K, V>)
    requires StrictOrder(below)
    ensures SortedBy(below, SortedList(below, m))
    ensures ToMap(SortedList(below, m)) == m && |SortedList(below, m)| == |m|
    decreases |m|
  {
    hide StrictOrder, SortedBy, ToMap;
    if m == map[] {
      NothingSorted<K, V>(below);
    } else {
      var k := Greatest(below, m.Keys);
      assert (m - {k}).Keys == m.Keys - {k};
      SortedListIsSorted(below, m - {k});
      var init := SortedList(below, m - {k});
      if init != [] {
        LastIsInMap(init);
      }
      SortedAppend(below, init, (k, m[k]));
      ToMapAppend(init, (k, m[k]));
      assert (m - {k})[k := m[k]] == m;
    }
  }

  lemma NothingSorted<K, V>(below: (K, K) -> bool)
    ensures SortedBy<K, V>(below, []) && ToMap<K, V>([]) == map[]
  {
  }

  lemma LastIsInMap<K, V>(s: seq<(K, V)>)
    requires s != []
    ensures s[|s| - 1].0 in ToMap(s)
  {
  }

  lemma Chain<K(!new)>(below: (K, K) -> bool, a: K, b: K, c: K)
    requires StrictOrder(below) && below(a, b) && below(b, c)
    ensures below(a, c) && a != c
  {
  }

  lemma {:induction false} BelowLast<K(!new), V>(below: (K, K) -> bool, s: seq<(K, V)>, j: K)
    requires StrictOrder(below) && SortedBy(below, s) && s != [] && j in ToMap(s[..|s| - 1])
    ensures below(j, s[|s| - 1].0)
  {
    hide StrictOrder;
    var n := |s| - 1;
    var init := s[..n];
    assert n > 0 && below(s[n - 1].0, s[n].0);
    if j != s[n - 1].0 {
      BelowLast(below, init, j);
      Chain(below, j, s[n - 1].0, s[n].0);
    }
  }

  lemma LastIsGreatest<K(!new), V>(below: (K, K) -> bool, s: seq<(K, V)>)
    requires StrictOrder(below) && SortedBy(below, s) && s != []
    ensures IsGreatest(below, ToMap(s).Keys, s[|s| - 1].0)
    ensures s[|s| - 1].0 !in ToMap(s[..|s| - 1])
  {
    hide SortedBy;
    var k := s[|s| - 1].0;
    forall j | j in ToMap(s[..|s| - 1])
      ensures below(j, k)
    {
      BelowLast(below, s, j);
    }
    assert !below(k, k);
  }

  /** An ascending list is the ascending list of its map: there is no other. */
  lemma {:induction false} SortedListIsUnique<K(!new), V>(below: (K, K) -> bool, s: seq<(K, V)>)
    requires StrictOrder(below) && SortedBy(below, s)
    ensures SortedList(below, ToMap(s)) == s
  {
    hide StrictOrder, IsGreatest;
    if s != [] {
      var n := |s| - 1;
      var m, k := ToMap(s), s[n].0;
      LastIsGreatest(below, s);
      SortedListIsUnique(below, s[..n]);
      GreatestIsUnique(below, m.Keys, k, Greatest(below, m.Keys));
      assert m - {k} == ToMap(s[..n]);
      assert s == s[..n] + [s[n]];
    }
  }

  lemma GreatestIsUnique<K(!new)>(below: (K, K) -> bool, keys: set<K>, a: K, b: K)
    requires StrictOrder(below) && IsGreatest(below, keys, a) && IsGreatest(below, keys, b)
    ensures a == b
  {
    if a != b {
      Chain(below, a, b, a);
    }
  }
}
