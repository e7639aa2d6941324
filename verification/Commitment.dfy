/**
 The incremental UTxO set commitment (crates/ade_crypto/src/utxo_set_commitment.rs).
 The group is modelled by the integers modulo its prime order (section 4.4 of RFC 9496),
 and the map from entries to group elements is a parameter.
 */
module Commitment {
  import opened LedgerTypes

  /** The residues modulo the group order, 2^252 + 27742317777372353535851937790883648493. */
  predicate IsResidue(x: int) {
    0 <= x < 0x1000000000000000000000000000000014def9dea2f79cd65812631a5cf5d3ed
  }

  type Element = x: int | IsResidue(x) witness 0

  type EntryPoint = seq<Byte> -> Element

  function Reduce(x: int): Element {
    x % 0x1000000000000000000000000000000014def9dea2f79cd65812631a5cf5d3ed
  }

  /** The commitment, updated in place. */
  class UtxoSetCommitment {
    var point: Element
    const entry: EntryPoint

    constructor (entry: EntryPoint)
      ensures this.entry == entry && point == Run(entry, [])
    {
      this.entry := entry;
      point := 0;
    }

    method Add(e: seq<Byte>)
      modifies this
      ensures point == After(entry, old(point), Op.Add(e))
    {
      point := Reduce(point + entry(e));
    }

    method Remove(e: seq<Byte>)
      modifies this
      ensures point == After(entry, old(point), Op.Remove(e))
    {
      point := Reduce(point - entry(e));
    }

    /** A block's worth of updates. */
    method Update(ops: seq<Op>)
      modifies this
      ensures point == Reduce(old(point) + Run(entry, ops))
    {
      ghost var start := point;
      for n := 0 to |ops|
        invariant point == Reduce(start + Run(entry, ops[..n]))
      {
        assert ops[..n + 1][..n] == ops[..n];
        ShiftCommutes(entry, start, Run(entry, ops[..n]), ops[n]);
        match ops[n]
        case Add(e) => Add(e);
        case Remove(e) => Remove(e);
      }
      assert ops[..|ops|] == ops;
    }
  }

  datatype Op = Add(e: seq<Byte>) | Remove(e: seq<Byte>)

  function After(entry: EntryPoint, point: Element, op: Op): Element {
    match op
    case Add(e) => Reduce(point + entry(e))
    case Remove(e) => Reduce(point - entry(e))
  }

  function Run(entry: EntryPoint, ops: seq<Op>): Element {
    if ops == [] then 0 else After(entry, Run(entry, ops[..|ops| - 1]), ops[|ops| - 1])
  }

  lemma ReduceTwice(a: int, b: int)
    ensures Reduce(Reduce(a) + b) == Reduce(a + b)
  {
  }

  lemma ShiftCommutes(entry: EntryPoint, start: Element, point: Element, op: Op)
    ensures After(entry, Reduce(start + point), op) == Reduce(start + After(entry, point, op))
  {
    hide Reduce, IsResidue;
    var step: int := if op.Add? then entry(op.e) else 0 - entry(op.e);
    ReduceTwice(start + point, step);
    ReduceTwice(point + step, start);
  }

  /** What a sequence of updates adds up to, over the integers. */
  function NetEffect(entry: EntryPoint, ops: seq<Op>): int {
    if ops == [] then
      0
    else
      NetEffect(entry, ops[..|ops| - 1])
      + match ops[|ops| - 1] { case Add(e) => entry(e) case Remove(e) => 0 - entry(e) }
  }

  /** The element is that number modulo the group order, and nothing coarser. */
  lemma RunIsNetEffect(entry: EntryPoint, ops: seq<Op>)
    ensures Run(entry, ops)
         == NetEffect(entry, ops) % 0x1000000000000000000000000000000014def9dea2f79cd65812631a5cf5d3ed
  {
    hide IsResidue, Reduce;
    RunReduces(entry, ops);
    ReduceIs(NetEffect(entry, ops));
  }

  lemma {:induction false} RunReduces(entry: EntryPoint, ops: seq<Op>)
    ensures Run(entry, ops) == Reduce(NetEffect(entry, ops))
  {
    hide IsResidue, Reduce;
    if ops == [] {
      ReduceZero();
    } else {
      var n := |ops| - 1;
      RunReduces(entry, ops[..n]);
      var net := NetEffect(entry, ops[..n]);
      ReduceTwice(net, NetEffect(entry, ops) - net);
    }
  }

  lemma ReduceIs(x: int)
    ensures Reduce(x) == x % 0x1000000000000000000000000000000014def9dea2f79cd65812631a5cf5d3ed
  {
  }

  lemma ReduceZero()
    ensures Reduce(0) == 0
  {
  }

  // The multiset of live entries.

  function LiveAfter(m: multiset<seq<Byte>>, op: Op): Option<multiset<seq<Byte>>> {
    match op
    case Add(e) => Some(m + multiset{e})
    case Remove(e) => if e in m then Some(m - multiset{e}) else None
  }

  /** `None` as soon as an entry is removed that is not live. */
  function Live(ops: seq<Op>): Option<multiset<seq<Byte>>> {
    if ops == [] then
      Some(multiset{})
    else
      match Live(ops[..|ops| - 1])
      case None => None
      case Some(m) => LiveAfter(m, ops[|ops| - 1])
  }

  ghost function Pick<E>(m: multiset<E>): (e: E)
    requires m != multiset{}
    ensures e in m
  {
    var e :| e in m;
    e
  }

  function Without<E>(m: multiset<E>, e: E): multiset<E> {
    m - multiset{e}
  }

  /** The commitment recomputed from a multiset, in an order nothing is known about. */
  ghost function Recomputed<E>(entry: E -> Element, m: multiset<E>): Element
    decreases |m|
  {
    if m == multiset{} then
      0
    else
      var e := Pick(m);
      Reduce(Recomputed(entry, Without(m, e)) + entry(e))
  }

  lemma Exchange(a: Element, x: Element, y: Element)
    ensures Reduce(Reduce(a + x) + y) == Reduce(Reduce(a + y) + x)
  {
    hide Reduce, IsResidue;
    ReduceTwice(a + x, y);
    ReduceTwice(a + y, x);
  }

  lemma WithoutBoth<E>(m: multiset<E>, e: E, f: E)
    requires e in m && f in m && e != f
    ensures Without(Without(m, e), f) == Without(Without(m, f), e)
    ensures f in Without(m, e) && e in Without(m, f)
    ensures |Without(m, e)| < |m| && |Without(m, f)| < |m|
  {
  }

  /** Whichever entry is taken off last, the result is the same. */
  lemma {:induction false} AnyEntryLast<E>(entry: E -> Element, m: multiset<E>, e: E)
    requires e in m
    ensures Recomputed(entry, m) == Reduce(Recomputed(entry, Without(m, e)) + entry(e))
    decreases |m|
  {
    hide Reduce, IsResidue, Without;
    var f := Pick(m);
    if e != f {
      WithoutBoth(m, e, f);
      AnyEntryLast(entry, Without(m, f), e);
      AnyEntryLast(entry, Without(m, e), f);
      Exchange(Recomputed(entry, Without(Without(m, e), f)), entry(e), entry(f));
    }
  }

  lemma AddThenTake(point: Element, x: Element)
    ensures Reduce(Reduce(point + x) - x) == point
  {
    assert IsResidue(point) && IsResidue(x);
  }

  /** The two updates, on the recomputed side. */
  lemma RecomputedAfterAdd<E>(entry: E -> Element, m: multiset<E>, e: E)
    ensures Recomputed(entry, m + multiset{e}) == Reduce(Recomputed(entry, m) + entry(e))
  {
    hide Reduce, IsResidue, Recomputed;
    AnyEntryLast(entry, m + multiset{e}, e);
    assert Without(m + multiset{e}, e) == m;
  }

  lemma RecomputedAfterRemove<E>(entry: E -> Element, m: multiset<E>, e: E)
    requires e in m
    ensures Recomputed(entry, m - multiset{e}) == Reduce(Recomputed(entry, m) - entry(e))
  {
    hide Reduce, IsResidue, Recomputed;
    AnyEntryLast(entry, m, e);
    AddThenTake(Recomputed(entry, Without(m, e)), entry(e));
  }

  lemma UpdateAgrees(entry: EntryPoint, m: multiset<seq<Byte>>, op: Op)
    requires LiveAfter(m, op).Some?
    ensures Recomputed(entry, LiveAfter(m, op).value) == After(entry, Recomputed(entry, m), op)
  {
    hide Reduce, IsResidue, Recomputed;
    match op
    case Add(e) => RecomputedAfterAdd(entry, m, e);
    case Remove(e) => RecomputedAfterRemove(entry, m, e);
  }

  /**
   For every sequence of adds and removes in which each remove hits a live entry, the
   incremental commitment is the one recomputed from the final multiset, in any order.
   */
  lemma {:induction false} IncrementalIsRecomputed(entry: EntryPoint, ops: seq<Op>)
    requires Live(ops).Some?
    ensures Run(entry, ops) == Recomputed(entry, Live(ops).value)
  {
    hide IsResidue, Recomputed, LiveAfter, After;
    if ops == [] {
      NothingRecomputed(entry);
    } else {
      var n := |ops| - 1;
      IncrementalIsRecomputed(entry, ops[..n]);
      UpdateAgrees(entry, Live(ops[..n]).value, ops[n]);
    }
  }

  lemma NothingRecomputed<E>(entry: E -> Element)
    ensures Recomputed(entry, multiset{}) == 0
  {
  }

  /** Two histories that leave the same live entries commit to the same element. */
  lemma HistoriesDoNotMatter(entry: EntryPoint, xs: seq<Op>, ys: seq<Op>)
    requires Live(xs).Some? && Live(xs) == Live(ys)
    ensures Run(entry, xs) == Run(entry, ys)
  {
    IncrementalIsRecomputed(entry, xs);
    IncrementalIsRecomputed(entry, ys);
  }
}
