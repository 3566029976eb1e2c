/**
  Which bins a partial close drains (buildPartialCloseTx, src/meteoraClient.ts:371-439): the bins of each side,
  nearest to the active bin first, are taken until the need is met, and each side is sent to the pool as one range of
  bin ids.
 */
module PartialClose {
  import opened Prelude

  /** A bin of the position with the amounts of token X and token Y it holds. */
  datatype Bin = Bin(id: int, x: nat, y: nat)

  datatype Token = Sol | Bert

  datatype SideRange = SideRange(token: Token, fromBinId: int, toBinId: int)

  function Amount(b: Bin, useX: bool): nat {
    if useX then b.x else b.y
  }

  function Total(bins: seq<Bin>, useX: bool): nat {
    if bins == [] then 0 else Total(bins[..|bins| - 1], useX) + Amount(bins[|bins| - 1], useX)
  }

  // ----- classification and order

  predicate OnSide(id: int, active: int, below: bool) {
    if below then id < active else id > active
  }

  function Side(bins: seq<Bin>, active: int, below: bool): seq<Bin> {
    if bins == [] then []
    else if OnSide(bins[0].id, active, below) then [bins[0]] + Side(bins[1..], active, below)
    else Side(bins[1..], active, below)
  }

  lemma {:induction false} SideMembers(bins: seq<Bin>, active: int, below: bool)
    ensures forall b :: b in Side(bins, active, below) <==> b in bins && OnSide(b.id, active, below)
  {
    if bins != [] {
      SideMembers(bins[1..], active, below);
      assert bins == [bins[0]] + bins[1..];
    }
  }

  /** At least as near to the active bin, among bins of one side. */
  predicate Nearer(a: int, b: int, below: bool) {
    if below then a >= b else a <= b
  }

  predicate NearestFirst(bins: seq<Bin>, below: bool) {
    forall i, j :: 0 <= i < j < |bins| ==> Nearer(bins[i].id, bins[j].id, below)
  }

  function Insert(b: Bin, bins: seq<Bin>, below: bool): seq<Bin> {
    if bins == [] || Nearer(b.id, bins[0].id, below) then [b] + bins
    else [bins[0]] + Insert(b, bins[1..], below)
  }

  /** The stable sort of Array.prototype.sort by distance from the active bin. */
  function Sorted(bins: seq<Bin>, below: bool): seq<Bin> {
    if bins == [] then [] else Insert(bins[0], Sorted(bins[1..], below), below)
  }

  lemma {:induction false} InsertMembers(b: Bin, bins: seq<Bin>, below: bool)
    ensures multiset(Insert(b, bins, below)) == multiset{b} + multiset(bins)
  {
    if bins != [] && !Nearer(b.id, bins[0].id, below) {
      InsertMembers(b, bins[1..], below);
      assert bins == [bins[0]] + bins[1..];
    }
  }

  /** b or one of the bins. */
  lemma {:induction false} InsertAt(b: Bin, bins: seq<Bin>, below: bool, k: nat)
    requires k < |Insert(b, bins, below)|
    ensures Insert(b, bins, below)[k] == b || Insert(b, bins, below)[k] in bins
  {
    if bins != [] && !Nearer(b.id, bins[0].id, below) && k > 0 {
      InsertAt(b, bins[1..], below, k - 1);
    }
  }

  lemma {:induction false} HeadFirst(b: Bin, bins: seq<Bin>, below: bool)
    requires NearestFirst(bins, below) && forall k :: 0 <= k < |bins| ==> Nearer(b.id, bins[k].id, below)
    ensures NearestFirst([b] + bins, below)
  {
  }

  lemma {:induction false} InsertOrdered(b: Bin, bins: seq<Bin>, below: bool)
    requires NearestFirst(bins, below)
    ensures NearestFirst(Insert(b, bins, below), below)
  {
    if bins != [] && !Nearer(b.id, bins[0].id, below) {
      var tail := bins[1..];
      var rest := Insert(b, tail, below);
      InsertOrdered(b, tail, below);
      forall k | 0 <= k < |rest| ensures Nearer(bins[0].id, rest[k].id, below) {
        InsertAt(b, tail, below, k);
        if rest[k] != b {
          var j :| 0 <= j < |tail| && tail[j] == rest[k];
          assert bins[j + 1] == rest[k];
        }
      }
      HeadFirst(bins[0], rest, below);
    } else {
      forall k | 0 <= k < |bins| ensures Nearer(b.id, bins[k].id, below) {
        assert k > 0 ==> Nearer(bins[0].id, bins[k].id, below);
      }
      HeadFirst(b, bins, below);
    }
  }

  lemma {:induction false} SortedOrdered(bins: seq<Bin>, below: bool)
    ensures NearestFirst(Sorted(bins, below), below)
    ensures multiset(Sorted(bins, below)) == multiset(bins)
  {
    if bins != [] {
      SortedOrdered(bins[1..], below);
      InsertOrdered(bins[0], Sorted(bins[1..], below), below);
      InsertMembers(bins[0], Sorted(bins[1..], below), below);
      assert bins == [bins[0]] + bins[1..];
    }
  }

  lemma {:induction false} SortedMembers(bins: seq<Bin>, below: bool)
    ensures forall b :: b in Sorted(bins, below) <==> b in bins
  {
    SortedOrdered(bins, below);
    forall b ensures b in Sorted(bins, below) <==> b in bins {
      assert b in Sorted(bins, below) <==> b in multiset(Sorted(bins, below));
      assert b in bins <==> b in multiset(bins);
    }
  }

  // ----- the greedy choice

  /** How many of the bins, in order, the loop takes after `collected` has been gathered from the first k. */
  function TakeFrom(bins: seq<Bin>, useX: bool, need: int, k: nat): (n: nat)
    requires k <= |bins|
    ensures k <= n <= |bins|
    decreases |bins| - k
  {
    if k < |bins| && Total(bins[..k], useX) < need then TakeFrom(bins, useX, need, k + 1) else k
  }

  function Chosen(bins: seq<Bin>, active: int, below: bool, useX: bool, need: int): seq<Bin> {
    var side := Sorted(Side(bins, active, below), below);
    side[..TakeFrom(side, useX, need, 0)]
  }

  lemma {:induction false} TakeIsMinimal(bins: seq<Bin>, useX: bool, need: int, k: nat)
    requires k <= |bins| && (k > 0 ==> Total(bins[..k - 1], useX) < need)
    ensures var n := TakeFrom(bins, useX, need, k);
            && (n < |bins| ==> Total(bins[..n], useX) >= need)
            && (n > 0 ==> Total(bins[..n - 1], useX) < need)
    decreases |bins| - k
  {
    if k < |bins| && Total(bins[..k], useX) < need {
      TakeIsMinimal(bins, useX, need, k + 1);
    }
  }

  /** The loop stops at the first prefix that covers the need. */
  lemma {:induction false} PrefixCovers(side: seq<Bin>, useX: bool, need: int)
    ensures var c := side[..TakeFrom(side, useX, need, 0)];
            && (Total(c, useX) >= need || c == side)
            && (c != [] ==> Total(c[..|c| - 1], useX) < need)
  {
    var n := TakeFrom(side, useX, need, 0);
    TakeIsMinimal(side, useX, need, 0);
    assert n == |side| ==> side[..n] == side;
    assert n > 0 ==> side[..n][..n - 1] == side[..n - 1];
  }

  /** The chosen bins cover the need and would not without the farthest of them, or they are the whole side. */
  lemma {:induction false} ChosenCovers(bins: seq<Bin>, active: int, below: bool, useX: bool, need: int)
    ensures var c := Chosen(bins, active, below, useX, need);
            && NearestFirst(c, below)
            && (Total(c, useX) >= need || multiset(c) == multiset(Side(bins, active, below)))
            && (c != [] ==> Total(c[..|c| - 1], useX) < need)
            && (forall b :: b in c ==> b in bins && OnSide(b.id, active, below))
  {
    hide Sorted, Side, TakeFrom, Total, Nearer;
    SideMembers(bins, active, below);
    var s := Side(bins, active, below);
    var side := Sorted(s, below);
    SortedOrdered(s, below);
    SortedMembers(s, below);
    PrefixCovers(side, useX, need);
  }

  /** Nothing is chosen exactly when nothing is needed or the side is empty. */
  lemma {:induction false} ChosenEmpty(bins: seq<Bin>, active: int, below: bool, useX: bool, need: int)
    ensures Chosen(bins, active, below, useX, need) == [] <==>
              need <= 0 || forall b :: b in bins ==> !OnSide(b.id, active, below)
  {
    SideMembers(bins, active, below);
    var s := Side(bins, active, below);
    var side := Sorted(s, below);
    SortedMembers(s, below);
    assert side[..0] == [];
    if side != [] {
      assert side[0] in s;
      assert side[0] in bins && OnSide(side[0].id, active, below);
      if need > 0 {
        assert TakeFrom(side, useX, need, 0) >= 1;
      }
    } else {
      forall b | b in bins ensures !OnSide(b.id, active, below) {
        assert b !in side;
      }
    }
  }

  // ----- the range

  function MinId(bins: seq<Bin>): int
    requires bins != []
  {
    if |bins| == 1 then bins[0].id
    else var m := MinId(bins[..|bins| - 1]); if bins[|bins| - 1].id < m then bins[|bins| - 1].id else m
  }

  function MaxId(bins: seq<Bin>): int
    requires bins != []
  {
    if |bins| == 1 then bins[0].id
    else var m := MaxId(bins[..|bins| - 1]); if bins[|bins| - 1].id > m then bins[|bins| - 1].id else m
  }

  /** Of bins in order, the extremes are the first and the last. */
  lemma {:induction false} Extremes(bins: seq<Bin>, below: bool)
    requires bins != [] && NearestFirst(bins, below)
    ensures MinId(bins) == if below then bins[|bins| - 1].id else bins[0].id
    ensures MaxId(bins) == if below then bins[0].id else bins[|bins| - 1].id
  {
    var n := |bins| - 1;
    if n > 0 {
      Extremes(bins[..n], below);
      assert Nearer(bins[0].id, bins[n].id, below) && Nearer(bins[n - 1].id, bins[n].id, below);
    }
  }

  predicate HasId(bins: seq<Bin>, id: int) {
    exists i :: 0 <= i < |bins| && bins[i].id == id
  }

  /**
    The range sent to the pool lies strictly on its side of the active bin, and the position's bins in it are exactly
    those chosen.
   */
  lemma {:induction false} RangeIsChosen(bins: seq<Bin>, active: int, below: bool, useX: bool, need: int)
    requires Chosen(bins, active, below, useX, need) != []
    ensures var c := Chosen(bins, active, below, useX, need);
            && (if below then MaxId(c) < active else active < MinId(c))
            && MinId(c) <= MaxId(c)
            && forall b :: b in bins ==> (MinId(c) <= b.id <= MaxId(c) <==> HasId(c, b.id))
  {
    SideMembers(bins, active, below);
    var c := Chosen(bins, active, below, useX, need);
    var side := Sorted(Side(bins, active, below), below);
    ChosenCovers(bins, active, below, useX, need);
    SortedOrdered(Side(bins, active, below), below);
    SortedMembers(Side(bins, active, below), below);
    Extremes(c, below);
    assert c[0] in c && c[|c| - 1] in c;
    assert |c| > 1 ==> Nearer(c[0].id, c[|c| - 1].id, below);
    forall b | b in bins ensures MinId(c) <= b.id <= MaxId(c) <==> HasId(c, b.id) {
      if MinId(c) <= b.id <= MaxId(c) {
        assert OnSide(b.id, active, below);
        InRangeIsTaken(side, |c|, b, below);
      }
      if HasId(c, b.id) {
        var i :| 0 <= i < |c| && c[i].id == b.id;
        assert i > 0 ==> Nearer(c[0].id, c[i].id, below);
        assert i < |c| - 1 ==> Nearer(c[i].id, c[|c| - 1].id, below);
      }
    }
  }

  lemma {:induction false} InRangeIsTaken(side: seq<Bin>, n: nat, b: Bin, below: bool)
    requires NearestFirst(side, below) && b in side && 0 < n <= |side|
    requires Nearer(b.id, side[n - 1].id, below)
    ensures HasId(side[..n], b.id)
  {
  }

  // ----- what the range drains

  ghost predicate DistinctIds(bins: seq<Bin>) {
    forall i, j :: 0 <= i < j < |bins| ==> bins[i].id != bins[j].id
  }

  /** What removing all liquidity in the range takes out of the position. */
  function Drained(bins: seq<Bin>, useX: bool, lo: int, hi: int): nat {
    if bins == [] then 0
    else (if lo <= bins[0].id <= hi then Amount(bins[0], useX) else 0) + Drained(bins[1..], useX, lo, hi)
  }

  lemma {:induction false} InsertDrains(b: Bin, bins: seq<Bin>, below: bool, useX: bool, lo: int, hi: int)
    ensures Drained(Insert(b, bins, below), useX, lo, hi) == Drained([b], useX, lo, hi) + Drained(bins, useX, lo, hi)
  {
    if bins != [] && !Nearer(b.id, bins[0].id, below) {
      InsertDrains(b, bins[1..], below, useX, lo, hi);
      assert Insert(b, bins, below)[1..] == Insert(b, bins[1..], below);
    } else {
      assert ([b] + bins)[1..] == bins;
    }
  }

  lemma {:induction false} SortedDrains(bins: seq<Bin>, below: bool, useX: bool, lo: int, hi: int)
    ensures Drained(Sorted(bins, below), useX, lo, hi) == Drained(bins, useX, lo, hi)
  {
    if bins != [] {
      SortedDrains(bins[1..], below, useX, lo, hi);
      InsertDrains(bins[0], Sorted(bins[1..], below), below, useX, lo, hi);
    }
  }

  lemma {:induction false} DrainedBySide(bins: seq<Bin>, active: int, below: bool, useX: bool, lo: int, hi: int)
    requires if below then hi < active else active < lo
    ensures Drained(Sorted(Side(bins, active, below), below), useX, lo, hi) == Drained(bins, useX, lo, hi)
  {
    SortedDrains(Side(bins, active, below), below, useX, lo, hi);
    SideHolds(bins, active, below, useX, lo, hi);
  }

  lemma {:induction false} SideHolds(bins: seq<Bin>, active: int, below: bool, useX: bool, lo: int, hi: int)
    requires if below then hi < active else active < lo
    ensures Drained(Side(bins, active, below), useX, lo, hi) == Drained(bins, useX, lo, hi)
  {
    if bins != [] {
      SideHolds(bins[1..], active, below, useX, lo, hi);
      if OnSide(bins[0].id, active, below) {
        assert Side(bins, active, below)[1..] == Side(bins[1..], active, below);
      }
    }
  }

  lemma {:induction false} DrainedAppend(a: seq<Bin>, b: seq<Bin>, useX: bool, lo: int, hi: int)
    ensures Drained(a + b, useX, lo, hi) == Drained(a, useX, lo, hi) + Drained(b, useX, lo, hi)
  {
    if a == [] {
      assert a + b == b;
    } else {
      assert (a + b)[1..] == a[1..] + b;
      DrainedAppend(a[1..], b, useX, lo, hi);
    }
  }

  lemma {:induction false} DrainsAll(bins: seq<Bin>, useX: bool, lo: int, hi: int)
    requires forall i :: 0 <= i < |bins| ==> lo <= bins[i].id <= hi
    ensures Drained(bins, useX, lo, hi) == Total(bins, useX)
  {
    if bins != [] {
      var n := |bins| - 1;
      DrainsAll(bins[..n], useX, lo, hi);
      DrainedAppend(bins[..n], [bins[n]], useX, lo, hi);
      assert bins == bins[..n] + [bins[n]];
    }
  }

  lemma {:induction false} DrainsNone(bins: seq<Bin>, useX: bool, lo: int, hi: int)
    requires forall i :: 0 <= i < |bins| ==> !(lo <= bins[i].id <= hi)
    ensures Drained(bins, useX, lo, hi) == 0
  {
    if bins != [] {
      DrainsNone(bins[1..], useX, lo, hi);
    }
  }

  lemma {:induction false} SideDistinct(bins: seq<Bin>, active: int, below: bool)
    requires DistinctIds(bins)
    ensures DistinctIds(Side(bins, active, below))
  {
    if bins != [] {
      SideDistinct(bins[1..], active, below);
      SideMembers(bins[1..], active, below);
      var rest := Side(bins[1..], active, below);
      forall k | 0 <= k < |rest| ensures rest[k].id != bins[0].id {
        assert rest[k] in rest;
        assert rest[k] in bins[1..];
        var j :| 0 <= j < |bins[1..]| && bins[1..][j] == rest[k];
        assert bins[j + 1] == rest[k];
      }
    }
  }

  lemma {:induction false} SortedDistinct(bins: seq<Bin>, below: bool)
    requires DistinctIds(bins)
    ensures DistinctIds(Sorted(bins, below))
  {
    if bins != [] {
      SortedDistinct(bins[1..], below);
      SortedMembers(bins[1..], below);
      var rest := Sorted(bins[1..], below);
      forall k | 0 <= k < |rest| ensures rest[k].id != bins[0].id {
        assert rest[k] in bins[1..];
        var j :| 0 <= j < |bins[1..]| && bins[1..][j] == rest[k];
        assert bins[j + 1] == rest[k];
      }
      InsertDistinct(bins[0], rest, below);
    }
  }

  lemma {:induction false} InsertDistinct(b: Bin, bins: seq<Bin>, below: bool)
    requires DistinctIds(bins) && forall k :: 0 <= k < |bins| ==> bins[k].id != b.id
    ensures DistinctIds(Insert(b, bins, below))
    ensures forall x :: x in Insert(b, bins, below) ==> x == b || x in bins
  {
    if bins != [] && !Nearer(b.id, bins[0].id, below) {
      InsertDistinct(b, bins[1..], below);
      var rest := Insert(b, bins[1..], below);
      forall k | 0 <= k < |rest| ensures rest[k].id != bins[0].id {
        assert rest[k] in rest;
        if rest[k] != b {
          var j :| 0 <= j < |bins[1..]| && bins[1..][j] == rest[k];
          assert bins[j + 1] == rest[k];
        }
      }
    }
  }

  lemma {:induction false} PrefixDrains(side: seq<Bin>, n: nat, useX: bool, lo: int, hi: int)
    requires DistinctIds(side) && n <= |side|
    requires forall i :: 0 <= i < |side| ==> (lo <= side[i].id <= hi <==> HasId(side[..n], side[i].id))
    ensures Drained(side, useX, lo, hi) == Total(side[..n], useX)
  {
    var c, rest := side[..n], side[n..];
    assert side == c + rest;
    DrainedAppend(c, rest, useX, lo, hi);
    forall i | 0 <= i < n ensures lo <= c[i].id <= hi {
      assert c[i] == side[i];
      assert HasId(c, side[i].id);
    }
    DrainsAll(c, useX, lo, hi);
    forall i | 0 <= i < |rest| ensures !(lo <= rest[i].id <= hi) {
      assert rest[i] == side[n + i];
      assert !HasId(c, side[n + i].id);
    }
    DrainsNone(rest, useX, lo, hi);
  }

  /** Removing everything in the range takes out exactly what the loop collected. */
  lemma {:induction false} RangeDrainsCollected(bins: seq<Bin>, active: int, below: bool, useX: bool, need: int)
    requires DistinctIds(bins) && Chosen(bins, active, below, useX, need) != []
    ensures var c := Chosen(bins, active, below, useX, need);
            Drained(bins, useX, MinId(c), MaxId(c)) == Total(c, useX)
  {
    hide Sorted, Side, TakeFrom, Total, Nearer, Drained, MinId, MaxId, HasId, DistinctIds, NearestFirst;
    SideMembers(bins, active, below);
    var c := Chosen(bins, active, below, useX, need);
    var s := Side(bins, active, below);
    var side := Sorted(s, below);
    var lo, hi := MinId(c), MaxId(c);
    RangeIsChosen(bins, active, below, useX, need);
    DrainedBySide(bins, active, below, useX, lo, hi);
    SideDistinct(bins, active, below);
    SortedDistinct(s, below);
    SortedMembers(s, below);
    forall i | 0 <= i < |side| ensures lo <= side[i].id <= hi <==> HasId(c, side[i].id) {
      assert side[i] in side;
      assert side[i] in bins;
    }
    PrefixDrains(side, |c|, useX, lo, hi);
  }

  // ----- the whole plan

  function RangeOf(token: Token, chosen: seq<Bin>): seq<SideRange> {
    if chosen == [] then [] else [SideRange(token, MinId(chosen), MaxId(chosen))]
  }

  /** The ranges to remove, SOL side first; None when no bin is selected and the source throws. */
  function Plan(bins: seq<Bin>, active: int, bertIsX: bool, needSol: int, needBert: int): Option<seq<SideRange>> {
    var sol := Chosen(bins, active, bertIsX, !bertIsX, needSol);
    var bert := Chosen(bins, active, !bertIsX, bertIsX, needBert);
    if sol == [] && bert == [] then None else Some(RangeOf(Sol, sol) + RangeOf(Bert, bert))
  }

  /** It throws exactly when every side is either not needed or empty. */
  lemma {:induction false} PlanFails(bins: seq<Bin>, active: int, bertIsX: bool, needSol: int, needBert: int)
    ensures Plan(bins, active, bertIsX, needSol, needBert).None? <==>
              && (needSol <= 0 || forall b :: b in bins ==> !OnSide(b.id, active, bertIsX))
              && (needBert <= 0 || forall b :: b in bins ==> !OnSide(b.id, active, !bertIsX))
  {
    ChosenEmpty(bins, active, bertIsX, !bertIsX, needSol);
    ChosenEmpty(bins, active, !bertIsX, bertIsX, needBert);
  }

  /** No range holds the active bin, and the two sides' ranges do not meet. */
  lemma {:induction false} RangesAreApart(bins: seq<Bin>, active: int, bertIsX: bool, needSol: int, needBert: int)
    requires Plan(bins, active, bertIsX, needSol, needBert).Some?
    ensures var rs := Plan(bins, active, bertIsX, needSol, needBert).value;
            && 1 <= |rs| <= 2
            && (forall k :: 0 <= k < |rs| ==>
                  rs[k].fromBinId <= rs[k].toBinId && !(rs[k].fromBinId <= active <= rs[k].toBinId))
            && (|rs| == 2 ==> if bertIsX then rs[0].toBinId < active < rs[1].fromBinId
                else rs[1].toBinId < active < rs[0].fromBinId)
  {
    if Chosen(bins, active, bertIsX, !bertIsX, needSol) != [] {
      RangeIsChosen(bins, active, bertIsX, !bertIsX, needSol);
    }
    if Chosen(bins, active, !bertIsX, bertIsX, needBert) != [] {
      RangeIsChosen(bins, active, !bertIsX, bertIsX, needBert);
    }
  }

  // ----- what the plan's own ranges drain, token by token

  /** How much of the token a bin holds: BERT is token X exactly when bertIsX. */
  function Held(b: Bin, token: Token, bertIsX: bool): nat {
    match token
    case Sol => if bertIsX then b.y else b.x
    case Bert => if bertIsX then b.x else b.y
  }

  /** What removing all liquidity in the range takes out of the position in that token. */
  function Freed(bins: seq<Bin>, token: Token, bertIsX: bool, lo: int, hi: int): nat {
    if bins == [] then 0
    else (if lo <= bins[0].id <= hi then Held(bins[0], token, bertIsX) else 0)
         + Freed(bins[1..], token, bertIsX, lo, hi)
  }

  /** The side of the active bin that holds only the token: the quote token Y below it, the base token X above it. */
  predicate OnTokenSide(id: int, active: int, token: Token, bertIsX: bool) {
    match token
    case Sol => if bertIsX then id < active else id > active
    case Bert => if bertIsX then id > active else id < active
  }

  function NeedOf(token: Token, needSol: int, needBert: int): int {
    if token.Sol? then needSol else needBert
  }

  /** The range without its bin farthest from the active one. */
  function WithoutFarthest(r: SideRange, active: int): SideRange {
    if r.toBinId < active then r.(fromBinId := r.fromBinId + 1) else r.(toBinId := r.toBinId - 1)
  }

  predicate InRange(b: Bin, r: SideRange) {
    r.fromBinId <= b.id <= r.toBinId
  }

  predicate Closer(b: Bin, d: Bin, r: SideRange, active: int) {
    if r.toBinId < active then b.id > d.id else b.id < d.id
  }

  /**
    The range lies on its token's side, frees the need in that token or holds the whole side, would free less than the
    need without its farthest bin, and leaves out no bin of that side that is nearer than one it holds.
   */
  ghost predicate Serves(bins: seq<Bin>, active: int, bertIsX: bool, need: int, r: SideRange) {
    && OnTokenSide(r.fromBinId, active, r.token, bertIsX) && OnTokenSide(r.toBinId, active, r.token, bertIsX)
    && (Freed(bins, r.token, bertIsX, r.fromBinId, r.toBinId) >= need
        || forall b :: b in bins && OnTokenSide(b.id, active, r.token, bertIsX) ==> InRange(b, r))
    && (var s := WithoutFarthest(r, active); Freed(bins, r.token, bertIsX, s.fromBinId, s.toBinId) < need)
    && (forall b, d ::
          b in bins && d in bins && InRange(d, r) && OnTokenSide(b.id, active, r.token, bertIsX) ==>
            (Closer(b, d, r, active) ==> InRange(b, r)))
  }

  /** The side and the token X flag that a token is collected on and in. */
  predicate Below(token: Token, bertIsX: bool) {
    token.Sol? <==> bertIsX
  }

  lemma {:induction false} FreedIsDrained(bins: seq<Bin>, token: Token, bertIsX: bool, lo: int, hi: int)
    ensures Freed(bins, token, bertIsX, lo, hi) == Drained(bins, !Below(token, bertIsX), lo, hi)
  {
    if bins != [] {
      FreedIsDrained(bins[1..], token, bertIsX, lo, hi);
    }
  }

  lemma {:induction false} TokenSide(id: int, active: int, token: Token, bertIsX: bool)
    ensures OnTokenSide(id, active, token, bertIsX) <==> OnSide(id, active, Below(token, bertIsX))
  {
  }

  /** The chosen bins are a prefix of the side, sorted, with distinct ids. */
  lemma {:induction false} ChosenPrefix(bins: seq<Bin>, active: int, below: bool, useX: bool, need: int)
    requires DistinctIds(bins)
    ensures var side := Sorted(Side(bins, active, below), below);
            var c := Chosen(bins, active, below, useX, need);
            && NearestFirst(side, below) && DistinctIds(side) && |c| <= |side| && c == side[..|c|]
            && (forall b :: b in side <==> b in bins && OnSide(b.id, active, below))
  {
    hide Sorted, Side, TakeFrom, Total, Nearer, DistinctIds, NearestFirst;
    var s := Side(bins, active, below);
    SideMembers(bins, active, below);
    SortedMembers(s, below);
    SortedOrdered(s, below);
    SideDistinct(bins, active, below);
    SortedDistinct(s, below);
  }

  /** Dropping the farthest chosen bin drops exactly it from the range. */
  lemma {:induction false} WithoutLast(bins: seq<Bin>, active: int, below: bool, useX: bool, need: int)
    requires DistinctIds(bins) && Chosen(bins, active, below, useX, need) != []
    ensures var c := Chosen(bins, active, below, useX, need);
            var lo := if below then MinId(c) + 1 else MinId(c);
            var hi := if below then MaxId(c) else MaxId(c) - 1;
            Drained(bins, useX, lo, hi) == Total(c[..|c| - 1], useX)
  {
    hide Sorted, Side, TakeFrom, Total, Drained, MinId, MaxId, HasId, DistinctIds, Chosen;
    var c := Chosen(bins, active, below, useX, need);
    var side := Sorted(Side(bins, active, below), below);
    var lo := if below then MinId(c) + 1 else MinId(c);
    var hi := if below then MaxId(c) else MaxId(c) - 1;
    var n := |c| - 1;
    ChosenPrefix(bins, active, below, useX, need);
    ChosenCovers(bins, active, below, useX, need);
    Extremes(c, below);
    hide NearestFirst;
    FarthestLeftOut(side, n, below, lo, hi);
    assert c[..n] == side[..n];
    assert c[0] in c;
    DrainedBySide(bins, active, below, useX, lo, hi);
    PrefixDrains(side, n, useX, lo, hi);
  }

  /** No bin of the side is nearer than the near end of the range. */
  lemma {:induction false} NearEnd(bins: seq<Bin>, active: int, below: bool, useX: bool, need: int, b: Bin)
    requires DistinctIds(bins) && Chosen(bins, active, below, useX, need) != []
    requires b in bins && OnSide(b.id, active, below)
    ensures var c := Chosen(bins, active, below, useX, need); if below then b.id <= MaxId(c) else MinId(c) <= b.id
  {
    hide Sorted, Side, TakeFrom, Total, MinId, MaxId, DistinctIds, Chosen;
    var c := Chosen(bins, active, below, useX, need);
    var side := Sorted(Side(bins, active, below), below);
    ChosenPrefix(bins, active, below, useX, need);
    ChosenCovers(bins, active, below, useX, need);
    Extremes(c, below);
    assert c[0] == side[0];
    var k :| 0 <= k < |side| && side[k] == b;
    assert k > 0 ==> Nearer(side[0].id, side[k].id, below);
  }

  /** Of bins in order with distinct ids, a range that ends just short of the n-th holds exactly the first n. */
  lemma {:induction false} FarthestLeftOut(side: seq<Bin>, n: nat, below: bool, lo: int, hi: int)
    requires NearestFirst(side, below) && DistinctIds(side) && n < |side|
    requires if below then lo == side[n].id + 1 && hi == side[0].id else lo == side[0].id && hi == side[n].id - 1
    ensures forall i :: 0 <= i < |side| ==> (lo <= side[i].id <= hi <==> HasId(side[..n], side[i].id))
  {
    forall i | 0 <= i < |side| ensures lo <= side[i].id <= hi <==> HasId(side[..n], side[i].id) {
      assert i > 0 ==> Nearer(side[0].id, side[i].id, below);
      if i < n {
        assert side[..n][i] == side[i];
        assert Nearer(side[i].id, side[n].id, below);
      } else {
        assert i > n ==> Nearer(side[n].id, side[i].id, below);
        forall j | 0 <= j < n ensures side[..n][j].id != side[i].id {
          assert side[..n][j] == side[j];
        }
      }
    }
  }

  /** Taking the whole side, the range holds all of it. */
  lemma {:induction false} WholeSide(bins: seq<Bin>, active: int, below: bool, useX: bool, need: int, b: Bin)
    requires Chosen(bins, active, below, useX, need) != [] && b in bins && OnSide(b.id, active, below)
    requires multiset(Chosen(bins, active, below, useX, need)) == multiset(Side(bins, active, below))
    ensures var c := Chosen(bins, active, below, useX, need); MinId(c) <= b.id <= MaxId(c)
  {
    hide Sorted, Side, TakeFrom, MinId, MaxId, Chosen;
    var c := Chosen(bins, active, below, useX, need);
    SideMembers(bins, active, below);
    RangeIsChosen(bins, active, below, useX, need);
    assert b in multiset(c);
    var k :| 0 <= k < |c| && c[k] == b;
    assert HasId(c, b.id);
  }

  lemma {:induction false} RangeServes(bins: seq<Bin>, active: int, token: Token, bertIsX: bool, need: int)
    requires DistinctIds(bins)
    requires Chosen(bins, active, Below(token, bertIsX), !Below(token, bertIsX), need) != []
    ensures var c := Chosen(bins, active, Below(token, bertIsX), !Below(token, bertIsX), need);
            Serves(bins, active, bertIsX, need, SideRange(token, MinId(c), MaxId(c)))
  {
    hide Chosen, MinId, MaxId, Total, Drained, HasId, DistinctIds, NearestFirst, Side, Freed, OnTokenSide, Below;
    var below, useX := Below(token, bertIsX), !Below(token, bertIsX);
    var c := Chosen(bins, active, below, useX, need);
    var r := SideRange(token, MinId(c), MaxId(c));
    var s := WithoutFarthest(r, active);
    RangeIsChosen(bins, active, below, useX, need);
    RangeDrainsCollected(bins, active, below, useX, need);
    WithoutLast(bins, active, below, useX, need);
    ChosenCovers(bins, active, below, useX, need);
    FreedIsDrained(bins, token, bertIsX, r.fromBinId, r.toBinId);
    FreedIsDrained(bins, token, bertIsX, s.fromBinId, s.toBinId);
    TokenSide(r.fromBinId, active, token, bertIsX);
    TokenSide(r.toBinId, active, token, bertIsX);
    forall b | b in bins && OnTokenSide(b.id, active, token, bertIsX)
      ensures if r.toBinId < active then b.id <= r.toBinId else r.fromBinId <= b.id
      ensures Freed(bins, token, bertIsX, r.fromBinId, r.toBinId) < need ==> InRange(b, r)
    {
      TokenSide(b.id, active, token, bertIsX);
      NearEnd(bins, active, below, useX, need, b);
      if Freed(bins, token, bertIsX, r.fromBinId, r.toBinId) < need {
        WholeSide(bins, active, below, useX, need, b);
      }
    }
  }

  lemma {:induction false} ChosenIff(bins: seq<Bin>, active: int, token: Token, bertIsX: bool, need: int)
    ensures Chosen(bins, active, Below(token, bertIsX), !Below(token, bertIsX), need) != [] <==>
              need > 0 && exists b :: b in bins && OnTokenSide(b.id, active, token, bertIsX)
  {
    hide Chosen;
    ChosenEmpty(bins, active, Below(token, bertIsX), !Below(token, bertIsX), need);
  }

  /**
    Of the plan's own ranges: there is one for a token exactly when it is needed and its side has bins, SOL first, and
    each serves its own token's need.
   */
  lemma {:induction false} PlanServes(bins: seq<Bin>, active: int, bertIsX: bool, needSol: int, needBert: int)
    requires DistinctIds(bins) && Plan(bins, active, bertIsX, needSol, needBert).Some?
    ensures var rs := Plan(bins, active, bertIsX, needSol, needBert).value;
            && (forall k :: 0 <= k < |rs| ==>
                  Serves(bins, active, bertIsX, NeedOf(rs[k].token, needSol, needBert), rs[k]))
            && (forall j, k :: 0 <= j < k < |rs| ==> rs[j].token.Sol? && rs[k].token.Bert?)
            && (forall token: Token :: (exists k :: 0 <= k < |rs| && rs[k].token == token) <==>
                  && NeedOf(token, needSol, needBert) > 0
                  && exists b :: b in bins && OnTokenSide(b.id, active, token, bertIsX))
  {
    hide Chosen, MinId, MaxId, DistinctIds, Serves, OnTokenSide;
    var sol := Chosen(bins, active, Below(Sol, bertIsX), !Below(Sol, bertIsX), needSol);
    var bert := Chosen(bins, active, Below(Bert, bertIsX), !Below(Bert, bertIsX), needBert);
    var rs := Plan(bins, active, bertIsX, needSol, needBert).value;
    assert rs == RangeOf(Sol, sol) + RangeOf(Bert, bert);
    ChosenIff(bins, active, Sol, bertIsX, needSol);
    ChosenIff(bins, active, Bert, bertIsX, needBert);
    if sol != [] {
      RangeServes(bins, active, Sol, bertIsX, needSol);
      assert rs[0].token == Sol;
    }
    if bert != [] {
      RangeServes(bins, active, Bert, bertIsX, needBert);
      assert rs[|rs| - 1].token == Bert;
    }
  }

  // ----- the mirror image

  function MirrorBin(b: Bin): Bin {
    Bin(-b.id, b.y, b.x)
  }

  function Mirror(bins: seq<Bin>): seq<Bin> {
    seq(|bins|, i requires 0 <= i < |bins| => MirrorBin(bins[i]))
  }

  function MirrorRanges(rs: seq<SideRange>): seq<SideRange> {
    seq(|rs|, i requires 0 <= i < |rs| => SideRange(rs[i].token, -rs[i].toBinId, -rs[i].fromBinId))
  }

  lemma {:induction false} MirrorCons(b: Bin, rest: seq<Bin>)
    ensures Mirror([b] + rest) == [MirrorBin(b)] + Mirror(rest)
  {
  }

  lemma {:induction false} MirrorSide(bins: seq<Bin>, active: int, below: bool)
    ensures Side(Mirror(bins), -active, !below) == Mirror(Side(bins, active, below))
  {
    if bins != [] {
      MirrorSide(bins[1..], active, below);
      MirrorCons(bins[0], Side(bins[1..], active, below));
      assert Mirror(bins)[0] == MirrorBin(bins[0]) && Mirror(bins)[1..] == Mirror(bins[1..]);
    }
  }

  lemma {:induction false} MirrorInsert(b: Bin, bins: seq<Bin>, below: bool)
    ensures Insert(MirrorBin(b), Mirror(bins), !below) == Mirror(Insert(b, bins, below))
  {
    if bins != [] && !Nearer(b.id, bins[0].id, below) {
      MirrorInsert(b, bins[1..], below);
      assert Mirror(bins)[1..] == Mirror(bins[1..]);
    }
  }

  lemma {:induction false} MirrorSorted(bins: seq<Bin>, below: bool)
    ensures Sorted(Mirror(bins), !below) == Mirror(Sorted(bins, below))
  {
    if bins != [] {
      MirrorSorted(bins[1..], below);
      assert Mirror(bins)[1..] == Mirror(bins[1..]);
      MirrorInsert(bins[0], Sorted(bins[1..], below), below);
    }
  }

  lemma {:induction false} MirrorTotal(bins: seq<Bin>, useX: bool)
    ensures Total(Mirror(bins), !useX) == Total(bins, useX)
  {
    if bins != [] {
      var n := |bins| - 1;
      MirrorTotal(bins[..n], useX);
      assert Mirror(bins)[..n] == Mirror(bins[..n]);
    }
  }

  lemma {:induction false} MirrorTake(bins: seq<Bin>, useX: bool, need: int, k: nat)
    requires k <= |bins|
    ensures TakeFrom(Mirror(bins), !useX, need, k) == TakeFrom(bins, useX, need, k)
    decreases |bins| - k
  {
    MirrorTotal(bins[..k], useX);
    assert Mirror(bins)[..k] == Mirror(bins[..k]);
    if k < |bins| && Total(bins[..k], useX) < need {
      MirrorTake(bins, useX, need, k + 1);
    }
  }

  lemma {:induction false} MirrorChosen(bins: seq<Bin>, active: int, below: bool, useX: bool, need: int)
    ensures Chosen(Mirror(bins), -active, !below, !useX, need) == Mirror(Chosen(bins, active, below, useX, need))
  {
    var side := Sorted(Side(bins, active, below), below);
    MirrorSide(bins, active, below);
    MirrorSorted(Side(bins, active, below), below);
    MirrorTake(side, useX, need, 0);
    var n := TakeFrom(side, useX, need, 0);
    assert Mirror(side)[..n] == Mirror(side[..n]);
  }

  lemma {:induction false} MirrorExtremes(bins: seq<Bin>)
    requires bins != []
    ensures MinId(Mirror(bins)) == -MaxId(bins) && MaxId(Mirror(bins)) == -MinId(bins)
  {
    var n := |bins| - 1;
    if n > 0 {
      MirrorExtremes(bins[..n]);
      assert Mirror(bins)[..n] == Mirror(bins[..n]);
    }
  }

  lemma {:induction false} MirrorRange(token: Token, chosen: seq<Bin>)
    ensures RangeOf(token, Mirror(chosen)) == MirrorRanges(RangeOf(token, chosen))
  {
    if chosen != [] {
      MirrorExtremes(chosen);
    }
  }

  /** Swapping the pool's token order and mirroring the bin ids mirrors the plan. */
  lemma {:induction false} MirrorPlan(bins: seq<Bin>, active: int, bertIsX: bool, needSol: int, needBert: int)
    ensures var p := Plan(bins, active, bertIsX, needSol, needBert);
            Plan(Mirror(bins), -active, !bertIsX, needSol, needBert) == if p.None? then None
              else Some(MirrorRanges(p.value))
  {
    hide Chosen, RangeOf, MirrorBin;
    var sol := Chosen(bins, active, bertIsX, !bertIsX, needSol);
    var bert := Chosen(bins, active, !bertIsX, bertIsX, needBert);
    MirrorChosen(bins, active, bertIsX, !bertIsX, needSol);
    MirrorChosen(bins, active, !bertIsX, bertIsX, needBert);
    MirrorRange(Sol, sol);
    MirrorRange(Bert, bert);
    assert MirrorRanges(RangeOf(Sol, sol) + RangeOf(Bert, bert)) == MirrorRanges(RangeOf(Sol, sol))
      + MirrorRanges(RangeOf(Bert, bert));
    assert |Mirror(sol)| == |sol| && |Mirror(bert)| == |bert|;
  }

  // ----- the loops

  /** One greedy loop: push ids and add amounts until the need is met. */
  method Collect(bins: seq<Bin>, useX: bool, need: int) returns (taken: seq<Bin>)
    ensures taken == bins[..TakeFrom(bins, useX, need, 0)]
  {
    taken := [];
    assert bins[..0] == [];
    if need > 0 {
      var collected := 0;
      for k := 0 to |bins|
        invariant taken == bins[..k] && collected == Total(taken, useX)
        invariant TakeFrom(bins, useX, need, 0) == TakeFrom(bins, useX, need, k)
      {
        if collected >= need {
          break;
        }
        taken := taken + [bins[k]];
        collected := collected + Amount(bins[k], useX);
        assert taken[..k] == bins[..k];
      }
    }
  }

  method BuildRanges(bins: seq<Bin>, active: int, bertIsX: bool, needSol: int, needBert: int)
    returns (plan: Option<seq<SideRange>>)
    ensures plan == Plan(bins, active, bertIsX, needSol, needBert)
  {
    var below := Sorted(Side(bins, active, true), true);
    var above := Sorted(Side(bins, active, false), false);
    var solBins := if bertIsX then below else above;
    var bertBins := if bertIsX then above else below;
    hide Sorted, Side, TakeFrom, MinId, MaxId;
    var solSide := Collect(solBins, !bertIsX, needSol);
    var bertSide := Collect(bertBins, bertIsX, needBert);
    assert solSide == Chosen(bins, active, bertIsX, !bertIsX, needSol);
    assert bertSide == Chosen(bins, active, !bertIsX, bertIsX, needBert);
    if solSide == [] && bertSide == [] {
      return None;
    }
    var ranges := [];
    if solSide != [] {
      ranges := ranges + [SideRange(Sol, MinId(solSide), MaxId(solSide))];
    }
    if bertSide != [] {
      ranges := ranges + [SideRange(Bert, MinId(bertSide), MaxId(bertSide))];
    }
    assert ranges == RangeOf(Sol, solSide) + RangeOf(Bert, bertSide);
    plan := Some(ranges);
  }
}
