/**
 One side of an order book as a price-to-quantity map, and the strictly ordered
 sequence of levels that represents it. The maps are the specification against
 which the fixed arrays of src/rithmic_gateway/rithmic_orderbook.h are proved.
 */
module PriceLevels {
  import opened Machine

  datatype Level = Level(price: real, qty: real)

  /** Best first: asks ascending, bids descending. */
  predicate Before(isAsk: bool, p: real, q: real) {
    if isAsk then p < q else p > q
  }

  ghost predicate Sorted(side: seq<Level>, isAsk: bool) {
    forall i, j | 0 <= i < j < |side| :: Before(isAsk, side[i].price, side[j].price)
  }

  ghost predicate Distinct(side: seq<Level>) {
    forall i, j | 0 <= i < j < |side| :: side[i].price != side[j].price
  }

  /** What every side keeps: strict order, positive quantities, at most MAX_LEVELS levels. */
  ghost predicate WellFormed(side: seq<Level>, isAsk: bool) {
    && |side| <= MAX_LEVELS
    && Sorted(side, isAsk)
    && forall i | 0 <= i < |side| :: side[i].qty > 0.0
  }

  function AsMap(side: seq<Level>): map<real, real> {
    if side == [] then map[]
    else AsMap(side[..|side| - 1])[side[|side| - 1].price := side[|side| - 1].qty]
  }

  /** The update of a book without a size limit: a positive quantity sets, anything else deletes. */
  function IdealUpdate(m: map<real, real>, price: real, qty: real): map<real, real> {
    if qty > 0.0 then m[price := qty] else m - {price}
  }

  /** The same update when a price that is not there yet needs a free level. */
  function BoundedUpdate(m: map<real, real>, price: real, qty: real): map<real, real> {
    if qty > 0.0 && price !in m && |m| >= MAX_LEVELS then m else IdealUpdate(m, price, qty)
  }

  /** The levels of an image that ApplyImage looks at: those with a positive size. */
  function Positive(entries: seq<(real, int)>): (r: seq<Level>)
    ensures forall i | 0 <= i < |r| :: r[i].qty > 0.0
  {
    if entries == [] then []
    else
      var init, e := Positive(entries[..|entries| - 1]), entries[|entries| - 1];
      if e.1 > 0 then init + [Level(e.0, e.1 as real)] else init
  }

  function Truncated(side: seq<Level>): (r: seq<Level>)
    ensures |r| <= MAX_LEVELS && r <= side
  {
    if |side| <= MAX_LEVELS then side else side[..MAX_LEVELS]
  }

  lemma SortedIsDistinct(side: seq<Level>, isAsk: bool)
    requires Sorted(side, isAsk)
    ensures Distinct(side)
  {
    forall i, j | 0 <= i < j < |side|
      ensures side[i].price != side[j].price
    {
      assert Before(isAsk, side[i].price, side[j].price);
    }
  }

  predicate HasPrice(side: seq<Level>, p: real) {
    exists i :: 0 <= i < |side| && side[i].price == p
  }

  lemma {:induction false} AsMapKeys(side: seq<Level>, p: real)
    ensures p in AsMap(side) <==> HasPrice(side, p)
    decreases |side|
  {
    if side != [] {
      var init := side[..|side| - 1];
      AsMapKeys(init, p);
      if p in AsMap(init) {
        var i :| 0 <= i < |init| && init[i].price == p;
        assert side[i].price == p;
      }
      if i :| 0 <= i < |side| && side[i].price == p {
        assert i < |init| ==> init[i].price == p;
      }
    }
  }

  lemma {:induction false} AsMapAt(side: seq<Level>, i: nat)
    requires Distinct(side) && i < |side|
    ensures side[i].price in AsMap(side) && AsMap(side)[side[i].price] == side[i].qty
    decreases |side|
  {
    var init := side[..|side| - 1];
    if i < |init| {
      AsMapAt(init, i);
      assert init[i] == side[i];
    }
  }

  lemma {:induction false} AsMapSize(side: seq<Level>)
    requires Distinct(side)
    ensures |AsMap(side)| == |side|
    decreases |side|
  {
    if side != [] {
      var init, last := side[..|side| - 1], side[|side| - 1];
      AsMapSize(init);
      AsMapKeys(init, last.price);
      assert AsMap(side).Keys == AsMap(init).Keys + {last.price};
    }
  }

  /** A map that agrees with a side entry by entry is that side's map. */
  lemma AsMapUnique(side: seq<Level>, m: map<real, real>)
    requires Distinct(side)
    requires forall i | 0 <= i < |side| :: side[i].price in m && m[side[i].price] == side[i].qty
    requires forall p | p in m :: HasPrice(side, p)
    ensures AsMap(side) == m
  {
    var n := AsMap(side);
    forall p
      ensures p in n <==> p in m
      ensures p in n ==> n[p] == m[p]
    {
      AsMapKeys(side, p);
      if HasPrice(side, p) {
        var i :| 0 <= i < |side| && side[i].price == p;
        AsMapAt(side, i);
      }
    }
    assert n.Keys == m.Keys;
  }

  lemma LastPrice(a: seq<Level>, b: seq<Level>, isAsk: bool)
    requires Sorted(a, isAsk) && Sorted(b, isAsk) && AsMap(a) == AsMap(b) && a != []
    ensures b != [] && a[|a| - 1] == b[|b| - 1]
  {
    SortedIsDistinct(a, isAsk);
    SortedIsDistinct(b, isAsk);
    var x := a[|a| - 1];
    AsMapAt(a, |a| - 1);
    AsMapKeys(b, x.price);
    var i :| 0 <= i < |b| && b[i].price == x.price;
    AsMapAt(b, i);
    var y := b[|b| - 1];
    AsMapAt(b, |b| - 1);
    AsMapKeys(a, y.price);
    var j :| 0 <= j < |a| && a[j].price == y.price;
    assert i < |b| - 1 ==> Before(isAsk, x.price, y.price);
    assert j < |a| - 1 ==> Before(isAsk, y.price, x.price);
  }

  lemma WithoutLast(side: seq<Level>)
    requires Distinct(side) && side != []
    ensures AsMap(side[..|side| - 1]) == AsMap(side) - {side[|side| - 1].price}
  {
    AsMapKeys(side[..|side| - 1], side[|side| - 1].price);
  }

  /** The order makes the representation unique: equal maps, equal level sequences. */
  lemma {:induction false} Canonical(a: seq<Level>, b: seq<Level>, isAsk: bool)
    requires Sorted(a, isAsk) && Sorted(b, isAsk) && AsMap(a) == AsMap(b)
    ensures a == b
    decreases |a|
  {
    SortedIsDistinct(a, isAsk);
    SortedIsDistinct(b, isAsk);
    if a != [] {
      LastPrice(a, b, isAsk);
      WithoutLast(a);
      WithoutLast(b);
      var a', b' := a[..|a| - 1], b[..|b| - 1];
      Canonical(a', b', isAsk);
      assert a == a' + [a[|a| - 1]] && b == b' + [b[|b| - 1]];
    } else if b != [] {
      AsMapAt(b, 0);
    }
  }

  lemma UpdatedAt(side: seq<Level>, pos: nat, qty: real, isAsk: bool)
    requires WellFormed(side, isAsk) && pos < |side| && qty > 0.0
    ensures WellFormed(side[pos := side[pos].(qty := qty)], isAsk)
    ensures AsMap(side[pos := side[pos].(qty := qty)]) == BoundedUpdate(AsMap(side), side[pos].price, qty)
  {
    var r, m := side[pos := side[pos].(qty := qty)], AsMap(side);
    SortedIsDistinct(side, isAsk);
    assert Sorted(r, isAsk);
    SortedIsDistinct(r, isAsk);
    AsMapAt(side, pos);
    forall i | 0 <= i < |side| && i != pos
      ensures side[i] in r
    {
      assert r[i] == side[i];
    }
    assert r[pos].price == side[pos].price;
    EntriesCarryOver(side, r, m[side[pos].price := qty], side[pos].price);
  }

  /** `r` keeps the entries of `side` other than at `price`; so does `m` of its map. */
  lemma EntriesCarryOver(side: seq<Level>, r: seq<Level>, m: map<real, real>, price: real)
    requires Distinct(side) && Distinct(r)
    requires forall i | 0 <= i < |r| && r[i].price != price :: r[i] in side
    requires forall i | 0 <= i < |r| && r[i].price == price :: price in m && m[price] == r[i].qty
    requires forall i | 0 <= i < |side| && side[i].price != price :: side[i] in r
    requires price in m ==> HasPrice(r, price)
    requires m - {price} == AsMap(side) - {price}
    ensures AsMap(r) == m
  {
    forall i | 0 <= i < |r|
      ensures r[i].price in m && m[r[i].price] == r[i].qty
    {
      if r[i].price != price {
        var j :| 0 <= j < |side| && side[j] == r[i];
        AsMapAt(side, j);
        assert r[i].price in m - {price} && (m - {price})[r[i].price] == r[i].qty;
      }
    }
    forall p | p in m
      ensures HasPrice(r, p)
    {
      if p != price {
        assert p in m - {price};
        AsMapKeys(side, p);
        var j :| 0 <= j < |side| && side[j].price == p;
        assert side[j] in r;
      }
    }
    AsMapUnique(r, m);
  }

  lemma RemovedAt(side: seq<Level>, pos: nat, qty: real, isAsk: bool, r: seq<Level>)
    requires WellFormed(side, isAsk) && pos < |side| && qty <= 0.0 && |r| == |side| - 1
    requires forall i: nat | i < |r| :: r[i] == AfterRemove(side, pos, i)
    ensures WellFormed(r, isAsk)
    ensures AsMap(r) == BoundedUpdate(AsMap(side), side[pos].price, qty)
  {
    SortedIsDistinct(side, isAsk);
    forall i, j | 0 <= i < j < |r|
      ensures Before(isAsk, r[i].price, r[j].price)
    {
    }
    SortedIsDistinct(r, isAsk);
    forall i | 0 <= i < |side| && i != pos
      ensures side[i] in r
    {
      assert r[if i < pos then i else i - 1] == side[i];
    }
    EntriesCarryOver(side, r, AsMap(side) - {side[pos].price}, side[pos].price);
  }

  /** Element `i` of a side with `level` inserted at `pos`. */
  function AfterInsert(side: seq<Level>, pos: nat, level: Level, i: nat): Level
    requires pos <= |side| && i <= |side|
  {
    if i < pos then side[i] else if i == pos then level else side[i - 1]
  }

  /** Element `i` of a side with position `pos` taken out. */
  function AfterRemove(side: seq<Level>, pos: nat, i: nat): Level
    requires pos < |side| && i < |side| - 1
  {
    if i < pos then side[i] else side[i + 1]
  }

  lemma InsertedSorted(side: seq<Level>, pos: nat, level: Level, isAsk: bool, r: seq<Level>)
    requires Sorted(side, isAsk) && pos <= |side|
    requires forall i | 0 <= i < pos :: Before(isAsk, side[i].price, level.price)
    requires forall i | pos <= i < |side| :: Before(isAsk, level.price, side[i].price)
    requires |r| == |side| + 1 && forall i: nat | i < |r| :: r[i] == AfterInsert(side, pos, level, i)
    ensures Sorted(r, isAsk)
  {
    forall i: nat, j: nat | i < j < |r|
      ensures Before(isAsk, r[i].price, r[j].price)
    {
      var x, y := AfterInsert(side, pos, level, i), AfterInsert(side, pos, level, j);
      assert r[i] == x && r[j] == y;
    }
  }

  lemma InsertedAt(side: seq<Level>, pos: nat, level: Level, isAsk: bool, r: seq<Level>)
    requires WellFormed(side, isAsk) && pos <= |side| < MAX_LEVELS && level.qty > 0.0
    requires forall i | 0 <= i < pos :: Before(isAsk, side[i].price, level.price)
    requires forall i | pos <= i < |side| :: Before(isAsk, level.price, side[i].price)
    requires |r| == |side| + 1 && forall i: nat | i < |r| :: r[i] == AfterInsert(side, pos, level, i)
    ensures WellFormed(r, isAsk)
    ensures AsMap(r) == BoundedUpdate(AsMap(side), level.price, level.qty)
  {
    InsertedSorted(side, pos, level, isAsk, r);
    SortedIsDistinct(side, isAsk);
    SortedIsDistinct(r, isAsk);
    AsMapSize(side);
    InsertedMap(side, pos, level, r);
  }

  lemma InsertedMap(side: seq<Level>, pos: nat, level: Level, r: seq<Level>)
    requires Distinct(side) && Distinct(r) && pos <= |side|
    requires |r| == |side| + 1 && forall i: nat | i < |r| :: r[i] == AfterInsert(side, pos, level, i)
    ensures AsMap(r) == AsMap(side)[level.price := level.qty]
  {
    assert r[pos] == level && HasPrice(r, level.price);
    forall i | 0 <= i < |side|
      ensures side[i] in r
    {
      assert r[if i < pos then i else i + 1] == side[i];
    }
    EntriesCarryOver(side, r, AsMap(side)[level.price := level.qty], level.price);
  }

  lemma PrefixSubmap(side: seq<Level>, n: nat)
    requires Distinct(side) && n <= |side|
    ensures forall p | p in AsMap(side[..n]) :: p in AsMap(side) && AsMap(side)[p] == AsMap(side[..n])[p]
  {
    forall p | p in AsMap(side[..n])
      ensures p in AsMap(side) && AsMap(side)[p] == AsMap(side[..n])[p]
    {
      AsMapKeys(side[..n], p);
      var i :| 0 <= i < n && side[..n][i].price == p;
      AsMapAt(side[..n], i);
      AsMapAt(side, i);
    }
  }
}
