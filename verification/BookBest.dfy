/**
 What the bound of 100 levels hides. A full side of the order book of
 src/rithmic_gateway/rithmic_orderbook.h rejects a new price even if it is better
 than all it holds, so the best level shown need not be the market's.
 */
module BookBest {
  import opened Machine
  import opened PriceLevels
  import opened BookSpec

  ghost predicate IsBest(m: map<real, real>, isAsk: bool, p: real) {
    p in m && forall q | q in m && q != p :: Before(isAsk, p, q)
  }

  /** The prices of a side that were dropped for lack of room and have not been set or deleted since. */
  function Missed(updates: seq<Update>, isAsk: bool): set<real> {
    if updates == [] then {}
    else
      var init, u := updates[..|updates| - 1], updates[|updates| - 1];
      var missed := Missed(init, isAsk);
      match u
      case Wipe => {}
      case Set(side, level) =>
        if side != isAsk then missed
        else if Overflows(Replay(init), u) then missed + {level.price}
        else missed - {level.price}
      case Image(side, entries) => if side != isAsk then missed else Tail(entries)
  }

  /** The prices of an image beyond the first MAX_LEVELS. */
  function Tail(entries: seq<(real, int)>): set<real> {
    AsMap(Positive(entries)).Keys - AsMap(Truncated(Positive(entries))).Keys
  }

  /** They are exactly what the unbounded book has and the book has not. */
  lemma {:induction false} MissedIsTheDifference(updates: seq<Update>, isAsk: bool)
    requires ImagesSorted(updates)
    ensures Missed(updates, isAsk) == IdealReplay(updates).Of(isAsk).Keys - Replay(updates).Of(isAsk).Keys
    decreases |updates|
  {
    if updates != [] {
      var init, u := updates[..|updates| - 1], updates[|updates| - 1];
      MissedIsTheDifference(init, isAsk);
      BoundedBookIsSubmap(init);
      if u.Set? && u.isAsk == isAsk {
        SetDifference(Replay(init).Of(isAsk), IdealReplay(init).Of(isAsk), u.level.price, u.level.qty);
      }
    }
  }

  lemma SetDifference(m: map<real, real>, n: map<real, real>, price: real, qty: real)
    requires Submap(m, n)
    ensures IdealUpdate(n, price, qty).Keys - BoundedUpdate(m, price, qty).Keys
            == if qty > 0.0 && price !in m && |m| >= MAX_LEVELS then (n.Keys - m.Keys) + {price}
               else (n.Keys - m.Keys) - {price}
  {
  }

  lemma {:induction false} BestExists(keys: set<real>, isAsk: bool, some: real) returns (b: real)
    requires some in keys
    ensures b in keys && forall q | q in keys && q != b :: Before(isAsk, b, q)
    decreases |keys|
  {
    b := some;
    if q :| q in keys && q != some {
      var c := BestExists(keys - {some}, isAsk, q);
      if Before(isAsk, c, some) {
        b := c;
      }
      forall x | x in keys && x != b
        ensures Before(isAsk, b, x)
      {
        assert x != some ==> x in keys - {some};
      }
    }
  }

  /** The two books show the same best level, or none. */
  ghost predicate SameBest(m: map<real, real>, n: map<real, real>, isAsk: bool) {
    forall p :: IsBest(m, isAsk, p) <==> IsBest(n, isAsk, p)
  }

  /** Some level of the book is better than `x`. */
  ghost predicate Beaten(m: map<real, real>, isAsk: bool, x: real) {
    exists p | p in m :: Before(isAsk, p, x)
  }

  lemma SameBestIff(m: map<real, real>, n: map<real, real>, isAsk: bool)
    requires Submap(m, n)
    ensures SameBest(m, n, isAsk) <==> forall x | x in n.Keys - m.Keys :: Beaten(m, isAsk, x)
  {
    if forall x | x in n.Keys - m.Keys :: Beaten(m, isAsk, x) {
      forall p
        ensures IsBest(m, isAsk, p) <==> IsBest(n, isAsk, p)
      {
        BeatenMeansSame(m, n, isAsk, p);
      }
    } else {
      var x :| x in n.Keys - m.Keys && !Beaten(m, isAsk, x);
      var b := BestExists(n.Keys, isAsk, x);
      assert IsBest(n, isAsk, b);
      assert b in m ==> Beaten(m, isAsk, x);
      assert !IsBest(m, isAsk, b);
    }
  }

  lemma BeatenMeansSame(m: map<real, real>, n: map<real, real>, isAsk: bool, p: real)
    requires Submap(m, n) && forall x | x in n.Keys - m.Keys :: Beaten(m, isAsk, x)
    ensures IsBest(m, isAsk, p) <==> IsBest(n, isAsk, p)
  {
    if IsBest(m, isAsk, p) {
      forall q | q in n && q != p
        ensures Before(isAsk, p, q)
      {
        if q !in m {
          assert Beaten(m, isAsk, q);
        }
      }
    }
    if p in n && p !in m {
      assert Beaten(m, isAsk, p);
    }
  }

  /**
   After any trace of callbacks, a side of the book shows the best level of the unbounded book if and only if
   it holds a better price than every price it missed.
   */
  lemma BestShownIff(trace: seq<Callback>, maxDepth: nat, isAsk: bool)
    requires ImagesSorted(Read(trace, maxDepth).committed)
    ensures var side, updates := Run(trace, maxDepth).book.sides.Of(isAsk), Read(trace, maxDepth).committed;
            SameBest(side, IdealReplay(updates).Of(isAsk), isAsk)
            <==> forall x | x in Missed(updates, isAsk) :: Beaten(side, isAsk, x)
  {
    var updates := Read(trace, maxDepth).committed;
    SnapshotsAreCommittedUpdates(trace, maxDepth);
    BoundedBookIsSubmap(updates);
    MissedIsTheDifference(updates, isAsk);
    SameBestIff(Replay(updates).Of(isAsk), IdealReplay(updates).Of(isAsk), isAsk);
  }

  // ---- The failing case: a full side and one better price ----

  function BidAt(price: nat): Callback {
    Quote(false, QuoteInfo(UPDATE_SOLO, true, price as real, true, 1))
  }

  /** Bids at 1, 2, ..., n, each better than all before. */
  function Climb(n: nat): (r: seq<Callback>)
    ensures |r| == n
  {
    if n == 0 then [] else Climb(n - 1) + [BidAt(n)]
  }

  lemma ClimbStep(n: nat, maxDepth: nat)
    requires n > 0
    ensures Read(Climb(n), maxDepth).committed
            == Read(Climb(n - 1), maxDepth).committed + [Set(false, Level(n as real, 1.0))]
  {
    assert Climb(n)[..n - 1] == Climb(n - 1);
    var q := QuoteInfo(UPDATE_SOLO, true, n as real, true, 1);
    assert Sets(q.Levels(), false) == [Set(false, Level(n as real, 1.0))];
  }

  lemma OneHigher(m: map<real, real>, n: nat)
    requires 0 < n <= MAX_LEVELS && |m| == n - 1 && forall p | p in m :: p <= (n - 1) as real
    ensures var r := BoundedUpdate(m, n as real, 1.0); |r| == n && forall p | p in r :: p <= n as real
  {
    var r := m[n as real := 1.0];
    assert n as real !in m;
    assert r.Keys == m.Keys + {n as real};
  }

  lemma ReplayHigher(updates: seq<Update>, n: nat)
    ensures Replay(updates + [Set(false, Level(n as real, 1.0))]).bids
            == BoundedUpdate(Replay(updates).bids, n as real, 1.0)
  {
    ReplaySnoc(updates, Set(false, Level(n as real, 1.0)));
  }

  /** `n` distinct bids up to `n`. */
  ghost predicate Filled(updates: seq<Update>, n: nat) {
    ImagesSorted(updates) && |Replay(updates).bids| == n && forall p | p in Replay(updates).bids :: p <= n as real
  }

  lemma FilledStep(updates: seq<Update>, n: nat)
    requires 0 < n <= MAX_LEVELS && Filled(updates, n - 1)
    ensures Filled(updates + [Set(false, Level(n as real, 1.0))], n)
  {
    ReplayHigher(updates, n);
    OneHigher(Replay(updates).bids, n);
  }

  function Bids(n: nat): seq<Update> {
    if n == 0 then [] else Bids(n - 1) + [Set(false, Level(n as real, 1.0))]
  }

  lemma {:induction false} ClimbIsBids(n: nat, maxDepth: nat)
    ensures Read(Climb(n), maxDepth).committed == Bids(n)
    decreases n
  {
    if n > 0 {
      ClimbIsBids(n - 1, maxDepth);
      ClimbStep(n, maxDepth);
    }
  }

  lemma {:induction false} BidsFill(n: nat)
    requires n <= MAX_LEVELS
    ensures Filled(Bids(n), n)
    decreases n
  {
    if n > 0 {
      BidsFill(n - 1);
      FilledStep(Bids(n - 1), n);
    }
  }

  lemma LastBidRejected(n: nat)
    requires n == MAX_LEVELS + 1
    ensures ImagesSorted(Bids(n)) && n as real in Missed(Bids(n), false)
    ensures !Beaten(Replay(Bids(n)).bids, false, n as real)
  {
    var u := Set(false, Level(n as real, 1.0));
    BidsFill(n - 1);
    ReplayHigher(Bids(n - 1), n);
    assert Bids(n)[..|Bids(n)| - 1] == Bids(n - 1);
  }

  /** One bid more than there is room for, and the book's best bid is not the market's. */
  lemma BestBidHidden(maxDepth: nat)
    ensures var trace := Climb(MAX_LEVELS + 1);
            var updates := Read(trace, maxDepth).committed;
            ImagesSorted(updates) && !SameBest(Run(trace, maxDepth).book.sides.bids, IdealReplay(updates).bids, false)
  {
    var n := MAX_LEVELS + 1;
    ClimbIsBids(n, maxDepth);
    LastBidRejected(n);
    BestShownIff(Climb(n), maxDepth, false);
    SnapshotsAreCommittedUpdates(Climb(n), maxDepth);
  }
}
