/**
 The fixed-array order book of src/rithmic_gateway/rithmic_orderbook.h and the
 callbacks of src/rithmic_gateway/rithmic_callbacks.cpp that drive it, proved
 against the maps of `BookSpec`.
 */
module OrderBook {
  import opened Machine
  import opened PriceLevels
  import opened BookSpec

  /** Deletes position `pos` of the first `n` levels by shifting the rest left. */
  method ShiftLeft(levels: array<Level>, n: nat, pos: nat)
    requires pos < n <= levels.Length
    modifies levels
    ensures forall i: nat | i < n - 1 :: levels[i] == AfterRemove(old(levels[..n]), pos, i)
  {
    var j := pos;
    while j + 1 < n
      invariant pos <= j < n
      invariant forall i | 0 <= i < pos :: levels[i] == old(levels[i])
      invariant forall i | pos <= i < j :: levels[i] == old(levels[i + 1])
      invariant forall i | j <= i < n :: levels[i] == old(levels[i])
    {
      levels[j] := levels[j + 1];
      j := j + 1;
    }
  }

  /** Inserts `level` at `pos` after shifting the levels from there on right. */
  method ShiftRight(levels: array<Level>, n: nat, pos: nat, level: Level)
    requires pos <= n < levels.Length
    modifies levels
    ensures forall i: nat | i <= n :: levels[i] == AfterInsert(old(levels[..n]), pos, level, i)
  {
    var j := n;
    while j > pos
      invariant pos <= j <= n
      invariant forall i | 0 <= i < j :: levels[i] == old(levels[i])
      invariant forall i | j < i <= n :: levels[i] == old(levels[i - 1])
    {
      levels[j] := levels[j - 1];
      j := j - 1;
    }
    levels[pos] := level;
  }

  /** The first level that does not come strictly before `price`. */
  method InsertPosition(levels: array<Level>, n: nat, price: real, isAsk: bool) returns (pos: nat)
    requires n <= levels.Length && Sorted(levels[..n], isAsk)
    requires forall i | 0 <= i < n :: levels[i].price != price
    ensures pos <= n
    ensures forall i | 0 <= i < pos :: Before(isAsk, levels[i].price, price)
    ensures forall i | pos <= i < n :: Before(isAsk, price, levels[i].price)
  {
    pos := 0;
    while pos < n && (if isAsk then levels[pos].price < price else levels[pos].price > price)
      invariant pos <= n
      invariant forall i | 0 <= i < pos :: Before(isAsk, levels[i].price, price)
    {
      pos := pos + 1;
    }
    ghost var side := levels[..n];
    forall i | pos <= i < n
      ensures Before(isAsk, price, levels[i].price)
    {
      assert i > pos ==> Before(isAsk, side[pos].price, side[i].price);
    }
  }

  /** ApplyLevel on the array and count of one side. */
  method ApplyLevelTo(levels: array<Level>, n: nat, price: real, qty: real, isAsk: bool) returns (m: nat)
    requires levels.Length == MAX_LEVELS && n <= MAX_LEVELS && WellFormed(levels[..n], isAsk)
    modifies levels
    ensures m <= MAX_LEVELS && WellFormed(levels[..m], isAsk)
    ensures AsMap(levels[..m]) == BoundedUpdate(AsMap(old(levels[..n])), price, qty)
  {
    ghost var side := levels[..n];
    var pos := 0;
    while pos < n && levels[pos].price != price
      invariant pos <= n
      invariant forall i | 0 <= i < pos :: levels[i].price != price
    {
      pos := pos + 1;
    }
    if pos < n {
      if qty > 0.0 {
        levels[pos] := Level(levels[pos].price, qty);
        m := n;
        assert levels[..m] == side[pos := side[pos].(qty := qty)];
        UpdatedAt(side, pos, qty, isAsk);
      } else {
        ShiftLeft(levels, n, pos);
        m := n - 1;
        RemovedAt(side, pos, qty, isAsk, levels[..m]);
      }
      return;
    }
    m := n;
    AbsentPrice(side, price, isAsk);
    if qty <= 0.0 { return; }
    if n >= MAX_LEVELS { return; }
    pos := InsertPosition(levels, n, price, isAsk);
    ShiftRight(levels, n, pos, Level(price, qty));
    m := n + 1;
    InsertedAt(side, pos, Level(price, qty), isAsk, levels[..m]);
  }

  lemma AbsentPrice(side: seq<Level>, price: real, isAsk: bool)
    requires WellFormed(side, isAsk) && forall i | 0 <= i < |side| :: side[i].price != price
    ensures price !in AsMap(side) && |AsMap(side)| == |side|
    ensures AsMap(side) - {price} == AsMap(side)
  {
    SortedIsDistinct(side, isAsk);
    AsMapKeys(side, price);
    AsMapSize(side);
  }

  /** ApplyImage on the array of one side: the first MAX_LEVELS entries with a positive size. */
  method ApplyImageTo(levels: array<Level>, entries: seq<(real, int)>) returns (n: nat)
    requires levels.Length == MAX_LEVELS
    modifies levels
    ensures n <= MAX_LEVELS && levels[..n] == Truncated(Positive(entries))
  {
    n := 0;
    var i := 0;
    while i < |entries| && n < MAX_LEVELS
      invariant i <= |entries| && n <= MAX_LEVELS
      invariant levels[..n] == Positive(entries[..i])
    {
      assert entries[..i + 1][..i] == entries[..i];
      if entries[i].1 > 0 {
        levels[n] := Level(entries[i].0, entries[i].1 as real);
        n := n + 1;
      }
      i := i + 1;
    }
    PositivePrefix(entries, i);
    assert entries[..|entries|] == entries;
  }

  lemma {:induction false} PositivePrefix(entries: seq<(real, int)>, i: nat)
    requires i <= |entries|
    ensures Positive(entries[..i]) <= Positive(entries)
    decreases |entries|
  {
    if i < |entries| {
      var init := entries[..|entries| - 1];
      PositivePrefix(init, i);
      assert init[..i] == entries[..i];
    } else {
      assert entries[..i] == entries;
    }
  }

  lemma ApplySideSnoc(b: Book, levels: seq<Level>, i: nat, isAsk: bool)
    requires i < |levels|
    ensures ApplySide(b, levels[..i + 1], isAsk)
            == BookSpec.ApplyLevel(ApplySide(b, levels[..i], isAsk), levels[i], isAsk)
  {
    assert levels[..i + 1] == levels[..i] + [levels[i]];
    ApplyAllSnoc(b.sides.Of(isAsk), levels[..i], levels[i]);
  }

  class RithmicOrderBook {
    const bids: array<Level>
    const asks: array<Level>
    const pendingBids: array<Level>
    const pendingAsks: array<Level>
    var bidCount: nat
    var askCount: nat
    var pendingBidCount: nat
    var pendingAskCount: nat
    var batchActive: bool

    /** The book the arrays stand for. */
    ghost var model: Book

    ghost predicate Valid()
      reads this, bids, asks, pendingBids, pendingAsks
    {
      && bids.Length == asks.Length == pendingBids.Length == pendingAsks.Length == MAX_LEVELS
      && bids != asks && bids != pendingBids && bids != pendingAsks
      && asks != pendingBids && asks != pendingAsks && pendingBids != pendingAsks
      && bidCount <= MAX_LEVELS && askCount <= MAX_LEVELS
      && pendingBidCount <= MAX_LEVELS && pendingAskCount <= MAX_LEVELS
      && WellFormed(bids[..bidCount], false)
      && WellFormed(asks[..askCount], true)
      && model == Book(Sides(AsMap(bids[..bidCount]), AsMap(asks[..askCount])),
                       pendingBids[..pendingBidCount], pendingAsks[..pendingAskCount], batchActive)
    }

    constructor ()
      ensures Valid() && model == Book(EMPTY, [], [], false)
      ensures fresh(bids) && fresh(asks) && fresh(pendingBids) && fresh(pendingAsks)
    {
      bids := new Level[MAX_LEVELS](_ => Level(0.0, 0.0));
      asks := new Level[MAX_LEVELS](_ => Level(0.0, 0.0));
      pendingBids := new Level[MAX_LEVELS](_ => Level(0.0, 0.0));
      pendingAsks := new Level[MAX_LEVELS](_ => Level(0.0, 0.0));
      bidCount, askCount, pendingBidCount, pendingAskCount := 0, 0, 0, 0;
      batchActive := false;
      model := Book(EMPTY, [], [], false);
    }

    method ApplyImage(entries: seq<(real, int)>, isAsk: bool)
      requires Valid() && Sorted(Positive(entries), isAsk)
      modifies this`bidCount, this`askCount, this`model, bids, asks
      ensures Valid() && model == BookSpec.ApplyImage(old(model), entries, isAsk)
    {
      if isAsk {
        askCount := ApplyImageTo(asks, entries);
      } else {
        bidCount := ApplyImageTo(bids, entries);
      }
      model := BookSpec.ApplyImage(model, entries, isAsk);
    }

    method ApplyLevel(price: real, qty: real, isAsk: bool)
      requires Valid()
      modifies this`bidCount, this`askCount, this`model, bids, asks
      ensures Valid() && model == BookSpec.ApplyLevel(old(model), Level(price, qty), isAsk)
    {
      if isAsk {
        askCount := ApplyLevelTo(asks, askCount, price, qty, true);
      } else {
        bidCount := ApplyLevelTo(bids, bidCount, price, qty, false);
      }
      model := BookSpec.ApplyLevel(model, Level(price, qty), isAsk);
    }

    method BeginBatch()
      requires Valid()
      modifies this`pendingBidCount, this`pendingAskCount, this`batchActive, this`model
      ensures Valid() && model == BookSpec.BeginBatch(old(model))
    {
      pendingBidCount := 0;
      pendingAskCount := 0;
      batchActive := true;
      model := BookSpec.BeginBatch(model);
    }

    method BufferLevel(price: real, qty: real, isAsk: bool)
      requires Valid()
      modifies this`pendingBidCount, this`pendingAskCount, this`model, pendingBids, pendingAsks
      ensures Valid() && model == BookSpec.BufferLevel(old(model), Level(price, qty), isAsk)
    {
      if isAsk {
        if pendingAskCount >= MAX_LEVELS { return; }
        pendingAsks[pendingAskCount] := Level(price, qty);
        pendingAskCount := pendingAskCount + 1;
      } else {
        if pendingBidCount >= MAX_LEVELS { return; }
        pendingBids[pendingBidCount] := Level(price, qty);
        pendingBidCount := pendingBidCount + 1;
      }
      model := BookSpec.BufferLevel(model, Level(price, qty), isAsk);
    }

    /** The loop of ApplyLevel calls that CommitBatch and LimitOrderBook run over one side. */
    method ApplyLevels(levels: seq<Level>, isAsk: bool)
      requires Valid()
      modifies this`bidCount, this`askCount, this`model, bids, asks
      ensures Valid() && model == BookSpec.ApplySide(old(model), levels, isAsk)
    {
      ghost var b := model;
      for i := 0 to |levels|
        invariant Valid() && model == BookSpec.ApplySide(b, levels[..i], isAsk)
      {
        ApplyLevel(levels[i].price, levels[i].qty, isAsk);
        ApplySideSnoc(b, levels, i, isAsk);
      }
      assert levels[..|levels|] == levels;
    }

    method CommitBatch()
      requires Valid()
      modifies this, bids, asks
      ensures Valid() && model == BookSpec.CommitBatch(old(model))
    {
      ApplyLevels(pendingBids[..pendingBidCount], false);
      ApplyLevels(pendingAsks[..pendingAskCount], true);
      CancelBatch();
    }

    method CancelBatch()
      requires Valid()
      modifies this`pendingBidCount, this`pendingAskCount, this`batchActive, this`model
      ensures Valid() && model == BookSpec.CancelBatch(old(model))
    {
      pendingBidCount := 0;
      pendingAskCount := 0;
      batchActive := false;
      model := BookSpec.CancelBatch(model);
    }

    method Clear()
      requires Valid()
      modifies this
      ensures Valid() && model == BookSpec.Clear(old(model))
    {
      bidCount := 0;
      askCount := 0;
      pendingBidCount := 0;
      pendingAskCount := 0;
      batchActive := false;
      model := BookSpec.Clear(model);
    }

    /** The levels of the event are the book's, best first on both sides. */
    method SnapshotTo(exchangeTs: nat) returns (out: DepthEvent)
      requires Valid()
      ensures out.exchangeTimestamp == exchangeTs
      ensures Shows(out, model.sides)
    {
      var outBids: seq<Level>, outAsks: seq<Level> := [], [];
      for i := 0 to bidCount
        invariant outBids == bids[..i]
      {
        outBids := outBids + [bids[i]];
      }
      for i := 0 to askCount
        invariant outAsks == asks[..i]
      {
        outAsks := outAsks + [asks[i]];
      }
      out := DepthEvent(exchangeTs, outBids, outAsks);
    }
  }

  datatype DepthEvent = DepthEvent(exchangeTimestamp: nat, bids: seq<Level>, asks: seq<Level>)

  /** The event carries these sides, strictly ordered; by `Canonical` it is the only one that does. */
  ghost predicate Shows(e: DepthEvent, sides: Sides) {
    && WellFormed(e.bids, false) && AsMap(e.bids) == sides.bids
    && WellFormed(e.asks, true) && AsMap(e.asks) == sides.asks
  }

  /** Two events showing the same sides carry the same levels. */
  lemma ShownOnce(a: DepthEvent, b: DepthEvent, sides: Sides)
    requires Shows(a, sides) && Shows(b, sides)
    ensures a.bids == b.bids && a.asks == b.asks
  {
    Canonical(a.bids, b.bids, false);
    Canonical(a.asks, b.asks, true);
  }

  /** The gateway's callbacks for one symbol; `depthQueue` holds the events offered to the depth ring. */
  class MyCallbacks {
    const book: RithmicOrderBook
    const maxDepthLevels: nat
    var depthQueue: seq<DepthEvent>
    ghost var trace: seq<Callback>

    ghost predicate Valid()
      reads this, book, book.bids, book.asks, book.pendingBids, book.pendingAsks
    {
      book.Valid() && book.model == Run(trace, maxDepthLevels).book
    }

    constructor (maxDepth: nat)
      ensures Valid() && trace == [] && depthQueue == [] && maxDepthLevels == maxDepth
    {
      book := new RithmicOrderBook();
      maxDepthLevels := maxDepth;
      depthQueue, trace := [], [];
    }

    /** A zero timestamp is replaced by the wall clock `now`, or suppresses the push of an empty book. */
    method PushSnapshot(exchangeTs: nat, now: nat)
      requires book.Valid()
      modifies this`depthQueue
      ensures var sides := book.model.sides;
              if exchangeTs == 0 && sides == EMPTY then depthQueue == old(depthQueue)
              else
                && |depthQueue| == |old(depthQueue)| + 1 && depthQueue[..|old(depthQueue)|] == old(depthQueue)
                && Shows(depthQueue[|old(depthQueue)|], sides)
                && depthQueue[|old(depthQueue)|].exchangeTimestamp == (if exchangeTs == 0 then now else exchangeTs)
    {
      EmptySides(book.bids[..book.bidCount], book.asks[..book.askCount]);
      var resolved := exchangeTs;
      if exchangeTs == 0 {
        if book.bidCount == 0 && book.askCount == 0 {
          return;
        }
        resolved := now;
      }
      var depth := book.SnapshotTo(resolved);
      depthQueue := depthQueue + [depth];
    }

    /** What every callback promises: the new book, and that what it pushes are committed updates with their time. */
    twostate predicate Handled(cb: Callback, exchangeTs: nat, now: nat)
      reads this, book, book.bids, book.asks, book.pendingBids, book.pendingAsks
    {
      && Valid() && trace == old(trace) + [cb]
      && var reading := Read(trace, maxDepthLevels);
         if || !Completes(Read(old(trace), maxDepthLevels).open, cb)
            || (exchangeTs == 0 && Replay(reading.committed) == EMPTY)
         then depthQueue == old(depthQueue)
         else
           && |depthQueue| == |old(depthQueue)| + 1 && depthQueue[..|old(depthQueue)|] == old(depthQueue)
           && Shows(depthQueue[|old(depthQueue)|], Replay(reading.committed))
           && depthQueue[|old(depthQueue)|].exchangeTimestamp == (if exchangeTs == 0 then now else exchangeTs)
    }

    method Buffer(q: QuoteInfo, isAsk: bool)
      requires book.Valid()
      modifies book, book.pendingBids, book.pendingAsks
      ensures book.Valid() && book.model == Buffered(old(book.model), q, isAsk)
    {
      if q.priceFlag {
        book.BufferLevel(q.price, q.Level().qty, isAsk);
      }
    }

    /** The book side of the switch on the update type. */
    method ApplyQuote(q: QuoteInfo, isAsk: bool)
      requires book.Valid()
      modifies book, book.bids, book.asks, book.pendingBids, book.pendingAsks
      ensures book.Valid() && book.model == BookSpec.OnQuote(old(book.model), q, isAsk)
    {
      if q.updateType == UPDATE_SOLO {
        if q.priceFlag {
          book.ApplyLevel(q.price, q.Level().qty, isAsk);
        }
      } else if q.updateType == UPDATE_BEGIN {
        if book.batchActive {
          book.CancelBatch();
        }
        book.BeginBatch();
        Buffer(q, isAsk);
      } else if q.updateType == UPDATE_MIDDLE {
        if !book.batchActive {
          book.BeginBatch();
        }
        Buffer(q, isAsk);
      } else if q.updateType == UPDATE_END {
        Buffer(q, isAsk);
        book.CommitBatch();
      } else if q.updateType == UPDATE_CLEAR {
        book.Clear();
      }
    }

    /** AskQuote (isAsk) and BidQuote, which differ only in the side. */
    method OnQuote(q: QuoteInfo, isAsk: bool, exchangeTs: nat, now: nat)
      requires Valid()
      modifies this, book, book.bids, book.asks, book.pendingBids, book.pendingAsks
      ensures Handled(Quote(isAsk, q), exchangeTs, now)
    {
      RunStep(trace, Quote(isAsk, q), maxDepthLevels);
      trace := trace + [Quote(isAsk, q)];
      ApplyQuote(q, isAsk);
      if q.updateType == UPDATE_SOLO || q.updateType == UPDATE_END || q.updateType == UPDATE_CLEAR {
        PushSnapshot(exchangeTs, now);
      }
    }

    method OnEndQuote(exchangeTs: nat, now: nat)
      requires Valid()
      modifies this, book, book.bids, book.asks, book.pendingBids, book.pendingAsks
      ensures Handled(EndQuote, exchangeTs, now)
    {
      RunStep(trace, EndQuote, maxDepthLevels);
      trace := trace + [EndQuote];
      if book.batchActive {
        book.CommitBatch();
        PushSnapshot(exchangeTs, now);
      }
    }

    /** The loop over one side's arrays: the first entries, capped by the depth and by MAX_LEVELS. */
    method ApplyEntries(entries: seq<(real, int)>, isAsk: bool)
      requires book.Valid()
      modifies book, book.bids, book.asks
      ensures book.Valid()
      ensures book.model == BookSpec.ApplySide(old(book.model), Considered(entries, maxDepthLevels), isAsk)
    {
      var maxd := maxDepthLevels;
      if maxd > MAX_LEVELS {
        maxd := MAX_LEVELS;
      }
      var n := |entries|;
      if n > maxd {
        n := maxd;
      }
      ghost var b, levels := book.model, Considered(entries, maxDepthLevels);
      for i := 0 to n
        invariant book.Valid() && book.model == BookSpec.ApplySide(b, levels[..i], isAsk)
      {
        book.ApplyLevel(entries[i].0, entries[i].1 as real, isAsk);
        ApplySideSnoc(b, levels, i, isAsk);
      }
      assert levels[..n] == levels;
    }

    /** The book side of LimitOrderBook: an image replaces both sides, anything else updates levels. */
    method ApplyLimitOrderBook(iType: int, asks: seq<(real, int)>, bids: seq<(real, int)>)
      requires book.Valid()
      requires iType == MD_IMAGE ==> Sorted(Positive(asks), true) && Sorted(Positive(bids), false)
      modifies book, book.bids, book.asks
      ensures book.Valid()
      ensures book.model == BookSpec.OnLimitOrderBook(old(book.model), iType, asks, bids, maxDepthLevels)
    {
      if iType == MD_IMAGE {
        book.ApplyImage(asks, true);
        book.ApplyImage(bids, false);
      } else {
        ApplyEntries(asks, true);
        ApplyEntries(bids, false);
      }
    }

    method OnLimitOrderBook(iType: int, asks: seq<(real, int)>, bids: seq<(real, int)>, exchangeTs: nat, now: nat)
      requires Valid()
      requires iType == MD_IMAGE ==> Sorted(Positive(asks), true) && Sorted(Positive(bids), false)
      modifies this, book, book.bids, book.asks, book.pendingBids, book.pendingAsks
      ensures Handled(LimitOrderBook(iType, asks, bids), exchangeTs, now)
    {
      RunStep(trace, LimitOrderBook(iType, asks, bids), maxDepthLevels);
      trace := trace + [LimitOrderBook(iType, asks, bids)];
      ApplyLimitOrderBook(iType, asks, bids);
      PushSnapshot(exchangeTs, now);
    }
  }

  lemma EmptySides(bids: seq<Level>, asks: seq<Level>)
    requires WellFormed(bids, false) && WellFormed(asks, true)
    ensures Sides(AsMap(bids), AsMap(asks)) == EMPTY <==> bids == [] && asks == []
  {
    SortedIsDistinct(bids, false);
    SortedIsDistinct(asks, true);
    AsMapSize(bids);
    AsMapSize(asks);
  }

  /** One more callback: the run's book moves as specified, and a push shows the committed updates. */
  lemma RunStep(trace: seq<Callback>, cb: Callback, maxDepth: nat)
    ensures Run(trace + [cb], maxDepth).book == OnCallback(Run(trace, maxDepth).book, cb, maxDepth)
    ensures Run(trace + [cb], maxDepth).book.sides == Replay(Read(trace + [cb], maxDepth).committed)
    ensures Run(trace, maxDepth).book.batchActive == Read(trace, maxDepth).open
  {
    assert (trace + [cb])[..|trace|] == trace;
    SnapshotsAreCommittedUpdates(trace, maxDepth);
    SnapshotsAreCommittedUpdates(trace + [cb], maxDepth);
  }
}
