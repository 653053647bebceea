/**
 What single callbacks of src/rithmic_gateway/rithmic_callbacks.cpp do to the
 book, price by price and on their own arguments; and that a batch does what
 its quotes would do one by one.
 */
module BookCallbacks {
  import opened Machine
  import opened PriceLevels
  import opened BookSpec

  /** `m'` is `m` at price `p`. */
  predicate SameAt(m: map<real, real>, m': map<real, real>, p: real) {
    (p in m <==> p in m') && (p in m ==> m[p] == m'[p])
  }

  /** After one update of `price` to `size`, with `room` for a new price. */
  predicate SetAt(m: map<real, real>, m': map<real, real>, price: real, size: int, room: bool) {
    && (price in m' <==> size > 0 && (price in m || room))
    && (price in m' ==> m'[price] == size as real)
  }

  // ---- Incremental LimitOrderBook ----

  /** A side after the first `n` entries of an array. */
  function AfterEntries(m: map<real, real>, entries: seq<(real, int)>, n: nat): map<real, real>
    requires n <= |entries|
  {
    if n == 0 then m else BoundedUpdate(AfterEntries(m, entries, n - 1), entries[n - 1].0, entries[n - 1].1 as real)
  }

  ghost predicate DistinctPrices(entries: seq<(real, int)>, n: nat) {
    forall i, j | 0 <= i < j < n && j < |entries| :: entries[i].0 != entries[j].0
  }

  lemma {:induction false} LevelsApply(m: map<real, real>, entries: seq<(real, int)>, levels: seq<Level>)
    requires |levels| <= |entries|
    requires forall i | 0 <= i < |levels| :: levels[i] == Level(entries[i].0, entries[i].1 as real)
    ensures ApplyAll(m, levels) == AfterEntries(m, entries, |levels|)
    decreases |levels|
  {
    if levels != [] {
      LevelsApply(m, entries, levels[..|levels| - 1]);
    }
  }

  /** One update sets its own price and leaves the others alone. */
  lemma OneUpdate(m: map<real, real>, price: real, size: int, p: real)
    ensures var m' := BoundedUpdate(m, price, size as real);
            if p == price then SetAt(m, m', price, size, |m| < MAX_LEVELS) else SameAt(m, m', p)
  {
  }

  lemma {:induction false} Untouched(m: map<real, real>, entries: seq<(real, int)>, n: nat, p: real)
    requires n <= |entries| && forall i | 0 <= i < n :: entries[i].0 != p
    ensures SameAt(m, AfterEntries(m, entries, n), p)
    decreases n
  {
    if n > 0 {
      Untouched(m, entries, n - 1, p);
      OneUpdate(AfterEntries(m, entries, n - 1), entries[n - 1].0, entries[n - 1].1, p);
    }
  }

  lemma EntryStep(m: map<real, real>, before: map<real, real>, last: (real, int), p: real, size: int, room: bool)
    requires if last.0 == p then last.1 == size && SameAt(m, before, p) && room == (|before| < MAX_LEVELS)
             else SetAt(m, before, p, size, room)
    ensures SetAt(m, BoundedUpdate(before, last.0, last.1 as real), p, size, room)
  {
    OneUpdate(before, last.0, last.1, p);
  }

  /** An entry's price has not been touched before its turn. */
  lemma FirstOfPrice(m: map<real, real>, entries: seq<(real, int)>, n: nat, i: nat)
    requires i < n <= |entries| && DistinctPrices(entries, n)
    ensures SameAt(m, AfterEntries(m, entries, i), entries[i].0)
  {
    Untouched(m, entries, i, entries[i].0);
  }

  lemma EntryNow(m: map<real, real>, entries: seq<(real, int)>, i: nat, room: bool)
    requires i < |entries| && SameAt(m, AfterEntries(m, entries, i), entries[i].0)
    requires room == (|AfterEntries(m, entries, i)| < MAX_LEVELS)
    ensures SetAt(m, AfterEntries(m, entries, i + 1), entries[i].0, entries[i].1, room)
  {
    EntryStep(m, AfterEntries(m, entries, i), entries[i], entries[i].0, entries[i].1, room);
  }

  lemma {:induction false} EntryApplied(m: map<real, real>, entries: seq<(real, int)>, n: nat, i: nat, room: bool)
    requires i < n <= |entries| && DistinctPrices(entries, n)
    requires room == (|AfterEntries(m, entries, i)| < MAX_LEVELS)
    ensures SetAt(m, AfterEntries(m, entries, n), entries[i].0, entries[i].1, room)
    decreases n
  {
    if i < n - 1 {
      EntryApplied(m, entries, n - 1, i, room);
      EntryStep(m, AfterEntries(m, entries, n - 1), entries[n - 1], entries[i].0, entries[i].1, room);
    } else {
      FirstOfPrice(m, entries, n, i);
      EntryNow(m, entries, i, room);
    }
  }

  function Depth(entries: seq<(real, int)>, maxDepth: nat): nat {
    Min(|entries|, Min(maxDepth, MAX_LEVELS))
  }

  /** The book after one more callback. */
  function After(trace: seq<Callback>, cb: Callback, maxDepth: nat): Sides {
    Run(trace + [cb], maxDepth).book.sides
  }

  lemma AfterIs(trace: seq<Callback>, cb: Callback, maxDepth: nat)
    ensures After(trace, cb, maxDepth) == OnCallback(Run(trace, maxDepth).book, cb, maxDepth).sides
  {
    assert (trace + [cb])[..|trace|] == trace;
  }

  lemma IncrementalSide(b: Book, iType: int, asks: seq<(real, int)>, bids: seq<(real, int)>, maxDepth: nat, isAsk: bool)
    requires iType != MD_IMAGE
    ensures var entries := if isAsk then asks else bids;
            OnLimitOrderBook(b, iType, asks, bids, maxDepth).sides.Of(isAsk)
            == AfterEntries(b.sides.Of(isAsk), entries, Depth(entries, maxDepth))
  {
    var entries := if isAsk then asks else bids;
    var levels := Considered(entries, maxDepth);
    LevelsApply(b.sides.Of(isAsk), entries, levels);
  }

  /**
   An incremental LimitOrderBook with distinct prices on a side, in any trace: each of the first `n` entries of the
   array, capped by the depth and by MAX_LEVELS, sets its price to its size if that is positive and the price was there
   or there was room when its turn came, and otherwise leaves it absent; all other prices keep their quantity.
   */
  lemma IncrementalUpdate(trace: seq<Callback>, iType: int, asks: seq<(real, int)>, bids: seq<(real, int)>,
                          maxDepth: nat, isAsk: bool, p: real)
    requires iType != MD_IMAGE
    requires var entries := if isAsk then asks else bids; DistinctPrices(entries, Depth(entries, maxDepth))
    ensures var m, entries := Run(trace, maxDepth).book.sides.Of(isAsk), if isAsk then asks else bids;
            var m' := After(trace, LimitOrderBook(iType, asks, bids), maxDepth).Of(isAsk);
            && (forall i: nat | i < Depth(entries, maxDepth) ::
                  SetAt(m, m', entries[i].0, entries[i].1, |AfterEntries(m, entries, i)| < MAX_LEVELS))
            && ((forall i: nat | i < Depth(entries, maxDepth) :: entries[i].0 != p) ==> SameAt(m, m', p))
  {
    var m, entries := Run(trace, maxDepth).book.sides.Of(isAsk), if isAsk then asks else bids;
    AfterIs(trace, LimitOrderBook(iType, asks, bids), maxDepth);
    IncrementalSide(Run(trace, maxDepth).book, iType, asks, bids, maxDepth, isAsk);
    forall i: nat | i < Depth(entries, maxDepth)
      ensures SetAt(m, AfterEntries(m, entries, Depth(entries, maxDepth)), entries[i].0, entries[i].1,
                    |AfterEntries(m, entries, i)| < MAX_LEVELS)
    {
      EntryApplied(m, entries, Depth(entries, maxDepth), i, |AfterEntries(m, entries, i)| < MAX_LEVELS);
    }
    if forall i: nat | i < Depth(entries, maxDepth) :: entries[i].0 != p {
      Untouched(m, entries, Depth(entries, maxDepth), p);
    }
  }

  // ---- Images ----

  /** Where the levels of an image come from: in order, from exactly the entries of positive size. */
  ghost predicate Picks(entries: seq<(real, int)>, levels: seq<Level>, from: seq<nat>) {
    && |from| == |levels|
    && (forall k | 0 <= k < |from| :: from[k] < |entries| && entries[from[k]].1 > 0
                                      && levels[k] == Level(entries[from[k]].0, entries[from[k]].1 as real))
    && (forall j, k | 0 <= j < k < |from| :: from[j] < from[k])
    && (forall i: nat | i < |entries| && entries[i].1 > 0 :: i in from)
  }

  lemma PicksOn(entries: seq<(real, int)>, levels: seq<Level>, from: seq<nat>, e: (real, int))
    requires Picks(entries, levels, from)
    ensures if e.1 > 0 then Picks(entries + [e], levels + [Level(e.0, e.1 as real)], from + [|entries|])
            else Picks(entries + [e], levels, from)
  {
    var all := entries + [e];
    assert all[|entries|] == e && forall i: nat | i < |entries| :: all[i] == entries[i];
    if e.1 > 0 {
      assert (from + [|entries|])[|from|] == |entries|;
      assert forall i | i in from :: i in from + [|entries|];
    }
  }

  lemma {:induction false} PositiveIs(entries: seq<(real, int)>) returns (from: seq<nat>)
    ensures Picks(entries, Positive(entries), from)
    decreases |entries|
  {
    from := [];
    if entries != [] {
      var init, last := entries[..|entries| - 1], entries[|entries| - 1];
      assert entries == init + [last];
      from := PositiveIs(init);
      PicksOn(init, Positive(init), from, last);
      if last.1 > 0 {
        from := from + [|init|];
      }
    }
  }

  lemma ImageMap(entries: seq<(real, int)>, from: seq<nat>, isAsk: bool)
    requires Picks(entries, Positive(entries), from) && Sorted(Positive(entries), isAsk)
    ensures var m := AsMap(Truncated(Positive(entries)));
            && |m| == Min(|from|, MAX_LEVELS)
            && (forall k | 0 <= k < |from| && k < MAX_LEVELS ::
                  entries[from[k]].0 in m && m[entries[from[k]].0] == entries[from[k]].1 as real)
  {
    var side := Truncated(Positive(entries));
    assert Sorted(side, isAsk);
    SortedIsDistinct(side, isAsk);
    AsMapSize(side);
    forall k | 0 <= k < |side|
      ensures entries[from[k]].0 in AsMap(side) && AsMap(side)[entries[from[k]].0] == entries[from[k]].1 as real
    {
      AsMapAt(side, k);
    }
  }

  lemma ImageSide(trace: seq<Callback>, asks: seq<(real, int)>, bids: seq<(real, int)>, maxDepth: nat, isAsk: bool)
    ensures After(trace, LimitOrderBook(MD_IMAGE, asks, bids), maxDepth).Of(isAsk)
            == AsMap(Truncated(Positive(if isAsk then asks else bids)))
  {
    AfterIs(trace, LimitOrderBook(MD_IMAGE, asks, bids), maxDepth);
  }

  /** A sorted image replaces the side: its price-to-quantity pairs are the first MAX_LEVELS of positive size. */
  lemma ImageUpdate(trace: seq<Callback>, asks: seq<(real, int)>, bids: seq<(real, int)>, maxDepth: nat, isAsk: bool)
    returns (from: seq<nat>)
    requires var entries := if isAsk then asks else bids; Sorted(Positive(entries), isAsk)
    ensures var entries, m := if isAsk then asks else bids,
                              After(trace, LimitOrderBook(MD_IMAGE, asks, bids), maxDepth).Of(isAsk);
            && Picks(entries, Positive(entries), from)
            && (forall k | 0 <= k < |from| && k < MAX_LEVELS ::
                  entries[from[k]].0 in m && m[entries[from[k]].0] == entries[from[k]].1 as real)
            && |m| == Min(|from|, MAX_LEVELS)
  {
    var entries := if isAsk then asks else bids;
    ImageSide(trace, asks, bids, maxDepth, isAsk);
    from := PositiveIs(entries);
    ImageMap(entries, from, isAsk);
  }

  // ---- Quotes ----

  /** A solo quote: no price, no change; no size means size 0, which deletes. */
  lemma SoloQuote(trace: seq<Callback>, q: QuoteInfo, isAsk: bool, maxDepth: nat, p: real)
    requires q.updateType == UPDATE_SOLO
    ensures var s, s' := Run(trace, maxDepth).book.sides, After(trace, Quote(isAsk, q), maxDepth);
            && s'.Of(!isAsk) == s.Of(!isAsk)
            && (if q.priceFlag && p == q.price
                then SetAt(s.Of(isAsk), s'.Of(isAsk), p, if q.sizeFlag then q.size else 0, |s.Of(isAsk)| < MAX_LEVELS)
                else SameAt(s.Of(isAsk), s'.Of(isAsk), p))
  {
    AfterIs(trace, Quote(isAsk, q), maxDepth);
  }

  /** A clearing quote empties the book, and one of an unknown type changes nothing. */
  lemma OtherQuote(trace: seq<Callback>, q: QuoteInfo, isAsk: bool, maxDepth: nat)
    ensures q.updateType == UPDATE_CLEAR ==> After(trace, Quote(isAsk, q), maxDepth) == Sides(map[], map[])
    ensures q.updateType < UPDATE_SOLO || q.updateType > UPDATE_CLEAR ==>
              Run(trace + [Quote(isAsk, q)], maxDepth) == Run(trace, maxDepth)
  {
    assert (trace + [Quote(isAsk, q)])[..|trace|] == trace;
  }

  /**
   What is pushed: one snapshot of the book after a solo, ending or clearing quote, after an EndQuote with a batch open
   and after every LimitOrderBook; none after a quote that begins or continues a batch.
   */
  lemma PushesOnce(trace: seq<Callback>, cb: Callback, maxDepth: nat)
    ensures var before, after := Run(trace, maxDepth), Run(trace + [cb], maxDepth);
            var pushes := match cb
                          case Quote(_, q) => q.updateType == 1 || q.updateType == 4 || q.updateType == 5
                          case EndQuote => before.book.batchActive
                          case LimitOrderBook(_, _, _) => true;
            after.pushed == if pushes then before.pushed + [after.book.sides] else before.pushed
  {
    assert (trace + [cb])[..|trace|] == trace;
  }

  // ---- An ending quote ----

  lemma CommitLater(r: Reading, news: seq<Update>)
    ensures Commit(r, news).committed == Commit(r.(open := true, batch := r.batch + news), []).committed
  {
    assert (r.batch + news) + [] == r.batch + news;
  }

  /** The feed after one more callback, by what is read of it. */
  lemma MiddleThenEndRead(trace: seq<Callback>, q: QuoteInfo, isAsk: bool, maxDepth: nat, middle: Callback)
    requires middle == Quote(isAsk, q.(updateType := UPDATE_MIDDLE))
    ensures Read(trace + [middle] + [EndQuote], maxDepth).committed
            == Commit(Read(trace, maxDepth), Sets(q.Levels(), isAsk)).committed
    ensures !Read(trace + [middle] + [EndQuote], maxDepth).open
  {
    ReadSnoc(trace, middle, maxDepth);
    SameLevels(q, UPDATE_MIDDLE);
    ReadSnoc(trace + [middle], EndQuote, maxDepth);
    CommitLater(Read(trace, maxDepth), Sets(q.Levels(), isAsk));
  }

  lemma EndingRead(trace: seq<Callback>, q: QuoteInfo, isAsk: bool, maxDepth: nat, end: Callback)
    requires end == Quote(isAsk, q.(updateType := UPDATE_END))
    ensures Read(trace + [end], maxDepth).committed == Commit(Read(trace, maxDepth), Sets(q.Levels(), isAsk)).committed
    ensures !Read(trace + [end], maxDepth).open
  {
    ReadSnoc(trace, end, maxDepth);
    SameLevels(q, UPDATE_END);
  }

  /** An ending quote does what the same quote as a Middle and then an EndQuote do, with a batch open or not. */
  lemma EndIsMiddleThenEnd(trace: seq<Callback>, q: QuoteInfo, isAsk: bool, maxDepth: nat)
    ensures var end := Quote(isAsk, q.(updateType := UPDATE_END));
            var middle := Quote(isAsk, q.(updateType := UPDATE_MIDDLE));
            var one, two := Run(trace + [end], maxDepth), Run(trace + [middle] + [EndQuote], maxDepth);
            one.book.sides == two.book.sides && !one.book.batchActive && !two.book.batchActive
  {
    var end, middle := Quote(isAsk, q.(updateType := UPDATE_END)), Quote(isAsk, q.(updateType := UPDATE_MIDDLE));
    EndingRead(trace, q, isAsk, maxDepth, end);
    MiddleThenEndRead(trace, q, isAsk, maxDepth, middle);
    SidesRead(trace + [end], maxDepth);
    SidesRead(trace + [middle] + [EndQuote], maxDepth);
  }

  // ---- A batch against its quotes one by one ----

  function Send(quote: (bool, QuoteInfo), updateType: int): Callback {
    Quote(quote.0, quote.1.(updateType := updateType))
  }

  /** Quotes, each a side and its content, sent one by one. */
  function Solos(quotes: seq<(bool, QuoteInfo)>): seq<Callback> {
    if quotes == [] then [] else Solos(quotes[..|quotes| - 1]) + [Send(quotes[|quotes| - 1], UPDATE_SOLO)]
  }

  /** The same as Begin, then middles. */
  function Opening(quotes: seq<(bool, QuoteInfo)>): seq<Callback> {
    if quotes == [] then []
    else
      Opening(quotes[..|quotes| - 1])
      + [Send(quotes[|quotes| - 1], if |quotes| == 1 then UPDATE_BEGIN else UPDATE_MIDDLE)]
  }

  /** The quotes as one batch, closed by an EndQuote. */
  function Batch(quotes: seq<(bool, QuoteInfo)>): seq<Callback> {
    Opening(quotes) + [EndQuote]
  }

  function News(quotes: seq<(bool, QuoteInfo)>): seq<Update> {
    if quotes == [] then []
    else
      var last := quotes[|quotes| - 1];
      News(quotes[..|quotes| - 1]) + Sets(last.1.Levels(), last.0)
  }

  lemma ReadSnoc(trace: seq<Callback>, cb: Callback, maxDepth: nat)
    ensures var r, r' := Read(trace, maxDepth), Read(trace + [cb], maxDepth);
            var e := ReadCallback(r, cb, maxDepth);
            r'.committed == e.committed && r'.open == e.open && r'.batch == e.batch
  {
    assert (trace + [cb])[..|trace|] == trace;
  }

  lemma SoloRead(trace: seq<Callback>, quote: (bool, QuoteInfo), maxDepth: nat)
    ensures Read(trace + [Send(quote, UPDATE_SOLO)], maxDepth).committed
            == Read(trace, maxDepth).committed + Sets(quote.1.Levels(), quote.0)
  {
    ReadSnoc(trace, Send(quote, UPDATE_SOLO), maxDepth);
    SoloReadQuote(Read(trace, maxDepth), quote.1.(updateType := UPDATE_SOLO), quote.0);
    SameLevels(quote.1, UPDATE_SOLO);
  }

  lemma SoloReadQuote(r: Reading, q: QuoteInfo, isAsk: bool)
    requires q.updateType == UPDATE_SOLO
    ensures ReadQuote(r, q, isAsk).committed == r.committed + Sets(q.Levels(), isAsk)
  {
  }

  /** How a quote is sent does not change its content. */
  lemma SameLevels(q: QuoteInfo, updateType: int)
    ensures q.(updateType := updateType).Levels() == q.Levels()
  {
  }

  lemma {:induction false} SolosRead(trace: seq<Callback>, quotes: seq<(bool, QuoteInfo)>, maxDepth: nat,
                                     all: seq<Callback>)
    requires all == trace + Solos(quotes)
    ensures Read(all, maxDepth).committed == Read(trace, maxDepth).committed + News(quotes)
    decreases |quotes|
  {
    if quotes == [] {
      assert all == trace;
    } else {
      var init, last := quotes[..|quotes| - 1], quotes[|quotes| - 1];
      var before := trace + Solos(init);
      SolosRead(trace, init, maxDepth, before);
      assert all == before + [Send(last, UPDATE_SOLO)];
      SoloRead(before, last, maxDepth);
      Associates(Read(trace, maxDepth).committed, News(init), Sets(last.1.Levels(), last.0));
    }
  }

  lemma Associates<T>(a: seq<T>, b: seq<T>, c: seq<T>)
    ensures (a + b) + c == a + (b + c)
  {
  }

  lemma {:induction false} OpeningRead(trace: seq<Callback>, quotes: seq<(bool, QuoteInfo)>, maxDepth: nat)
    requires quotes != []
    ensures var r, r' := Read(trace, maxDepth), Read(trace + Opening(quotes), maxDepth);
            r'.committed == r.committed && r'.open && r'.batch == News(quotes)
    decreases |quotes|
  {
    var init, last := quotes[..|quotes| - 1], quotes[|quotes| - 1];
    var cb := Send(last, if |quotes| == 1 then UPDATE_BEGIN else UPDATE_MIDDLE);
    assert trace + Opening(quotes) == (trace + Opening(init)) + [cb];
    ReadSnoc(trace + Opening(init), cb, maxDepth);
    if |quotes| == 1 {
      assert trace + Opening(init) == trace;
      assert News(init) + Sets(last.1.Levels(), last.0) == Sets(last.1.Levels(), last.0);
    } else {
      OpeningRead(trace, init, maxDepth);
    }
  }

  lemma {:induction false} AcceptedWhole(batch: seq<Update>)
    requires AllSets(batch) && Count(batch, true) <= MAX_LEVELS && Count(batch, false) <= MAX_LEVELS
    ensures Accepted(batch) == batch
    decreases |batch|
  {
    if batch != [] {
      AcceptedWhole(batch[..|batch| - 1]);
    }
  }

  /** How many of the quotes carry a price for a side. */
  function Priced(quotes: seq<(bool, QuoteInfo)>, isAsk: bool): nat {
    if quotes == [] then 0
    else
      var last := quotes[|quotes| - 1];
      Priced(quotes[..|quotes| - 1], isAsk) + if last.1.priceFlag && last.0 == isAsk then 1 else 0
  }

  lemma {:induction false} NewsCount(quotes: seq<(bool, QuoteInfo)>, isAsk: bool)
    ensures AllSets(News(quotes)) && Count(News(quotes), isAsk) == Priced(quotes, isAsk)
    decreases |quotes|
  {
    if quotes != [] {
      var init, last := quotes[..|quotes| - 1], quotes[|quotes| - 1];
      NewsCount(init, isAsk);
      SetsOne(last.1, last.0);
      if last.1.priceFlag {
        AcceptedSnoc(News(init), Set(last.0, last.1.Level()));
      } else {
        assert News(init) + [] == News(init);
      }
    }
  }

  lemma {:induction false} OpeningSilent(trace: seq<Callback>, quotes: seq<(bool, QuoteInfo)>, maxDepth: nat)
    ensures var before, after := Run(trace, maxDepth), Run(trace + Opening(quotes), maxDepth);
            after.pushed == before.pushed && (quotes != [] ==> after.book.batchActive)
    decreases |quotes|
  {
    if quotes == [] {
      assert trace + Opening(quotes) == trace;
    } else {
      var init := quotes[..|quotes| - 1];
      var cb := Send(quotes[|quotes| - 1], if |quotes| == 1 then UPDATE_BEGIN else UPDATE_MIDDLE);
      OpeningSilent(trace, init, maxDepth);
      assert trace + Opening(quotes) == (trace + Opening(init)) + [cb];
      PushesOnce(trace + Opening(init), cb, maxDepth);
      OpensBatch(trace + Opening(init), cb, maxDepth);
    }
  }

  lemma OpensBatch(trace: seq<Callback>, cb: Callback, maxDepth: nat)
    requires cb.Quote? && (cb.info.updateType == UPDATE_BEGIN || cb.info.updateType == UPDATE_MIDDLE)
    ensures Run(trace + [cb], maxDepth).book.batchActive
  {
    assert (trace + [cb])[..|trace|] == trace;
  }

  lemma BatchRead(trace: seq<Callback>, quotes: seq<(bool, QuoteInfo)>, maxDepth: nat)
    requires quotes != [] && Priced(quotes, true) <= MAX_LEVELS && Priced(quotes, false) <= MAX_LEVELS
    ensures Read(trace + Batch(quotes), maxDepth).committed == Read(trace, maxDepth).committed + News(quotes)
    ensures !Read(trace + Batch(quotes), maxDepth).open
  {
    OpeningRead(trace, quotes, maxDepth);
    NewsAccepted(quotes);
    EndRead(trace + Opening(quotes), maxDepth);
    assert trace + Batch(quotes) == (trace + Opening(quotes)) + [EndQuote];
  }

  lemma NewsAccepted(quotes: seq<(bool, QuoteInfo)>)
    requires Priced(quotes, true) <= MAX_LEVELS && Priced(quotes, false) <= MAX_LEVELS
    ensures Accepted(News(quotes)) == News(quotes)
  {
    NewsCount(quotes, true);
    NewsCount(quotes, false);
    AcceptedWhole(News(quotes));
  }

  lemma EndRead(trace: seq<Callback>, maxDepth: nat)
    requires Read(trace, maxDepth).open
    ensures var r, r' := Read(trace, maxDepth), Read(trace + [EndQuote], maxDepth);
            r'.committed == r.committed + Accepted(r.batch) && !r'.open
  {
    ReadSnoc(trace, EndQuote, maxDepth);
    assert Read(trace, maxDepth).batch + [] == Read(trace, maxDepth).batch;
  }

  lemma SidesRead(trace: seq<Callback>, maxDepth: nat)
    ensures Run(trace, maxDepth).book.sides == Replay(Read(trace, maxDepth).committed)
    ensures Run(trace, maxDepth).book.batchActive == Read(trace, maxDepth).open
  {
    SnapshotsAreCommittedUpdates(trace, maxDepth);
  }

  lemma BatchPushes(trace: seq<Callback>, quotes: seq<(bool, QuoteInfo)>, maxDepth: nat)
    requires quotes != []
    ensures var batched := Run(trace + Batch(quotes), maxDepth);
            batched.pushed == Run(trace, maxDepth).pushed + [batched.book.sides]
  {
    OpeningSilent(trace, quotes, maxDepth);
    PushesOnce(trace + Opening(quotes), EndQuote, maxDepth);
    assert trace + Batch(quotes) == (trace + Opening(quotes)) + [EndQuote];
  }

  /**
   A batch with at most MAX_LEVELS prices a side, sent as Begin, Middles and EndQuote in any trace, leaves the book that
   the same quotes leave when sent one by one, and pushes that book once and nothing before.
   */
  lemma BatchIsSolos(trace: seq<Callback>, quotes: seq<(bool, QuoteInfo)>, maxDepth: nat)
    requires quotes != [] && Priced(quotes, true) <= MAX_LEVELS && Priced(quotes, false) <= MAX_LEVELS
    ensures var batched, solo := Run(trace + Batch(quotes), maxDepth), Run(trace + Solos(quotes), maxDepth);
            && batched.book.sides == solo.book.sides && !batched.book.batchActive
            && batched.pushed == Run(trace, maxDepth).pushed + [solo.book.sides]
  {
    BatchRead(trace, quotes, maxDepth);
    SolosRead(trace, quotes, maxDepth, trace + Solos(quotes));
    SidesRead(trace + Batch(quotes), maxDepth);
    SidesRead(trace + Solos(quotes), maxDepth);
    BatchPushes(trace, quotes, maxDepth);
  }
}
