/**
 The order book and its market-data callbacks on values: the book that
 src/rithmic_gateway/rithmic_callbacks.cpp maintains through Begin/Middle/End
 batches, and, separately, the plain list of updates a reader of the feed would
 call committed. The results below say that the two always agree.
 */
module BookSpec {
  import opened Machine
  import opened PriceLevels

  datatype Sides = Sides(bids: map<real, real>, asks: map<real, real>) {
    function Of(isAsk: bool): map<real, real> {
      if isAsk then asks else bids
    }

    function With(isAsk: bool, m: map<real, real>): Sides {
      if isAsk then this.(asks := m) else this.(bids := m)
    }
  }

  const EMPTY: Sides := Sides(map[], map[])

  // ---- The book ----

  datatype Book = Book(sides: Sides, pendingBids: seq<Level>, pendingAsks: seq<Level>, batchActive: bool)

  function ApplyAll(m: map<real, real>, levels: seq<Level>): map<real, real> {
    if levels == [] then m
    else
      var last := levels[|levels| - 1];
      BoundedUpdate(ApplyAll(m, levels[..|levels| - 1]), last.price, last.qty)
  }

  function ApplyLevel(b: Book, level: Level, isAsk: bool): Book {
    b.(sides := b.sides.With(isAsk, BoundedUpdate(b.sides.Of(isAsk), level.price, level.qty)))
  }

  function ApplyImage(b: Book, entries: seq<(real, int)>, isAsk: bool): Book {
    b.(sides := b.sides.With(isAsk, AsMap(Truncated(Positive(entries)))))
  }

  function BeginBatch(b: Book): Book {
    b.(pendingBids := [], pendingAsks := [], batchActive := true)
  }

  function BufferLevel(b: Book, level: Level, isAsk: bool): Book {
    if isAsk then
      if |b.pendingAsks| >= MAX_LEVELS then b else b.(pendingAsks := b.pendingAsks + [level])
    else
      if |b.pendingBids| >= MAX_LEVELS then b else b.(pendingBids := b.pendingBids + [level])
  }

  function CommitBatch(b: Book): Book {
    Book(Sides(ApplyAll(b.sides.bids, b.pendingBids), ApplyAll(b.sides.asks, b.pendingAsks)), [], [], false)
  }

  function CancelBatch(b: Book): Book {
    b.(pendingBids := [], pendingAsks := [], batchActive := false)
  }

  function Clear(b: Book): Book {
    Book(EMPTY, [], [], false)
  }

  // ---- Callbacks ----

  const UPDATE_SOLO := 1
  const UPDATE_BEGIN := 2
  const UPDATE_MIDDLE := 3
  const UPDATE_END := 4
  const UPDATE_CLEAR := 5
  const MD_IMAGE := 1

  datatype QuoteInfo = QuoteInfo(updateType: int, priceFlag: bool, price: real, sizeFlag: bool, size: int) {
    function Level(): Level {
      PriceLevels.Level(price, if sizeFlag then size as real else 0.0)
    }

    function Levels(): seq<Level> {
      if priceFlag then [Level()] else []
    }
  }

  /** `Quote` is AskQuote or BidQuote, which differ only in the side; array lengths are those of the sequences. */
  datatype Callback =
    | Quote(isAsk: bool, info: QuoteInfo)
    | EndQuote
    | LimitOrderBook(iType: int, asks: seq<(real, int)>, bids: seq<(real, int)>)

  /** The levels an incremental LimitOrderBook applies: the first `maxDepth`, at most MAX_LEVELS. */
  function Considered(entries: seq<(real, int)>, maxDepth: nat): seq<Level> {
    var n := Min(|entries|, Min(maxDepth, MAX_LEVELS));
    seq(n, i requires 0 <= i < n => Level(entries[i].0, entries[i].1 as real))
  }

  function ApplySide(b: Book, levels: seq<Level>, isAsk: bool): Book {
    b.(sides := b.sides.With(isAsk, ApplyAll(b.sides.Of(isAsk), levels)))
  }

  function Buffered(b: Book, q: QuoteInfo, isAsk: bool): Book {
    if q.priceFlag then BufferLevel(b, q.Level(), isAsk) else b
  }

  function OnQuote(b: Book, q: QuoteInfo, isAsk: bool): Book {
    if q.updateType == UPDATE_SOLO then (if q.priceFlag then ApplyLevel(b, q.Level(), isAsk) else b)
    else if q.updateType == UPDATE_BEGIN then
      Buffered(BeginBatch(if b.batchActive then CancelBatch(b) else b), q, isAsk)
    else if q.updateType == UPDATE_MIDDLE then Buffered(if b.batchActive then b else BeginBatch(b), q, isAsk)
    else if q.updateType == UPDATE_END then CommitBatch(Buffered(b, q, isAsk))
    else if q.updateType == UPDATE_CLEAR then Clear(b)
    else b
  }

  function OnLimitOrderBook(b: Book, iType: int, asks: seq<(real, int)>, bids: seq<(real, int)>, maxDepth: nat): Book {
    if iType == MD_IMAGE then ApplyImage(ApplyImage(b, asks, true), bids, false)
    else ApplySide(ApplySide(b, Considered(asks, maxDepth), true), Considered(bids, maxDepth), false)
  }

  function OnCallback(b: Book, cb: Callback, maxDepth: nat): Book {
    match cb
    case Quote(isAsk, info) => OnQuote(b, info, isAsk)
    case EndQuote => if b.batchActive then CommitBatch(b) else b
    case LimitOrderBook(iType, asks, bids) => OnLimitOrderBook(b, iType, asks, bids, maxDepth)
  }

  /** Whether the callback completes an update and so ends in PushSnapshot, given whether a batch is open. */
  predicate Completes(batchOpen: bool, cb: Callback) {
    match cb
    case Quote(_, info) => info.updateType in {UPDATE_SOLO, UPDATE_END, UPDATE_CLEAR}
    case EndQuote => batchOpen
    case LimitOrderBook(_, _, _) => true
  }

  datatype Feed = Feed(book: Book, pushed: seq<Sides>)

  function Deliver(f: Feed, cb: Callback, maxDepth: nat): Feed {
    var book := OnCallback(f.book, cb, maxDepth);
    Feed(book, if Completes(f.book.batchActive, cb) then f.pushed + [book.sides] else f.pushed)
  }

  function Run(trace: seq<Callback>, maxDepth: nat): Feed {
    if trace == [] then Feed(Book(EMPTY, [], [], false), [])
    else Deliver(Run(trace[..|trace| - 1], maxDepth), trace[|trace| - 1], maxDepth)
  }

  // ---- The reading of a feed as a list of committed updates ----

  datatype Update = Set(isAsk: bool, level: Level) | Image(isAsk: bool, entries: seq<(real, int)>) | Wipe

  /** The updates committed so far, and the batch in progress in arrival order. */
  datatype Reading = Reading(committed: seq<Update>, open: bool, batch: seq<Update>, snapshots: seq<Sides>)

  function Count(batch: seq<Update>, isAsk: bool): nat {
    if batch == [] then 0
    else
      var u := batch[|batch| - 1];
      Count(batch[..|batch| - 1], isAsk) + (if u.Set? && u.isAsk == isAsk then 1 else 0)
  }

  /** The batch without the levels beyond the first MAX_LEVELS of their side. */
  function Accepted(batch: seq<Update>): seq<Update> {
    if batch == [] then []
    else
      var init, u := batch[..|batch| - 1], batch[|batch| - 1];
      if u.Set? && Count(init, u.isAsk) >= MAX_LEVELS then Accepted(init) else Accepted(init) + [u]
  }

  function Sets(levels: seq<Level>, isAsk: bool): seq<Update> {
    seq(|levels|, i requires 0 <= i < |levels| => Set(isAsk, levels[i]))
  }

  function Replay(updates: seq<Update>): Sides {
    if updates == [] then EMPTY
    else Replayed(Replay(updates[..|updates| - 1]), updates[|updates| - 1])
  }

  function Replayed(s: Sides, u: Update): Sides {
    match u
    case Set(isAsk, level) => s.With(isAsk, BoundedUpdate(s.Of(isAsk), level.price, level.qty))
    case Image(isAsk, entries) => s.With(isAsk, AsMap(Truncated(Positive(entries))))
    case Wipe => EMPTY
  }

  function Commit(r: Reading, more: seq<Update>): Reading {
    r.(committed := r.committed + Accepted(r.batch + more), open := false, batch := [])
  }

  function ReadQuote(r: Reading, q: QuoteInfo, isAsk: bool): Reading {
    var news := Sets(q.Levels(), isAsk);
    if q.updateType == UPDATE_SOLO then r.(committed := r.committed + news)
    else if q.updateType == UPDATE_BEGIN then r.(open := true, batch := news)
    else if q.updateType == UPDATE_MIDDLE then r.(open := true, batch := r.batch + news)
    else if q.updateType == UPDATE_END then Commit(r, news)
    else if q.updateType == UPDATE_CLEAR then r.(committed := r.committed + [Wipe], open := false, batch := [])
    else r
  }

  function ReadCallback(r: Reading, cb: Callback, maxDepth: nat): Reading {
    match cb
    case Quote(isAsk, info) => ReadQuote(r, info, isAsk)
    case EndQuote => if r.open then Commit(r, []) else r
    case LimitOrderBook(iType, asks, bids) =>
      if iType == MD_IMAGE then r.(committed := r.committed + [Image(true, asks), Image(false, bids)])
      else
        r.(committed := r.committed + Sets(Considered(asks, maxDepth), true) + Sets(Considered(bids, maxDepth), false))
  }

  function Read(trace: seq<Callback>, maxDepth: nat): Reading {
    if trace == [] then Reading([], false, [], [])
    else
      var r, cb := Read(trace[..|trace| - 1], maxDepth), trace[|trace| - 1];
      var r' := ReadCallback(r, cb, maxDepth);
      if Completes(r.open, cb) then r'.(snapshots := r'.snapshots + [Replay(r'.committed)]) else r'
  }

  // ---- Agreement ----

  /** The levels of one side, in order. */
  function LevelsOf(updates: seq<Update>, isAsk: bool): seq<Level> {
    if updates == [] then []
    else
      var init, u := LevelsOf(updates[..|updates| - 1], isAsk), updates[|updates| - 1];
      if u.Set? && u.isAsk == isAsk then init + [u.level] else init
  }

  ghost predicate AllSets(updates: seq<Update>) {
    forall i | 0 <= i < |updates| :: updates[i].Set?
  }

  lemma LevelsOfSnoc(us: seq<Update>, u: Update, isAsk: bool)
    ensures LevelsOf(us + [u], isAsk)
            == if u.Set? && u.isAsk == isAsk then LevelsOf(us, isAsk) + [u.level] else LevelsOf(us, isAsk)
  {
    assert (us + [u])[..|us|] == us;
  }

  lemma ApplyAllSnoc(m: map<real, real>, levels: seq<Level>, l: Level)
    ensures ApplyAll(m, levels + [l]) == BoundedUpdate(ApplyAll(m, levels), l.price, l.qty)
  {
    assert (levels + [l])[..|levels|] == levels;
  }

  lemma ReplaySnoc(us: seq<Update>, u: Update)
    ensures Replay(us + [u]) == Replayed(Replay(us), u)
  {
    assert (us + [u])[..|us|] == us;
  }

  lemma SplitLast<T>(a: seq<T>, b: seq<T>)
    requires b != []
    ensures b == b[..|b| - 1] + [b[|b| - 1]]
    ensures a + b == (a + b[..|b| - 1]) + [b[|b| - 1]]
  {
  }

  lemma ReplayedSide(s: Sides, u: Update, m: map<real, real>, levels: seq<Level>, isAsk: bool)
    requires u.Set? && s.Of(isAsk) == ApplyAll(m, levels)
    ensures Replayed(s, u).Of(isAsk) == ApplyAll(m, if u.isAsk == isAsk then levels + [u.level] else levels)
  {
    ApplyAllSnoc(m, levels, u.level);
  }

  /** Sides do not interact: a run of level updates acts on each side on its own. */
  lemma {:induction false} ReplaySide(a: seq<Update>, b: seq<Update>, isAsk: bool)
    requires AllSets(b)
    ensures Replay(a + b).Of(isAsk) == ApplyAll(Replay(a).Of(isAsk), LevelsOf(b, isAsk))
    decreases |b|
  {
    if b == [] {
      assert a + b == a;
    } else {
      var init, u := b[..|b| - 1], b[|b| - 1];
      SplitLast(a, b);
      ReplaySide(a, init, isAsk);
      ReplayedSide(Replay(a + init), u, Replay(a).Of(isAsk), LevelsOf(init, isAsk), isAsk);
      ReplaySnoc(a + init, u);
      LevelsOfSnoc(init, u, isAsk);
    }
  }

  lemma ReplayAppend(a: seq<Update>, b: seq<Update>)
    requires AllSets(b)
    ensures Replay(a + b)
            == Sides(ApplyAll(Replay(a).bids, LevelsOf(b, false)), ApplyAll(Replay(a).asks, LevelsOf(b, true)))
  {
    ReplaySide(a, b, true);
    ReplaySide(a, b, false);
  }

  lemma {:induction false} LevelsOfSets(levels: seq<Level>, isAsk: bool)
    ensures AllSets(Sets(levels, isAsk))
    ensures LevelsOf(Sets(levels, isAsk), isAsk) == levels && LevelsOf(Sets(levels, isAsk), !isAsk) == []
    decreases |levels|
  {
    if levels != [] {
      var init := levels[..|levels| - 1];
      LevelsOfSets(init, isAsk);
      assert Sets(levels, isAsk)[..|levels| - 1] == Sets(init, isAsk);
    }
  }

  lemma AcceptedSnoc(batch: seq<Update>, u: Update)
    ensures Accepted(batch + [u])
            == if u.Set? && Count(batch, u.isAsk) >= MAX_LEVELS then Accepted(batch) else Accepted(batch) + [u]
    ensures forall isAsk ::
              Count(batch + [u], isAsk) == Count(batch, isAsk) + if u.Set? && u.isAsk == isAsk then 1 else 0
  {
    assert (batch + [u])[..|batch|] == batch;
  }

  lemma {:induction false} AcceptedSize(batch: seq<Update>, isAsk: bool)
    requires AllSets(batch)
    ensures AllSets(Accepted(batch))
    ensures |LevelsOf(Accepted(batch), isAsk)| == Min(Count(batch, isAsk), MAX_LEVELS)
    decreases |batch|
  {
    if batch != [] {
      var init, u := batch[..|batch| - 1], batch[|batch| - 1];
      AcceptedSize(init, isAsk);
      LevelsOfSnoc(Accepted(init), u, isAsk);
    }
  }

  lemma PendingSnoc(batch: seq<Update>, u: Update, isAsk: bool)
    requires AllSets(batch) && u.Set?
    ensures var before := LevelsOf(Accepted(batch), isAsk);
            LevelsOf(Accepted(batch + [u]), isAsk)
            == if u.isAsk == isAsk && |before| < MAX_LEVELS then before + [u.level] else before
  {
    AcceptedSize(batch, isAsk);
    AcceptedSnoc(batch, u);
    LevelsOfSnoc(Accepted(batch), u, isAsk);
  }

  ghost predicate InSync(b: Book, r: Reading) {
    && b.sides == Replay(r.committed)
    && AllSets(r.batch)
    && Pends(b.pendingBids, r.batch, false)
    && Pends(b.pendingAsks, r.batch, true)
    && b.batchActive == r.open
    && (!r.open ==> r.batch == [])
  }

  /** The pending levels of a side are those of the batch that were accepted. */
  ghost predicate Pends(pending: seq<Level>, batch: seq<Update>, isAsk: bool) {
    pending == LevelsOf(Accepted(batch), isAsk)
  }

  lemma PendsAfter(pending: seq<Level>, batch: seq<Update>, u: Update, isAsk: bool)
    requires AllSets(batch) && u.Set? && Pends(pending, batch, isAsk)
    ensures Pends(if u.isAsk == isAsk && |pending| < MAX_LEVELS then pending + [u.level] else pending,
                  batch + [u], isAsk)
  {
    PendingSnoc(batch, u, isAsk);
  }

  lemma SetsOne(q: QuoteInfo, isAsk: bool)
    ensures Sets(q.Levels(), isAsk) == if q.priceFlag then [Set(isAsk, q.Level())] else []
  {
  }

  lemma BufferedBids(b: Book, batch: seq<Update>, u: Update)
    requires AllSets(batch) && u.Set? && Pends(b.pendingBids, batch, false)
    ensures Pends(BufferLevel(b, u.level, u.isAsk).pendingBids, batch + [u], false)
  {
    PendsAfter(b.pendingBids, batch, u, false);
  }

  lemma BufferedAsks(b: Book, batch: seq<Update>, u: Update)
    requires AllSets(batch) && u.Set? && Pends(b.pendingAsks, batch, true)
    ensures Pends(BufferLevel(b, u.level, u.isAsk).pendingAsks, batch + [u], true)
  {
    PendsAfter(b.pendingAsks, batch, u, true);
  }

  lemma AllSetsSnoc(batch: seq<Update>, u: Update)
    requires AllSets(batch) && u.Set?
    ensures AllSets(batch + [u])
  {
  }

  /** Buffering a level is the arrival of one more update of the batch. */
  lemma BufferedInSync(b: Book, r: Reading, q: QuoteInfo, isAsk: bool)
    requires InSync(b, r)
    ensures var b', batch := Buffered(b, q, isAsk), r.batch + Sets(q.Levels(), isAsk);
            && b'.sides == b.sides && b'.batchActive == b.batchActive && AllSets(batch)
            && Pends(b'.pendingBids, batch, false) && Pends(b'.pendingAsks, batch, true)
  {
    SetsOne(q, isAsk);
    if q.priceFlag {
      var u := Set(isAsk, q.Level());
      BufferedBids(b, r.batch, u);
      BufferedAsks(b, r.batch, u);
      AllSetsSnoc(r.batch, u);
    } else {
      assert r.batch + [] == r.batch;
    }
  }

  /** CommitBatch, all bids and then all asks, is the batch applied in arrival order. */
  lemma CommitInArrivalOrder(committed: seq<Update>, batch: seq<Update>)
    requires AllSets(batch)
    ensures var b := Book(Replay(committed), LevelsOf(Accepted(batch), false), LevelsOf(Accepted(batch), true), true);
            CommitBatch(b).sides == Replay(committed + Accepted(batch))
  {
    AcceptedSize(batch, true);
    ReplayAppend(committed, Accepted(batch));
  }

  lemma SoloInSync(b: Book, r: Reading, q: QuoteInfo, isAsk: bool)
    requires InSync(b, r) && q.updateType == UPDATE_SOLO
    ensures InSync(OnQuote(b, q, isAsk), ReadQuote(r, q, isAsk))
  {
    LevelsOfSets(q.Levels(), isAsk);
    ReplayAppend(r.committed, Sets(q.Levels(), isAsk));
    assert q.priceFlag ==> q.Levels()[..0] == [];
  }

  lemma QuoteInSync(b: Book, r: Reading, q: QuoteInfo, isAsk: bool)
    requires InSync(b, r)
    ensures InSync(OnQuote(b, q, isAsk), ReadQuote(r, q, isAsk))
  {
    var news := Sets(q.Levels(), isAsk);
    if q.updateType == UPDATE_SOLO {
      SoloInSync(b, r, q, isAsk);
    } else if q.updateType == UPDATE_BEGIN {
      var begun := r.(open := true, batch := []);
      BufferedInSync(BeginBatch(b), begun, q, isAsk);
      assert begun.batch + news == news;
    } else if q.updateType == UPDATE_MIDDLE {
      BufferedInSync(if b.batchActive then b else BeginBatch(b), r.(open := true), q, isAsk);
    } else if q.updateType == UPDATE_END {
      BufferedInSync(b, r, q, isAsk);
      CommitInArrivalOrder(r.committed, r.batch + news);
    } else if q.updateType == UPDATE_CLEAR {
      assert (r.committed + [Wipe])[|r.committed|] == Wipe;
    }
  }

  lemma ReplayImages(committed: seq<Update>, asks: seq<(real, int)>, bids: seq<(real, int)>)
    ensures Replay(committed + [Image(true, asks), Image(false, bids)])
            == Sides(AsMap(Truncated(Positive(bids))), AsMap(Truncated(Positive(asks))))
  {
    TwoUpdates(committed, Image(true, asks), Image(false, bids));
  }

  lemma TwoUpdates(committed: seq<Update>, u: Update, v: Update)
    ensures Replay(committed + [u, v]) == Replayed(Replayed(Replay(committed), u), v)
  {
    ReplaySnoc(committed, u);
    ReplaySnoc(committed + [u], v);
    assert (committed + [u]) + [v] == committed + [u, v];
  }

  lemma ReplayLevels(committed: seq<Update>, asks: seq<Level>, bids: seq<Level>)
    ensures Replay(committed + Sets(asks, true) + Sets(bids, false))
            == Sides(ApplyAll(Replay(committed).bids, bids), ApplyAll(Replay(committed).asks, asks))
  {
    LevelsOfSets(asks, true);
    LevelsOfSets(bids, false);
    ReplayAppend(committed, Sets(asks, true));
    ReplayAppend(committed + Sets(asks, true), Sets(bids, false));
  }

  lemma LimitOrderBookInSync(b: Book, r: Reading, iType: int, asks: seq<(real, int)>, bids: seq<(real, int)>,
                             maxDepth: nat)
    requires InSync(b, r)
    ensures InSync(OnLimitOrderBook(b, iType, asks, bids, maxDepth),
                   ReadCallback(r, LimitOrderBook(iType, asks, bids), maxDepth))
  {
    if iType == MD_IMAGE {
      ReplayImages(r.committed, asks, bids);
    } else {
      ReplayLevels(r.committed, Considered(asks, maxDepth), Considered(bids, maxDepth));
    }
  }

  lemma CallbackInSync(b: Book, r: Reading, cb: Callback, maxDepth: nat)
    requires InSync(b, r)
    ensures InSync(OnCallback(b, cb, maxDepth), ReadCallback(r, cb, maxDepth))
    ensures b.batchActive == r.open
  {
    match cb
    case Quote(isAsk, info) => QuoteInSync(b, r, info, isAsk);
    case LimitOrderBook(iType, asks, bids) => LimitOrderBookInSync(b, r, iType, asks, bids, maxDepth);
    case EndQuote =>
      assert r.batch + [] == r.batch;
      CommitInArrivalOrder(r.committed, r.batch);
  }

  /**
   Every snapshot pushed while any trace of callbacks is handled is the replay of the updates
   committed by then, in arrival order: levels of an open or cancelled batch never appear, a
   committed batch appears whole (up to MAX_LEVELS a side), and outside a batch nothing is pending.
   */
  lemma {:induction false} SnapshotsAreCommittedUpdates(trace: seq<Callback>, maxDepth: nat)
    ensures InSync(Run(trace, maxDepth).book, Read(trace, maxDepth))
    ensures Run(trace, maxDepth).pushed == Read(trace, maxDepth).snapshots
    ensures var b := Run(trace, maxDepth).book;
            !b.batchActive ==> b.pendingBids == [] && b.pendingAsks == []
    decreases |trace|
  {
    if trace != [] {
      var init, cb := trace[..|trace| - 1], trace[|trace| - 1];
      SnapshotsAreCommittedUpdates(init, maxDepth);
      CallbackInSync(Run(init, maxDepth).book, Read(init, maxDepth), cb, maxDepth);
      SnapshotsKept(Read(init, maxDepth), cb, maxDepth);
    }
  }

  lemma SnapshotsKept(r: Reading, cb: Callback, maxDepth: nat)
    ensures ReadCallback(r, cb, maxDepth).snapshots == r.snapshots
  {
  }

  // ---- The bound of MAX_LEVELS against a book without one ----

  function IdealReplayed(s: Sides, u: Update): Sides {
    match u
    case Set(isAsk, level) => s.With(isAsk, IdealUpdate(s.Of(isAsk), level.price, level.qty))
    case Image(isAsk, entries) => s.With(isAsk, AsMap(Positive(entries)))
    case Wipe => EMPTY
  }

  function IdealReplay(updates: seq<Update>): Sides {
    if updates == [] then EMPTY
    else IdealReplayed(IdealReplay(updates[..|updates| - 1]), updates[|updates| - 1])
  }

  ghost predicate Submap(m: map<real, real>, n: map<real, real>) {
    forall p | p in m :: p in n && n[p] == m[p]
  }

  /** Images arrive strictly sorted, as the feed promises. */
  ghost predicate ImagesSorted(updates: seq<Update>) {
    forall i | 0 <= i < |updates| && updates[i].Image? :: Sorted(Positive(updates[i].entries), updates[i].isAsk)
  }

  /** This update loses a level for lack of room. */
  predicate Overflows(s: Sides, u: Update) {
    match u
    case Set(isAsk, level) => level.qty > 0.0 && level.price !in s.Of(isAsk) && |s.Of(isAsk)| >= MAX_LEVELS
    case Image(_, entries) => |Positive(entries)| > MAX_LEVELS
    case Wipe => false
  }

  predicate NeverOverflows(updates: seq<Update>) {
    updates == [] ||
    (NeverOverflows(updates[..|updates| - 1]) && !Overflows(Replay(updates[..|updates| - 1]), updates[|updates| - 1]))
  }

  lemma SubmapStep(m: map<real, real>, n: map<real, real>, price: real, qty: real)
    requires Submap(m, n)
    ensures Submap(BoundedUpdate(m, price, qty), IdealUpdate(n, price, qty))
  {
  }

  lemma ImageSubmap(entries: seq<(real, int)>, isAsk: bool)
    requires Sorted(Positive(entries), isAsk)
    ensures Submap(AsMap(Truncated(Positive(entries))), AsMap(Positive(entries)))
  {
    var side := Positive(entries);
    SortedIsDistinct(side, isAsk);
    PrefixSubmap(side, |Truncated(side)|);
    assert side[..|Truncated(side)|] == Truncated(side);
  }

  /** The bounded book never shows a wrong quantity, and misses nothing until something overflows. */
  lemma {:induction false} BoundedBookIsSubmap(updates: seq<Update>)
    requires ImagesSorted(updates)
    ensures Submap(Replay(updates).bids, IdealReplay(updates).bids)
    ensures Submap(Replay(updates).asks, IdealReplay(updates).asks)
    ensures NeverOverflows(updates) ==> Replay(updates) == IdealReplay(updates)
    decreases |updates|
  {
    if updates != [] {
      var init, u := updates[..|updates| - 1], updates[|updates| - 1];
      BoundedBookIsSubmap(init);
      match u
      case Wipe =>
      case Image(isAsk, entries) => ImageSubmap(entries, isAsk);
      case Set(isAsk, l) => SubmapStep(Replay(init).Of(isAsk), IdealReplay(init).Of(isAsk), l.price, l.qty);
    }
  }

  /** The same for the book after any trace of callbacks. */
  lemma BookIsSubmapOfIdeal(trace: seq<Callback>, maxDepth: nat)
    requires ImagesSorted(Read(trace, maxDepth).committed)
    ensures var s, updates := Run(trace, maxDepth).book.sides, Read(trace, maxDepth).committed;
            && Submap(s.bids, IdealReplay(updates).bids) && Submap(s.asks, IdealReplay(updates).asks)
            && (NeverOverflows(updates) ==> s == IdealReplay(updates))
  {
    SnapshotsAreCommittedUpdates(trace, maxDepth);
    BoundedBookIsSubmap(Read(trace, maxDepth).committed);
  }
}
