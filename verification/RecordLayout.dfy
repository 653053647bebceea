/**
 The on-disk orderbook record of src/storage/record_layout.h as
 MmapBackend::WriteOrderbook (src/storage/backend/mmap_backend.cpp) fills it:
 a 56-byte header, then the bid levels, then the ask levels. The repository has
 no reader; `ParseOne` and `DecodeAll` are the reader the layout calls for.
 Doubles are carried as their 64-bit patterns, integers are little-endian.
 */
module RecordLayout {
  import opened Machine

  type Byte = b: nat | b < 256
  type Word = n: nat | n < TWO_64

  const HEADER_BYTES: nat := 56
  const LEVEL_BYTES: nat := 16
  const SYMBOL_BYTES: nat := 12
  const SYMBOL_FIELD_BYTES: nat := 32

  /** A PriceLevel as stored: the bit patterns of its two doubles. */
  datatype RawLevel = RawLevel(price: Word, quantity: Word)

  /** What WriteOrderbook stores of an event; `localDiff` is its `local_ts` argument. */
  datatype Record = Record(exchangeTimestamp: Word, localDiff: Word, symbol: seq<Byte>,
                           bids: seq<RawLevel>, asks: seq<RawLevel>)

  /** The sizes of the event's arrays. */
  predicate WellFormed(r: Record) {
    |r.symbol| == SYMBOL_BYTES && |r.bids| <= MAX_LEVELS && |r.asks| <= MAX_LEVELS
  }

  // ---- Numbers ----

  function Pow256(w: nat): nat {
    if w == 0 then 1 else 256 * Pow256(w - 1)
  }

  function LittleEndian(n: nat, w: nat): (r: seq<Byte>)
    ensures |r| == w
  {
    if w == 0 then [] else [n % 256] + LittleEndian(n / 256, w - 1)
  }

  function Number(b: seq<Byte>): nat {
    if b == [] then 0 else b[0] + 256 * Number(b[1..])
  }

  lemma {:induction false} NumberRoundTrip(n: nat, w: nat)
    requires n < Pow256(w)
    ensures Number(LittleEndian(n, w)) == n
    decreases w
  {
    if w > 0 {
      assert LittleEndian(n, w)[1..] == LittleEndian(n / 256, w - 1);
      NumberRoundTrip(n / 256, w - 1);
    }
  }

  /** The last byte is the most significant. */
  lemma {:induction false} MostSignificantLast(b: seq<Byte>, x: Byte)
    ensures Number(b + [x]) == Number(b) + x * Pow256(|b|)
    decreases |b|
  {
    if b == [] {
      assert b + [x] == [x] && [x][1..] == [];
    } else {
      assert (b + [x])[1..] == b[1..] + [x];
      MostSignificantLast(b[1..], x);
      assert 256 * (x * Pow256(|b| - 1)) == x * Pow256(|b|);
    }
  }

  lemma Widths()
    ensures Pow256(4) == 0x1_0000_0000 && Pow256(8) == TWO_64
  {
    assert Pow256(2) == 65536;
    assert Pow256(4) == 256 * (256 * Pow256(2));
    assert Pow256(6) == 256 * (256 * Pow256(4));
    assert Pow256(8) == 256 * (256 * Pow256(6));
  }

  lemma WordRoundTrip(n: Word)
    ensures Number(LittleEndian(n, 8)) == n
  {
    Widths();
    NumberRoundTrip(n, 8);
  }

  lemma CountRoundTrip(n: nat)
    requires n <= MAX_LEVELS
    ensures Number(LittleEndian(n, 4)) == n
  {
    Widths();
    NumberRoundTrip(n, 4);
  }

  lemma {:induction false} NumberBound(b: seq<Byte>)
    ensures Number(b) < Pow256(|b|)
    decreases |b|
  {
    if b != [] {
      NumberBound(b[1..]);
    }
  }

  function ReadWord(b: seq<Byte>): Word
    requires |b| == 8
  {
    NumberBound(b);
    Widths();
    Number(b)
  }

  // ---- Levels ----

  function EncodeLevel(l: RawLevel): (r: seq<Byte>)
    ensures |r| == LEVEL_BYTES
  {
    LittleEndian(l.price, 8) + LittleEndian(l.quantity, 8)
  }

  function EncodeLevels(ls: seq<RawLevel>): (r: seq<Byte>)
    ensures |r| == LEVEL_BYTES * |ls|
  {
    if ls == [] then [] else EncodeLevel(ls[0]) + EncodeLevels(ls[1..])
  }

  function DecodeLevels(b: seq<Byte>, n: nat): (r: seq<RawLevel>)
    requires |b| == LEVEL_BYTES * n
    ensures |r| == n
    decreases n
  {
    if n == 0 then []
    else [RawLevel(ReadWord(b[..8]), ReadWord(b[8..16]))] + DecodeLevels(b[LEVEL_BYTES..], n - 1)
  }

  lemma {:induction false} LevelsRoundTrip(ls: seq<RawLevel>)
    ensures DecodeLevels(EncodeLevels(ls), |ls|) == ls
    decreases |ls|
  {
    if ls != [] {
      var l, b := ls[0], EncodeLevels(ls);
      assert b[..8] == LittleEndian(l.price, 8);
      assert b[8..16] == LittleEndian(l.quantity, 8);
      assert b[LEVEL_BYTES..] == EncodeLevels(ls[1..]);
      WordRoundTrip(l.price);
      WordRoundTrip(l.quantity);
      LevelsRoundTrip(ls[1..]);
    }
  }

  // ---- Records ----

  /** CopySymbol into a zeroed field. */
  function SymbolField(symbol: seq<Byte>): (r: seq<Byte>)
    requires |symbol| == SYMBOL_BYTES
    ensures |r| == SYMBOL_FIELD_BYTES && r[..SYMBOL_BYTES] == symbol
  {
    symbol + seq(SYMBOL_FIELD_BYTES - SYMBOL_BYTES, i => 0)
  }

  function Header(r: Record): (h: seq<Byte>)
    requires WellFormed(r)
    ensures |h| == HEADER_BYTES
  {
    LittleEndian(r.exchangeTimestamp, 8) + LittleEndian(r.localDiff, 8) + SymbolField(r.symbol)
    + LittleEndian(|r.bids|, 4) + LittleEndian(|r.asks|, 4)
  }

  /** The AppendRaw calls of WriteOrderbook; an empty side makes none. */
  function Chunks(r: Record): (c: seq<seq<Byte>>)
    requires WellFormed(r)
    ensures forall i | 0 <= i < |c| :: 0 < |c[i]| <= MAX_LEVELS * LEVEL_BYTES
  {
    [Header(r)] + (if r.bids == [] then [] else [EncodeLevels(r.bids)])
    + (if r.asks == [] then [] else [EncodeLevels(r.asks)])
  }

  function Encode(r: Record): seq<Byte>
    requires WellFormed(r)
  {
    Header(r) + EncodeLevels(r.bids) + EncodeLevels(r.asks)
  }

  datatype Parsed = Parsed(record: Record, rest: seq<Byte>)

  function BidCount(b: seq<Byte>): nat
    requires |b| >= HEADER_BYTES
  {
    Number(b[48..52])
  }

  function AskCount(b: seq<Byte>): nat
    requires |b| >= HEADER_BYTES
  {
    Number(b[52..56])
  }

  /** One record off the front, if it is all there. */
  function ParseOne(b: seq<Byte>): (p: Option<Parsed>)
    ensures p.Some? ==> |p.value.rest| < |b|
  {
    if |b| < HEADER_BYTES then None
    else
      var asksAt := HEADER_BYTES + LEVEL_BYTES * BidCount(b);
      var end := asksAt + LEVEL_BYTES * AskCount(b);
      if |b| < end then None
      else
        Some(Parsed(Record(ReadWord(b[..8]), ReadWord(b[8..16]), b[16..16 + SYMBOL_BYTES],
                           DecodeLevels(b[HEADER_BYTES..asksAt], BidCount(b)),
                           DecodeLevels(b[asksAt..end], AskCount(b))),
                    b[end..]))
  }

  /** The complete records in a byte stream. */
  function DecodeAll(b: seq<Byte>): seq<Record>
    decreases |b|
  {
    var p := ParseOne(b);
    if p.None? then [] else [p.value.record] + DecodeAll(p.value.rest)
  }

  lemma SliceOfPrefix(b: seq<Byte>, n: nat, i: nat, j: nat)
    requires i <= j <= n <= |b|
    ensures b[..n][i..j] == b[i..j]
  {
  }

  /** The header's fields sit where the reader looks for them, whatever follows. */
  lemma HeaderFields(r: Record, b: seq<Byte>)
    requires WellFormed(r) && |b| >= HEADER_BYTES && b[..HEADER_BYTES] == Header(r)
    ensures b[..8] == LittleEndian(r.exchangeTimestamp, 8) && b[8..16] == LittleEndian(r.localDiff, 8)
    ensures b[16..16 + SYMBOL_BYTES] == r.symbol
    ensures b[48..52] == LittleEndian(|r.bids|, 4) && b[52..56] == LittleEndian(|r.asks|, 4)
  {
    var h := Header(r);
    assert h[..8] == LittleEndian(r.exchangeTimestamp, 8);
    assert h[8..16] == LittleEndian(r.localDiff, 8);
    assert h[16..48] == SymbolField(r.symbol);
    assert h[48..52] == LittleEndian(|r.bids|, 4);
    assert h[52..56] == LittleEndian(|r.asks|, 4);
    SliceOfPrefix(b, HEADER_BYTES, 0, 8);
    SliceOfPrefix(b, HEADER_BYTES, 8, 16);
    SliceOfPrefix(b, HEADER_BYTES, 16, 48);
    SliceOfPrefix(b, HEADER_BYTES, 48, 52);
    SliceOfPrefix(b, HEADER_BYTES, 52, 56);
    assert b[16..16 + SYMBOL_BYTES] == b[16..48][..SYMBOL_BYTES];
  }

  lemma Counts(r: Record, b: seq<Byte>)
    requires WellFormed(r) && |b| >= HEADER_BYTES && b[..HEADER_BYTES] == Header(r)
    ensures BidCount(b) == |r.bids| && AskCount(b) == |r.asks|
  {
    HeaderFields(r, b);
    CountRoundTrip(|r.bids|);
    CountRoundTrip(|r.asks|);
  }

  /** Where the parts of an encoded record are. */
  lemma Parts(r: Record, rest: seq<Byte>, b: seq<Byte>, asksAt: nat, end: nat)
    requires WellFormed(r) && b == Encode(r) + rest
    requires asksAt == HEADER_BYTES + LEVEL_BYTES * |r.bids| && end == asksAt + LEVEL_BYTES * |r.asks|
    ensures |b| >= end && b[..HEADER_BYTES] == Header(r)
    ensures b[HEADER_BYTES..asksAt] == EncodeLevels(r.bids) && b[asksAt..end] == EncodeLevels(r.asks)
    ensures b[end..] == rest
  {
  }

  /** The reader finds a record whose parts are in place. */
  lemma ParsePlaced(r: Record, b: seq<Byte>, asksAt: nat, end: nat)
    requires asksAt == HEADER_BYTES + LEVEL_BYTES * |r.bids| && end == asksAt + LEVEL_BYTES * |r.asks|
    requires WellFormed(r) && |b| >= end && b[..HEADER_BYTES] == Header(r)
    requires b[HEADER_BYTES..asksAt] == EncodeLevels(r.bids) && b[asksAt..end] == EncodeLevels(r.asks)
    ensures ParseOne(b) == Some(Parsed(r, b[end..]))
  {
    Counts(r, b);
    HeaderRead(r, b);
    LevelsRoundTrip(r.bids);
    LevelsRoundTrip(r.asks);
  }

  lemma HeaderRead(r: Record, b: seq<Byte>)
    requires WellFormed(r) && |b| >= HEADER_BYTES && b[..HEADER_BYTES] == Header(r)
    ensures ReadWord(b[..8]) == r.exchangeTimestamp && ReadWord(b[8..16]) == r.localDiff
    ensures b[16..16 + SYMBOL_BYTES] == r.symbol
  {
    HeaderFields(r, b);
    WordRoundTrip(r.exchangeTimestamp);
    WordRoundTrip(r.localDiff);
  }

  lemma ParseEncoded(r: Record, rest: seq<Byte>)
    requires WellFormed(r)
    ensures ParseOne(Encode(r) + rest) == Some(Parsed(r, rest))
  {
    var asksAt := HEADER_BYTES + LEVEL_BYTES * |r.bids|;
    var end := asksAt + LEVEL_BYTES * |r.asks|;
    Parts(r, rest, Encode(r) + rest, asksAt, end);
    ParsePlaced(r, Encode(r) + rest, asksAt, end);
  }

  /** A record cut short anywhere is not taken for a record. */
  lemma ParsePartial(r: Record, cut: nat)
    requires WellFormed(r) && cut < |Encode(r)|
    ensures ParseOne(Encode(r)[..cut]) == None
  {
    var b := Encode(r)[..cut];
    if cut >= HEADER_BYTES {
      assert b[..HEADER_BYTES] == Header(r);
      Counts(r, b);
    }
  }

  lemma {:induction false} LevelsAt(ls: seq<RawLevel>, i: nat)
    requires i < |ls|
    ensures EncodeLevels(ls)[LEVEL_BYTES * i..LEVEL_BYTES * i + LEVEL_BYTES] == EncodeLevel(ls[i])
    decreases i
  {
    var b, rest := EncodeLevels(ls), EncodeLevels(ls[1..]);
    if i > 0 {
      LevelsAt(ls[1..], i - 1);
      assert b[LEVEL_BYTES * i..LEVEL_BYTES * i + LEVEL_BYTES]
             == rest[LEVEL_BYTES * (i - 1)..LEVEL_BYTES * (i - 1) + LEVEL_BYTES];
    }
  }

  /** A level's price and quantity are the two words at `at`. */
  predicate LevelIs(b: seq<Byte>, at: nat, l: RawLevel)
    requires at + LEVEL_BYTES <= |b|
  {
    Number(b[at..at + 8]) == l.price && Number(b[at + 8..at + 16]) == l.quantity
  }

  lemma LevelPlaced(b: seq<Byte>, at: nat, l: RawLevel)
    requires at + LEVEL_BYTES <= |b| && b[at..at + LEVEL_BYTES] == EncodeLevel(l)
    ensures LevelIs(b, at, l)
  {
    var e := EncodeLevel(l);
    assert b[at..at + 8] == e[..8] && b[at + 8..at + 16] == e[8..16];
    WordRoundTrip(l.price);
    WordRoundTrip(l.quantity);
  }

  /** The fields of the header by byte offset, as the struct lays them out. */
  lemma HeaderLayout(r: Record)
    requires WellFormed(r)
    ensures var b := Encode(r);
            && |b| >= 56
            && Number(b[0..8]) == r.exchangeTimestamp && Number(b[8..16]) == r.localDiff
            && b[16..28] == r.symbol && (forall i | 28 <= i < 48 :: b[i] == 0)
            && Number(b[48..52]) == |r.bids| && Number(b[52..56]) == |r.asks|
  {
    var b := Encode(r);
    assert b[..HEADER_BYTES] == Header(r);
    HeaderFields(r, b);
    WordRoundTrip(r.exchangeTimestamp);
    WordRoundTrip(r.localDiff);
    CountRoundTrip(|r.bids|);
    CountRoundTrip(|r.asks|);
    SymbolPadding(r, b);
  }

  lemma SymbolPadding(r: Record, b: seq<Byte>)
    requires WellFormed(r) && |b| >= HEADER_BYTES && b[..HEADER_BYTES] == Header(r)
    ensures forall i | 28 <= i < 48 :: b[i] == 0
  {
    var h := Header(r);
    assert h[16..48] == SymbolField(r.symbol);
    forall i | 28 <= i < 48
      ensures b[i] == 0
    {
      assert b[i] == h[i] == h[16..48][i - 16];
    }
  }

  /** The levels by byte offset: bids from 56 on, asks behind them, 16 bytes each. */
  lemma LevelLayout(r: Record, isAsk: bool, i: nat)
    requires WellFormed(r) && i < |if isAsk then r.asks else r.bids|
    ensures var b, at := Encode(r), 56 + 16 * (if isAsk then |r.bids| + i else i);
            at + 16 <= |b| && LevelIs(b, at, if isAsk then r.asks[i] else r.bids[i])
  {
    if isAsk {
      AskLayout(r, i);
    } else {
      BidLayout(r, i);
    }
  }

  lemma SidesPlaced(r: Record, b: seq<Byte>, asksAt: nat)
    requires WellFormed(r) && b == Encode(r) && asksAt == HEADER_BYTES + |EncodeLevels(r.bids)|
    ensures asksAt + |EncodeLevels(r.asks)| == |b|
    ensures b[HEADER_BYTES..asksAt] == EncodeLevels(r.bids) && b[asksAt..|b|] == EncodeLevels(r.asks)
  {
  }

  lemma BidLayout(r: Record, i: nat)
    requires WellFormed(r) && i < |r.bids|
    ensures 56 + 16 * i + 16 <= |Encode(r)| && LevelIs(Encode(r), 56 + 16 * i, r.bids[i])
  {
    var side := EncodeLevels(r.bids);
    SidesPlaced(r, Encode(r), HEADER_BYTES + |side|);
    LevelsAt(r.bids, i);
    LevelOfSide(Encode(r), HEADER_BYTES, side, LEVEL_BYTES * i, r.bids[i]);
  }

  lemma AskLayout(r: Record, i: nat)
    requires WellFormed(r) && i < |r.asks|
    ensures var at := 56 + 16 * (|r.bids| + i);
            at + 16 <= |Encode(r)| && LevelIs(Encode(r), at, r.asks[i])
  {
    var asksAt := HEADER_BYTES + |EncodeLevels(r.bids)|;
    SidesPlaced(r, Encode(r), asksAt);
    LevelsAt(r.asks, i);
    LevelOfSide(Encode(r), asksAt, EncodeLevels(r.asks), LEVEL_BYTES * i, r.asks[i]);
  }

  lemma LevelOfSide(b: seq<Byte>, start: nat, side: seq<Byte>, at: nat, l: RawLevel)
    requires start + |side| <= |b| && b[start..start + |side|] == side
    requires at + LEVEL_BYTES <= |side| && side[at..at + LEVEL_BYTES] == EncodeLevel(l)
    ensures LevelIs(b, start + at, l)
  {
    SliceOfSlice(b, start, |side|, at, LEVEL_BYTES);
    LevelPlaced(b, start + at, l);
  }

  lemma SliceOfSlice(b: seq<Byte>, start: nat, len: nat, at: nat, n: nat)
    requires start + len <= |b| && at + n <= len
    ensures b[start..start + len][at..at + n] == b[start + at..start + at + n]
  {
    var s, r := b[start..start + len], b[start + at..start + at + n];
    forall k | 0 <= k < n
      ensures s[at..at + n][k] == r[k]
    {
      assert s[at..at + n][k] == s[at + k] == b[start + (at + k)];
    }
  }

  // ---- Streams of records ----

  ghost predicate AllWellFormed(rs: seq<Record>) {
    forall i | 0 <= i < |rs| :: WellFormed(rs[i])
  }

  function EncodeAll(rs: seq<Record>): seq<Byte>
    requires AllWellFormed(rs)
  {
    if rs == [] then [] else Encode(rs[0]) + EncodeAll(rs[1..])
  }

  lemma DecodeOne(b: seq<Byte>, p: Parsed)
    requires ParseOne(b) == Some(p)
    ensures DecodeAll(b) == [p.record] + DecodeAll(p.rest)
  {
  }

  lemma DecodeFirst(r: Record, rest: seq<Byte>, b: seq<Byte>)
    requires WellFormed(r) && b == Encode(r) + rest
    ensures DecodeAll(b) == [r] + DecodeAll(rest)
  {
    ParseEncoded(r, rest);
    DecodeOne(b, Parsed(r, rest));
  }

  lemma EncodeAllCons(rs: seq<Record>, rest: seq<Byte>)
    requires AllWellFormed(rs) && rs != []
    ensures EncodeAll(rs) + rest == Encode(rs[0]) + (EncodeAll(rs[1..]) + rest)
  {
    Associative(Encode(rs[0]), EncodeAll(rs[1..]), rest);
  }

  lemma Associative(a: seq<Byte>, b: seq<Byte>, c: seq<Byte>)
    ensures (a + b) + c == a + (b + c)
  {
  }

  lemma Reassociate(rs: seq<Record>, others: seq<Record>)
    requires rs != []
    ensures rs + others == [rs[0]] + (rs[1..] + others)
  {
  }

  /** Decoding undoes encoding, and leaves what follows to be decoded on its own. */
  lemma {:induction false} DecodeEncoded(rs: seq<Record>, rest: seq<Byte>, b: seq<Byte>)
    requires AllWellFormed(rs) && b == EncodeAll(rs) + rest
    ensures DecodeAll(b) == rs + DecodeAll(rest)
    decreases |rs|
  {
    if rs == [] {
      assert b == rest;
    } else {
      var more := EncodeAll(rs[1..]) + rest;
      EncodeAllCons(rs, rest);
      DecodeFirst(rs[0], more, b);
      DecodeEncoded(rs[1..], rest, more);
      Reassociate(rs, DecodeAll(rest));
    }
  }
}
