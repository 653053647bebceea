/**
 The rolling append log of src/storage/engine/mmap_engine.cpp and the orderbook
 writer on top of it (src/storage/backend/mmap_backend.cpp). Whether the system
 calls of a roll succeed is an input of each append.
 */
module MmapLog {
  import opened Machine
  import opened RecordLayout

  /** `kHeaderSize`: MmapMetaHeader and its padding. */
  const META_BYTES: nat := 64

  // ---- Specification: the chain of files as values ----

  /** `regions` are the [64, write_offset) parts of the files of one run, the current one last. */
  datatype Engine = Engine(maxFileSize: nat, mappedSize: nat, open: bool, offset: nat, regions: seq<seq<Byte>>)

  /** The mapping's length: `max_file_size_` rounded up to whole pages. */
  function MappedSize(maxFileSize: nat, pageSize: nat): (r: nat)
    requires pageSize > 0
    ensures maxFileSize <= r < maxFileSize + pageSize && (maxFileSize > 0 ==> r >= pageSize)
  {
    var pages := (maxFileSize + pageSize - 1) / pageSize;
    RoundedUp(maxFileSize + pageSize - 1, pageSize);
    pages * pageSize
  }

  lemma RoundedUp(n: nat, d: nat)
    requires d > 0
    ensures n - d < n / d * d <= n && (n >= d ==> n / d * d >= d)
  {
    assert n == n / d * d + n % d;
  }

  function Fresh(maxFileSize: nat, mappedSize: nat): Engine {
    Engine(maxFileSize, mappedSize, true, META_BYTES, [[]])
  }

  /** AppendRaw. A failed roll leaves the engine closed. */
  function Append(e: Engine, data: seq<Byte>, rollOk: bool): Engine
    requires EngineOk(e)
  {
    if !e.open || data == [] then e
    else if e.offset + |data| >= e.maxFileSize then
      if rollOk then e.(offset := META_BYTES + |data|, regions := e.regions + [data]) else e.(open := false)
    else
      var last := |e.regions| - 1;
      e.(offset := e.offset + |data|, regions := e.regions[last := e.regions[last] + data])
  }

  /** Every file's contents fit its mapping, and the offset is the end of the last one's. */
  ghost predicate EngineOk(e: Engine) {
    && META_BYTES <= e.mappedSize && e.maxFileSize <= e.mappedSize && e.regions != []
    && e.offset == META_BYTES + |e.regions[|e.regions| - 1]|
    && (forall i | 0 <= i < |e.regions| :: META_BYTES + |e.regions[i]| <= e.mappedSize)
  }

  ghost predicate Fits(e: Engine, data: seq<Byte>) {
    META_BYTES + |data| <= e.mappedSize
  }

  lemma AppendOk(e: Engine, data: seq<Byte>, rollOk: bool)
    requires EngineOk(e) && Fits(e, data)
    ensures EngineOk(Append(e, data, rollOk))
    ensures Append(e, data, rollOk).mappedSize == e.mappedSize
    ensures e.open && data != [] && Append(e, data, rollOk).open ==>
              Append(e, data, rollOk).offset == WriteAt(e.offset, |data|, e.maxFileSize) + |data|
  {
  }

  /** Where AppendRaw starts writing. */
  function WriteAt(offset: nat, size: nat, maxFileSize: nat): nat {
    if offset + size >= maxFileSize then META_BYTES else offset
  }

  /** The write itself stays in the mapping from every offset exactly if a fresh file can hold it. */
  lemma WriteInsideIff(maxFileSize: nat, mappedSize: nat, size: nat)
    requires META_BYTES <= mappedSize && maxFileSize <= mappedSize
    ensures (forall offset | META_BYTES <= offset <= mappedSize ::
               WriteAt(offset, size, maxFileSize) + size <= mappedSize)
            <==> META_BYTES + size <= mappedSize
  {
    assert WriteAt(mappedSize, size, maxFileSize) == META_BYTES;
  }

  function Bytes(regions: seq<seq<Byte>>): seq<Byte> {
    if regions == [] then [] else Bytes(regions[..|regions| - 1]) + regions[|regions| - 1]
  }

  lemma BytesSnoc(regions: seq<seq<Byte>>, r: seq<Byte>)
    ensures Bytes(regions + [r]) == Bytes(regions) + r
  {
    assert (regions + [r])[..|regions|] == regions;
  }

  /** An append that is not refused adds its bytes at the end of the stream, roll or no roll. */
  lemma AppendStores(e: Engine, data: seq<Byte>, rollOk: bool)
    requires EngineOk(e) && Fits(e, data)
    ensures var after := Append(e, data, rollOk);
            Bytes(after.regions) == if after.open then Bytes(e.regions) + data else Bytes(e.regions)
  {
    var n := |e.regions|;
    if !e.open || data == [] {
      assert Bytes(e.regions) + [] == Bytes(e.regions);
    } else if e.offset + |data| >= e.maxFileSize {
      BytesSnoc(e.regions, data);
    } else {
      var init, last := e.regions[..n - 1], e.regions[n - 1];
      assert e.regions[n - 1 := last + data] == init + [last + data];
      BytesSnoc(init, last + data);
      assert Bytes(e.regions) == Bytes(init) + last;
    }
  }

  /** A run of appends; `outcomes[i]` is how a roll would end if append `i` needs one. */
  function AppendAll(e: Engine, chunks: seq<seq<Byte>>, outcomes: seq<bool>): Engine
    requires EngineOk(e) && |chunks| == |outcomes| && AllFit(e, chunks)
    decreases |chunks|
  {
    if chunks == [] then e
    else
      AppendOk(e, chunks[0], outcomes[0]);
      AppendAll(Append(e, chunks[0], outcomes[0]), chunks[1..], outcomes[1..])
  }

  ghost predicate AllFit(e: Engine, chunks: seq<seq<Byte>>) {
    forall i | 0 <= i < |chunks| :: chunks[i] != [] && Fits(e, chunks[i])
  }

  function Flatten(chunks: seq<seq<Byte>>): seq<Byte> {
    if chunks == [] then [] else chunks[0] + Flatten(chunks[1..])
  }

  /** How many chunks are stored before a roll fails. */
  function Taken(e: Engine, chunks: seq<seq<Byte>>, outcomes: seq<bool>): (k: nat)
    requires EngineOk(e) && |chunks| == |outcomes| && AllFit(e, chunks)
    ensures k <= |chunks|
    decreases |chunks|
  {
    if chunks == [] || !Append(e, chunks[0], outcomes[0]).open then 0
    else
      AppendOk(e, chunks[0], outcomes[0]);
      1 + Taken(Append(e, chunks[0], outcomes[0]), chunks[1..], outcomes[1..])
  }

  /** Once closed, an engine stores nothing more. */
  lemma {:induction false} ClosedStoresNothing(e: Engine, chunks: seq<seq<Byte>>, outcomes: seq<bool>)
    requires EngineOk(e) && |chunks| == |outcomes| && AllFit(e, chunks) && !e.open
    ensures AppendAll(e, chunks, outcomes) == e
    decreases |chunks|
  {
    if chunks != [] {
      ClosedStoresNothing(e, chunks[1..], outcomes[1..]);
    }
  }

  lemma FlattenPrefix(chunks: seq<seq<Byte>>, k: nat)
    requires 0 < k <= |chunks|
    ensures Flatten(chunks[..k]) == chunks[0] + Flatten(chunks[1..][..k - 1])
  {
    assert chunks[..k][1..] == chunks[1..][..k - 1];
  }

  /** The engine `after` holds `e`'s stream and then the first `k` chunks; it is closed if there are more. */
  ghost predicate Holds(e: Engine, chunks: seq<seq<Byte>>, outcomes: seq<bool>, after: Engine, k: nat)
    requires k <= |chunks| == |outcomes|
  {
    && EngineOk(after) && Bytes(after.regions) == Bytes(e.regions) + Flatten(chunks[..k])
    && (after.open <==> k == |chunks|) && (k < |chunks| ==> !outcomes[k])
  }

  lemma FirstRefused(e: Engine, chunks: seq<seq<Byte>>, outcomes: seq<bool>)
    requires EngineOk(e) && |chunks| == |outcomes| > 0 && AllFit(e, chunks) && e.open
    requires !Append(e, chunks[0], outcomes[0]).open
    ensures Holds(e, chunks, outcomes, AppendAll(e, chunks, outcomes), 0)
  {
    var next := Append(e, chunks[0], outcomes[0]);
    AppendOk(e, chunks[0], outcomes[0]);
    AppendStores(e, chunks[0], outcomes[0]);
    ClosedStoresNothing(next, chunks[1..], outcomes[1..]);
    assert Flatten(chunks[..0]) == [];
  }

  lemma FirstStored(e: Engine, next: Engine, chunks: seq<seq<Byte>>, outcomes: seq<bool>, after: Engine, k: nat)
    requires |chunks| == |outcomes| > 0 && k < |chunks|
    requires Bytes(next.regions) == Bytes(e.regions) + chunks[0]
    requires Holds(next, chunks[1..], outcomes[1..], after, k)
    ensures Holds(e, chunks, outcomes, after, k + 1)
  {
    FlattenPrefix(chunks, k + 1);
    Associative(Bytes(e.regions), chunks[0], Flatten(chunks[1..][..k]));
  }

  /**
   Whatever rolls happen, the stream is the chunks in order up to the first failed roll, and after a
   failed roll the engine stays closed.
   */
  lemma {:induction false} StoredIsChunkPrefix(e: Engine, chunks: seq<seq<Byte>>, outcomes: seq<bool>)
    requires EngineOk(e) && |chunks| == |outcomes| && AllFit(e, chunks) && e.open
    ensures Holds(e, chunks, outcomes, AppendAll(e, chunks, outcomes), Taken(e, chunks, outcomes))
    decreases |chunks|
  {
    if chunks == [] {
      assert Bytes(e.regions) + Flatten(chunks[..0]) == Bytes(e.regions);
    } else {
      var next := Append(e, chunks[0], outcomes[0]);
      if next.open {
        AppendOk(e, chunks[0], outcomes[0]);
        AppendStores(e, chunks[0], outcomes[0]);
        StoredIsChunkPrefix(next, chunks[1..], outcomes[1..]);
        FirstStored(e, next, chunks, outcomes, AppendAll(next, chunks[1..], outcomes[1..]),
                    Taken(next, chunks[1..], outcomes[1..]));
      } else {
        FirstRefused(e, chunks, outcomes);
      }
    }
  }

  /** Appending two lists of chunks one after the other. */
  lemma {:induction false} AppendAllConcat(e: Engine, a: seq<seq<Byte>>, ao: seq<bool>,
                                           b: seq<seq<Byte>>, bo: seq<bool>)
    requires EngineOk(e) && |a| == |ao| && |b| == |bo| && AllFit(e, a) && AllFit(e, b)
    ensures AllFit(e, a + b) && EngineOk(AppendAll(e, a, ao)) && AllFit(AppendAll(e, a, ao), b)
    ensures AppendAll(e, a + b, ao + bo) == AppendAll(AppendAll(e, a, ao), b, bo)
    decreases |a|
  {
    if a == [] {
      assert a + b == b && ao + bo == bo;
    } else {
      assert (a + b)[1..] == a[1..] + b && (ao + bo)[1..] == ao[1..] + bo;
      AppendOk(e, a[0], ao[0]);
      AppendAllConcat(Append(e, a[0], ao[0]), a[1..], ao[1..], b, bo);
    }
  }

  // ---- When a file is left ----

  /** The chunks of all files, in order. */
  function AllOf(files: seq<seq<seq<Byte>>>): seq<seq<Byte>> {
    if files == [] then [] else AllOf(files[..|files| - 1]) + files[|files| - 1]
  }

  /** File `i` was left because its next chunk would have brought it to the maximum. */
  predicate LeftFull(regions: seq<seq<Byte>>, max: nat, files: seq<seq<seq<Byte>>>, i: nat)
    requires i + 1 < |files| && i < |regions|
  {
    files[i + 1] != [] && META_BYTES + |regions[i]| + |files[i + 1][0]| >= max
  }

  /** `files` are the chunks of each file; a file that took a chunk without being new stays below the maximum. */
  ghost predicate Laid(regions: seq<seq<Byte>>, max: nat, files: seq<seq<seq<Byte>>>) {
    && |files| == |regions| > 0
    && (forall i | 0 <= i < |files| :: regions[i] == Flatten(files[i]))
    && (forall i: nat | i + 1 < |files| :: LeftFull(regions, max, files, i))
    && (forall i | 0 <= i < |files| && |files[i]| > (if i == 0 then 0 else 1) :: META_BYTES + |regions[i]| < max)
  }

  lemma AllOfSnoc(files: seq<seq<seq<Byte>>>, f: seq<seq<Byte>>)
    ensures AllOf(files + [f]) == AllOf(files) + f
  {
    assert (files + [f])[..|files|] == files;
  }

  lemma AllOfGrow(files: seq<seq<seq<Byte>>>, data: seq<Byte>)
    requires files != []
    ensures AllOf(files[|files| - 1 := files[|files| - 1] + [data]]) == AllOf(files) + [data]
  {
    var n := |files| - 1;
    assert files[n := files[n] + [data]][..n] == files[..n];
    assert AllOf(files[..n]) + (files[n] + [data]) == (AllOf(files[..n]) + files[n]) + [data];
  }

  lemma RollLaid(regions: seq<seq<Byte>>, max: nat, files: seq<seq<seq<Byte>>>, data: seq<Byte>)
    requires Laid(regions, max, files) && META_BYTES + |regions[|regions| - 1]| + |data| >= max
    ensures Laid(regions + [data], max, files + [[data]])
  {
    FlattenOne(data);
    forall i: nat | i + 1 < |files + [[data]]|
      ensures LeftFull(regions + [data], max, files + [[data]], i)
    {
      assert i + 1 < |files| ==> LeftFull(regions, max, files, i);
    }
  }

  lemma GrowLaid(regions: seq<seq<Byte>>, max: nat, files: seq<seq<seq<Byte>>>, data: seq<Byte>, n: nat)
    requires Laid(regions, max, files) && n == |regions| - 1 && META_BYTES + |regions[n]| + |data| < max
    ensures Laid(regions[n := regions[n] + data], max, files[n := files[n] + [data]])
  {
    var regions', files' := regions[n := regions[n] + data], files[n := files[n] + [data]];
    FlattenOne(data);
    FlattenConcat(files[n], [data]);
    forall i: nat | i + 1 < |files'|
      ensures LeftFull(regions', max, files', i)
    {
      assert LeftFull(regions, max, files, i);
    }
  }

  lemma AppendLaid(e: Engine, files: seq<seq<seq<Byte>>>, data: seq<Byte>, rollOk: bool)
    returns (files': seq<seq<seq<Byte>>>)
    requires EngineOk(e) && Laid(e.regions, e.maxFileSize, files) && e.open && data != []
    ensures var r := Append(e, data, rollOk);
            && Laid(r.regions, e.maxFileSize, files')
            && AllOf(files') == AllOf(files) + (if r.open then [data] else [])
            && (!r.open ==> r.regions == e.regions && e.offset + |data| >= e.maxFileSize)
  {
    var r, n := Append(e, data, rollOk), |files| - 1;
    files' := files;
    if !r.open {
      assert AllOf(files) + [] == AllOf(files);
    } else if |r.regions| > |e.regions| {
      RollLaid(e.regions, e.maxFileSize, files, data);
      AllOfSnoc(files, [data]);
      files' := files + [[data]];
    } else {
      GrowLaid(e.regions, e.maxFileSize, files, data, n);
      AllOfGrow(files, data);
      files' := files[n := files[n] + [data]];
    }
  }

  /** `r` holds the chunks of `files` and then the first `k` more; a chunk left over needed a roll. */
  ghost predicate Filled(r: Engine, max: nat, files: seq<seq<seq<Byte>>>, before: seq<seq<Byte>>,
                         chunks: seq<seq<Byte>>, k: nat)
    requires k <= |chunks|
  {
    && Laid(r.regions, max, files) && AllOf(files) == before + chunks[..k]
    && (k < |chunks| ==> META_BYTES + |r.regions[|r.regions| - 1]| + |chunks[k]| >= max)
  }

  lemma FilledLater(r: Engine, max: nat, files: seq<seq<seq<Byte>>>, before: seq<seq<Byte>>, chunks: seq<seq<Byte>>,
                    k: nat)
    requires chunks != [] && k <= |chunks[1..]| && Filled(r, max, files, before + [chunks[0]], chunks[1..], k)
    ensures Filled(r, max, files, before, chunks, k + 1)
  {
    assert (before + [chunks[0]]) + chunks[1..][..k] == before + chunks[..k + 1];
  }

  lemma RefusedFilled(e: Engine, files: seq<seq<seq<Byte>>>, chunks: seq<seq<Byte>>, outcomes: seq<bool>)
    requires EngineOk(e) && Laid(e.regions, e.maxFileSize, files) && e.open
    requires |chunks| == |outcomes| > 0 && AllFit(e, chunks) && !Append(e, chunks[0], outcomes[0]).open
    ensures Filled(AppendAll(e, chunks, outcomes), e.maxFileSize, files, AllOf(files), chunks, 0)
  {
    AppendOk(e, chunks[0], outcomes[0]);
    ClosedStoresNothing(Append(e, chunks[0], outcomes[0]), chunks[1..], outcomes[1..]);
    assert AllOf(files) + chunks[..0] == AllOf(files);
  }

  lemma {:induction false} RunLaid(e: Engine, files: seq<seq<seq<Byte>>>, chunks: seq<seq<Byte>>, outcomes: seq<bool>)
    returns (files': seq<seq<seq<Byte>>>)
    requires EngineOk(e) && Laid(e.regions, e.maxFileSize, files) && e.open
    requires |chunks| == |outcomes| && AllFit(e, chunks)
    ensures Filled(AppendAll(e, chunks, outcomes), e.maxFileSize, files', AllOf(files), chunks,
                   Taken(e, chunks, outcomes))
    decreases |chunks|
  {
    files' := files;
    if chunks == [] {
      assert AllOf(files) + chunks[..0] == AllOf(files);
    } else {
      var next := Append(e, chunks[0], outcomes[0]);
      if next.open {
        AppendOk(e, chunks[0], outcomes[0]);
        var mid := AppendLaid(e, files, chunks[0], outcomes[0]);
        files' := RunLaid(next, mid, chunks[1..], outcomes[1..]);
        FilledLater(AppendAll(next, chunks[1..], outcomes[1..]), e.maxFileSize, files', AllOf(files), chunks,
                    Taken(next, chunks[1..], outcomes[1..]));
      } else {
        RefusedFilled(e, files, chunks, outcomes);
      }
    }
  }

  /**
   Main result: over every run of appends from an open file the chunks stored lie in the files in order, and a file is
   left only when it is full: its contents and the chunk that opened the next file reach the maximum together. A file
   that holds more than that one chunk stays below the maximum, and a roll that failed was needed.
   */
  lemma FilesFilled(maxFileSize: nat, mappedSize: nat, chunks: seq<seq<Byte>>, outcomes: seq<bool>)
    returns (files: seq<seq<seq<Byte>>>)
    requires META_BYTES <= mappedSize && maxFileSize <= mappedSize && |chunks| == |outcomes|
    requires AllFit(Fresh(maxFileSize, mappedSize), chunks)
    ensures var e := Fresh(maxFileSize, mappedSize);
            var r, k := AppendAll(e, chunks, outcomes), Taken(e, chunks, outcomes);
            && Laid(r.regions, maxFileSize, files) && AllOf(files) == chunks[..k]
            && (k < |chunks| ==> META_BYTES + |r.regions[|r.regions| - 1]| + |chunks[k]| >= maxFileSize)
  {
    var e := Fresh(maxFileSize, mappedSize);
    files := [[]];
    files := RunLaid(e, files, chunks, outcomes);
    assert AllOf([[]]) == [] && [] + chunks[..Taken(e, chunks, outcomes)] == chunks[..Taken(e, chunks, outcomes)];
  }

  lemma {:induction false} OneFileRun(e: Engine, chunks: seq<seq<Byte>>, outcomes: seq<bool>)
    requires EngineOk(e) && |chunks| == |outcomes| && AllFit(e, chunks) && e.open
    requires e.offset + |Flatten(chunks)| < e.maxFileSize
    ensures |AppendAll(e, chunks, outcomes).regions| == |e.regions|
    decreases |chunks|
  {
    if chunks != [] {
      AppendOk(e, chunks[0], outcomes[0]);
      OneFileRun(Append(e, chunks[0], outcomes[0]), chunks[1..], outcomes[1..]);
    }
  }

  /** In particular everything stays in one file while it is below the maximum. */
  lemma OneFileWhileItFits(maxFileSize: nat, mappedSize: nat, chunks: seq<seq<Byte>>, outcomes: seq<bool>)
    requires META_BYTES <= mappedSize && maxFileSize <= mappedSize && |chunks| == |outcomes|
    requires AllFit(Fresh(maxFileSize, mappedSize), chunks) && META_BYTES + |Flatten(chunks)| < maxFileSize
    ensures AppendAll(Fresh(maxFileSize, mappedSize), chunks, outcomes).regions == [Flatten(chunks)]
  {
    var e := Fresh(maxFileSize, mappedSize);
    OneFileRun(e, chunks, outcomes);
    var files := FilesFilled(maxFileSize, mappedSize, chunks, outcomes);
    StoredIsChunkPrefix(e, chunks, outcomes);
    OneFileBytes(AppendAll(e, chunks, outcomes), chunks, Taken(e, chunks, outcomes), maxFileSize);
  }

  lemma OneFileBytes(r: Engine, chunks: seq<seq<Byte>>, k: nat, maxFileSize: nat)
    requires |r.regions| == 1 && k <= |chunks| && Bytes(r.regions) == Bytes([[]]) + Flatten(chunks[..k])
    requires k < |chunks| ==> META_BYTES + |r.regions[0]| + |chunks[k]| >= maxFileSize
    requires META_BYTES + |Flatten(chunks)| < maxFileSize
    ensures r.regions == [Flatten(chunks)]
  {
    assert Bytes([[]]) == [] && r.regions[..0] == [] && Bytes(r.regions) == r.regions[0];
    assert [] + Flatten(chunks[..k]) == Flatten(chunks[..k]) && r.regions == [r.regions[0]];
    if k < |chunks| {
      assert chunks == chunks[..k] + chunks[k..];
      FlattenConcat(chunks[..k], chunks[k..]);
    } else {
      assert chunks[..k] == chunks;
    }
  }

  // ---- Orderbook streams ----

  function AllChunks(rs: seq<Record>): (c: seq<seq<Byte>>)
    requires AllWellFormed(rs)
    ensures forall i | 0 <= i < |c| :: 0 < |c[i]| <= MAX_LEVELS * LEVEL_BYTES
  {
    if rs == [] then [] else Chunks(rs[0]) + AllChunks(rs[1..])
  }

  lemma ChunksAssociative(a: seq<seq<Byte>>, b: seq<seq<Byte>>, c: seq<seq<Byte>>)
    ensures (a + b) + c == a + (b + c)
  {
  }

  lemma {:induction false} AllChunksSnoc(rs: seq<Record>, r: Record)
    requires AllWellFormed(rs) && WellFormed(r)
    ensures AllWellFormed(rs + [r]) && AllChunks(rs + [r]) == AllChunks(rs) + Chunks(r)
    decreases |rs|
  {
    if rs == [] {
      assert [r][1..] == [] && rs + [r] == [r];
    } else {
      assert (rs + [r])[1..] == rs[1..] + [r] && (rs + [r])[0] == rs[0];
      AllChunksSnoc(rs[1..], r);
      ChunksAssociative(Chunks(rs[0]), AllChunks(rs[1..]), Chunks(r));
    }
  }

  /** Writing one more orderbook after some is one run of appends. */
  lemma WritesCompose(e: Engine, rs: seq<Record>, ro: seq<bool>, r: Record, o: seq<bool>)
    requires EngineOk(e) && Roomy(e.mappedSize) && AllWellFormed(rs) && WellFormed(r)
    requires |ro| == |AllChunks(rs)| && |o| == |Chunks(r)|
    ensures AllWellFormed(rs + [r]) && |ro + o| == |AllChunks(rs + [r])|
    ensures EngineOk(AppendAll(e, AllChunks(rs), ro)) && AllFit(AppendAll(e, AllChunks(rs), ro), Chunks(r))
    ensures AppendAll(e, AllChunks(rs + [r]), ro + o) == AppendAll(AppendAll(e, AllChunks(rs), ro), Chunks(r), o)
  {
    AllChunksSnoc(rs, r);
    AppendAllConcat(e, AllChunks(rs), ro, Chunks(r), o);
  }

  lemma {:induction false} FlattenConcat(a: seq<seq<Byte>>, b: seq<seq<Byte>>)
    ensures Flatten(a + b) == Flatten(a) + Flatten(b)
    decreases |a|
  {
    if a == [] {
      assert a + b == b;
    } else {
      assert (a + b)[1..] == a[1..] + b;
      FlattenConcat(a[1..], b);
    }
  }

  lemma FlattenOne(c: seq<Byte>)
    ensures Flatten([c]) == c
  {
    assert [c][1..] == [];
  }

  lemma ChunksAreEncoding(r: Record)
    requires WellFormed(r)
    ensures Flatten(Chunks(r)) == Encode(r)
  {
    var h, b, a := Header(r), EncodeLevels(r.bids), EncodeLevels(r.asks);
    var bc := if r.bids == [] then [] else [b];
    var ac := if r.asks == [] then [] else [a];
    FlattenOne(h);
    FlattenOne(b);
    FlattenOne(a);
    FlattenConcat([h], bc);
    FlattenConcat([h] + bc, ac);
  }

  lemma {:induction false} AllChunksAreEncoding(rs: seq<Record>)
    requires AllWellFormed(rs)
    ensures Flatten(AllChunks(rs)) == EncodeAll(rs)
    decreases |rs|
  {
    if rs != [] {
      ChunksAreEncoding(rs[0]);
      AllChunksAreEncoding(rs[1..]);
      FlattenConcat(Chunks(rs[0]), AllChunks(rs[1..]));
    }
  }

  /** Chunks short of all of them are a proper prefix of the bytes. */
  lemma ChunkPrefix(chunks: seq<seq<Byte>>, k: nat)
    requires k < |chunks| && forall i | 0 <= i < |chunks| :: chunks[i] != []
    ensures var cut := |Flatten(chunks[..k])|;
            cut < |Flatten(chunks)| && Flatten(chunks[..k]) == Flatten(chunks)[..cut]
  {
    assert chunks == chunks[..k] + chunks[k..];
    FlattenConcat(chunks[..k], chunks[k..]);
  }

  /** `j` records are whole in the first `k` chunks, and the next one is cut. */
  ghost predicate CutAfter(rs: seq<Record>, k: nat, j: nat)
    requires AllWellFormed(rs)
  {
    j < |rs| && |AllChunks(rs[..j])| <= k < |AllChunks(rs[..j + 1])|
  }

  lemma CutWithinFirst(rs: seq<Record>, k: nat)
    requires AllWellFormed(rs) && rs != [] && k < |Chunks(rs[0])|
    ensures CutAfter(rs, k, 0)
    ensures DecodeAll(Flatten(AllChunks(rs)[..k])) == []
  {
    var r := rs[0];
    assert rs[..1][0] == r && rs[..1][1..] == [];
    assert AllChunks(rs[..1]) == Chunks(r);
    assert AllChunks(rs)[..k] == Chunks(r)[..k];
    ChunksAreEncoding(r);
    ChunkPrefix(Chunks(r), k);
    ParsePartial(r, |Flatten(Chunks(r)[..k])|);
  }

  lemma CutLater(rs: seq<Record>, k: nat, j: nat)
    requires AllWellFormed(rs) && rs != [] && k >= |Chunks(rs[0])|
    requires CutAfter(rs[1..], k - |Chunks(rs[0])|, j)
    ensures CutAfter(rs, k, j + 1)
  {
    assert rs[..j + 1][1..] == rs[1..][..j] && rs[..j + 2][1..] == rs[1..][..j + 1];
  }

  lemma FirstChunks(rs: seq<Record>, k: nat)
    requires AllWellFormed(rs) && rs != [] && |Chunks(rs[0])| <= k <= |AllChunks(rs)|
    ensures Flatten(AllChunks(rs)[..k]) == Encode(rs[0]) + Flatten(AllChunks(rs[1..])[..k - |Chunks(rs[0])|])
  {
    var c, more := Chunks(rs[0]), AllChunks(rs[1..]);
    assert (c + more)[..k] == c + more[..k - |c|];
    ChunksAreEncoding(rs[0]);
    FlattenConcat(c, more[..k - |c|]);
  }

  /** From a stream cut between chunks the reader gets the whole records before the cut, and only those. */
  lemma {:induction false} DecodeCut(rs: seq<Record>, k: nat) returns (j: nat)
    requires AllWellFormed(rs) && k < |AllChunks(rs)|
    ensures CutAfter(rs, k, j) && DecodeAll(Flatten(AllChunks(rs)[..k])) == rs[..j]
    decreases |rs|
  {
    var n := |Chunks(rs[0])|;
    if k < n {
      CutWithinFirst(rs, k);
      j := 0;
    } else {
      var rest := Flatten(AllChunks(rs[1..])[..k - n]);
      j := DecodeCut(rs[1..], k - n);
      CutLater(rs, k, j);
      FirstChunks(rs, k);
      DecodeFirst(rs[0], rest, Flatten(AllChunks(rs)[..k]));
      assert rs[..j + 1] == [rs[0]] + rs[1..][..j];
      j := j + 1;
    }
  }

  ghost predicate Roomy(mappedSize: nat) {
    mappedSize >= META_BYTES + MAX_LEVELS * LEVEL_BYTES
  }

  /**
   Main result: as long as rolls succeed, reading the files in order gives back exactly the orderbooks
   written, also where a roll parts a header from its levels.
   */
  lemma DecodeReturnsWritten(maxFileSize: nat, mappedSize: nat, rs: seq<Record>, outcomes: seq<bool>)
    requires maxFileSize <= mappedSize && Roomy(mappedSize)
    requires AllWellFormed(rs) && |outcomes| == |AllChunks(rs)| && forall i | 0 <= i < |outcomes| :: outcomes[i]
    ensures var after := AppendAll(Fresh(maxFileSize, mappedSize), AllChunks(rs), outcomes);
            after.open && EngineOk(after) && DecodeAll(Bytes(after.regions)) == rs
  {
    var e, chunks := Fresh(maxFileSize, mappedSize), AllChunks(rs);
    StoredIsChunkPrefix(e, chunks, outcomes);
    assert chunks[..|chunks|] == chunks;
    AllChunksAreEncoding(rs);
    var b := Bytes(AppendAll(e, chunks, outcomes).regions);
    assert b == EncodeAll(rs) by {
      assert Bytes([[]]) == [];
    }
    DecodeEncoded(rs, [], b);
    assert DecodeAll([]) == [];
  }

  /**
   Main result: if a roll fails, the files hold the chunks before it and nothing else, the reader gets
   exactly the records completed by then, and no later write adds a byte.
   */
  lemma FailedRollKeepsCompleteRecords(maxFileSize: nat, mappedSize: nat, rs: seq<Record>, outcomes: seq<bool>,
                                       later: seq<Record>, laterOutcomes: seq<bool>)
    returns (k: nat, j: nat)
    requires maxFileSize <= mappedSize && Roomy(mappedSize)
    requires AllWellFormed(rs) && |outcomes| == |AllChunks(rs)|
    requires AllWellFormed(later) && |laterOutcomes| == |AllChunks(later)|
    requires !AppendAll(Fresh(maxFileSize, mappedSize), AllChunks(rs), outcomes).open
    ensures k < |outcomes| && !outcomes[k] && CutAfter(rs, k, j)
    ensures var after := AppendAll(Fresh(maxFileSize, mappedSize), AllChunks(rs), outcomes);
            && EngineOk(after) && Bytes(after.regions) == Flatten(AllChunks(rs)[..k])
            && DecodeAll(Bytes(after.regions)) == rs[..j]
            && AllFit(after, AllChunks(later)) && AppendAll(after, AllChunks(later), laterOutcomes) == after
  {
    var e, chunks := Fresh(maxFileSize, mappedSize), AllChunks(rs);
    k := Taken(e, chunks, outcomes);
    StoredIsChunkPrefix(e, chunks, outcomes);
    AppendAllKeepsSize(e, chunks, outcomes);
    var after := AppendAll(e, chunks, outcomes);
    assert Bytes(after.regions) == Flatten(chunks[..k]) by {
      assert Bytes([[]]) == [];
    }
    j := DecodeCut(rs, k);
    ClosedStoresNothing(after, AllChunks(later), laterOutcomes);
  }

  lemma {:induction false} AppendAllKeepsSize(e: Engine, chunks: seq<seq<Byte>>, outcomes: seq<bool>)
    requires EngineOk(e) && |chunks| == |outcomes| && AllFit(e, chunks)
    ensures AppendAll(e, chunks, outcomes).mappedSize == e.mappedSize
    decreases |chunks|
  {
    if chunks != [] {
      AppendOk(e, chunks[0], outcomes[0]);
      AppendAllKeepsSize(Append(e, chunks[0], outcomes[0]), chunks[1..], outcomes[1..]);
    }
  }

  // ---- The engine ----

  class MmapStorageEngine {
    const maxFileSize: nat
    const mmapSize: nat
    var isOpen: bool
    var mapped: array<Byte>
    var writeOffset: nat
    var currentMappedOffset: nat
    var fileSequence: nat
    ghost var model: Engine

    /** The object is the engine `model`, whose last region is what the current mapping holds. */
    ghost predicate Valid()
      reads this, mapped
    {
      && EngineOk(model) && model.maxFileSize == maxFileSize && model.mappedSize == mmapSize && model.open == isOpen
      && (isOpen ==> Mapping())
    }

    ghost predicate Mapping()
      reads this, mapped
    {
      && mapped.Length == mmapSize && META_BYTES <= currentMappedOffset <= mmapSize
      && writeOffset == currentMappedOffset == model.offset && fileSequence == |model.regions| - 1
      && model.regions != [] && mapped[META_BYTES..currentMappedOffset] == model.regions[|model.regions| - 1]
    }

    /** Construction and a successful OpenOrCreate. */
    constructor (maxFileSize: nat, pageSize: nat)
      requires maxFileSize > 0 && pageSize >= META_BYTES
      ensures Valid() && fresh(mapped) && this.maxFileSize == maxFileSize
      ensures model == Fresh(maxFileSize, MappedSize(maxFileSize, pageSize))
    {
      var size := MappedSize(maxFileSize, pageSize);
      this.maxFileSize, mmapSize, isOpen := maxFileSize, size, true;
      mapped := new Byte[size];
      writeOffset, currentMappedOffset, fileSequence := META_BYTES, META_BYTES, 0;
      model := Fresh(maxFileSize, size);
    }

    /** RollNewFile; `ok` is whether open, ftruncate and mmap all succeed. */
    method RollNewFile(ok: bool) returns (r: bool)
      requires Valid()
      modifies this
      ensures r == ok && isOpen == ok && model == old(model)
      ensures ok ==> fresh(mapped) && mapped.Length == mmapSize && writeOffset == currentMappedOffset == META_BYTES
      ensures fileSequence == old(fileSequence) + 1
      ensures !ok ==> mapped == old(mapped)
    {
      isOpen := false;
      fileSequence := fileSequence + 1;
      if !ok {
        return false;
      }
      mapped := new Byte[mmapSize];
      writeOffset, currentMappedOffset := META_BYTES, META_BYTES;
      isOpen := true;
      return true;
    }

    /** AppendRaw: every byte written lies in the mapping. */
    method AppendRaw(data: seq<Byte>, rollOk: bool)
      requires Valid() && Fits(model, data)
      modifies this, mapped
      ensures Valid() && model == Append(old(model), data, rollOk) && (mapped == old(mapped) || fresh(mapped))
    {
      if !isOpen || data == [] {
        return;
      }
      AppendOk(model, data, rollOk);
      if currentMappedOffset + |data| >= maxFileSize {
        var rolled := RollNewFile(rollOk);
        if !rolled {
          model := Append(model, data, rollOk);
          return;
        }
      }
      ghost var held := mapped[META_BYTES..currentMappedOffset];
      Memcpy(mapped, currentMappedOffset, data);
      writeOffset := currentMappedOffset + |data|;
      currentMappedOffset := currentMappedOffset + |data|;
      model := Append(model, data, rollOk);
      assert mapped[META_BYTES..currentMappedOffset] == held + data;
    }

    /** WriteOrderbook: up to three appends. */
    method WriteOrderbook(r: Record, outcomes: seq<bool>)
      requires Valid() && WellFormed(r) && Roomy(mmapSize) && |outcomes| == |Chunks(r)|
      modifies this, mapped
      ensures Valid() && (mapped == old(mapped) || fresh(mapped))
      ensures AllFit(old(model), Chunks(r)) && model == AppendAll(old(model), Chunks(r), outcomes)
    {
      ghost var start := model;
      AppendRaw(Header(r), outcomes[0]);
      if |r.bids| > 0 {
        AppendRaw(EncodeLevels(r.bids), outcomes[1]);
      }
      if |r.asks| > 0 {
        AppendRaw(EncodeLevels(r.asks), outcomes[|outcomes| - 1]);
      }
      ThreeAppends(start, r, outcomes);
    }
  }

  /** memcpy into the mapping. */
  method Memcpy(dst: array<Byte>, at: nat, data: seq<Byte>)
    requires at + |data| <= dst.Length
    modifies dst
    ensures dst[..at] == old(dst[..at]) && dst[at..at + |data|] == data && dst[at + |data|..] == old(dst[at + |data|..])
  {
    forall i | 0 <= i < |data| {
      dst[at + i] := data[i];
    }
  }

  /** What WriteOrderbook's branches do is AppendAll of the record's chunks. */
  lemma ThreeAppends(e: Engine, r: Record, outcomes: seq<bool>)
    requires EngineOk(e) && WellFormed(r) && Roomy(e.mappedSize) && |outcomes| == |Chunks(r)|
    ensures AllFit(e, Chunks(r))
    ensures var e1 := Append(e, Header(r), outcomes[0]);
            EngineOk(e1) &&
            var e2 := if |r.bids| > 0 then Append(e1, EncodeLevels(r.bids), outcomes[1]) else e1;
            EngineOk(e2) &&
            AppendAll(e, Chunks(r), outcomes)
            == if |r.asks| > 0 then Append(e2, EncodeLevels(r.asks), outcomes[|outcomes| - 1]) else e2
  {
    var h, b, a := Header(r), EncodeLevels(r.bids), EncodeLevels(r.asks);
    AppendOk(e, h, outcomes[0]);
    var e1 := Append(e, h, outcomes[0]);
    if |r.bids| > 0 {
      AppendOk(e1, b, outcomes[1]);
      var e2 := Append(e1, b, outcomes[1]);
      if |r.asks| > 0 {
        AppendOk(e2, a, outcomes[2]);
        assert Chunks(r) == [h, b, a];
        AppendThree(e, Chunks(r), outcomes);
      } else {
        assert Chunks(r) == [h, b];
        AppendTwo(e, Chunks(r), outcomes);
      }
    } else if |r.asks| > 0 {
      AppendOk(e1, a, outcomes[1]);
      assert Chunks(r) == [h, a];
      AppendTwo(e, Chunks(r), outcomes);
    } else {
      assert Chunks(r) == [h];
      AppendSingle(e, Chunks(r), outcomes);
    }
  }

  lemma AppendSingle(e: Engine, c: seq<seq<Byte>>, o: seq<bool>)
    requires EngineOk(e) && |c| == |o| == 1 && AllFit(e, c)
    ensures AppendAll(e, c, o) == Append(e, c[0], o[0])
  {
    AppendOk(e, c[0], o[0]);
    assert c[1..] == [] && o[1..] == [];
  }

  lemma AppendTwo(e: Engine, c: seq<seq<Byte>>, o: seq<bool>)
    requires EngineOk(e) && |c| == |o| == 2 && AllFit(e, c)
    ensures EngineOk(Append(e, c[0], o[0])) && AppendAll(e, c, o) == Append(Append(e, c[0], o[0]), c[1], o[1])
  {
    AppendOk(e, c[0], o[0]);
    AppendSingle(Append(e, c[0], o[0]), c[1..], o[1..]);
  }

  lemma AppendThree(e: Engine, c: seq<seq<Byte>>, o: seq<bool>)
    requires EngineOk(e) && |c| == |o| == 3 && AllFit(e, c)
    ensures EngineOk(Append(e, c[0], o[0])) && EngineOk(Append(Append(e, c[0], o[0]), c[1], o[1]))
    ensures AppendAll(e, c, o) == Append(Append(Append(e, c[0], o[0]), c[1], o[1]), c[2], o[2])
  {
    AppendOk(e, c[0], o[0]);
    AppendOk(Append(e, c[0], o[0]), c[1], o[1]);
    AppendTwo(Append(e, c[0], o[0]), c[1..], o[1..]);
  }
}
