/** The archive reader: one pass over header blocks, before anything is extracted. */
module UstarParser {
  import opened Prelude
  import opened UstarFields
  import opened UstarHeader
  import opened UstarBytes
  import opened UstarWriter

  function Blocks(size: nat): nat {
    (size + BLOCK - 1) / BLOCK * BLOCK
  }

  /** Where the pass stopped and what it had collected. */
  datatype Scan = Scan(entries: seq<Entry>, offset: nat, zeroBlocks: nat)

  /** The pass from any point: `offset`, blank blocks just seen, entries and bytes so far. */
  function ScanFrom(file: seq<byte>, s: Scan, aggregate: nat, diskBytes: nat): Result<Scan, TarError>
    decreases |file| - s.offset
  {
    if s.offset >= |file| then Ok(s)
    else if |file| - s.offset < BLOCK then Err(TruncatedHeader)
    else
      var header := file[s.offset..s.offset + BLOCK];
      var offset := s.offset + BLOCK;
      if AllZero(header) then
        if s.zeroBlocks + 1 == 2 then Ok(Scan(s.entries, offset, 2))
        else ScanFrom(file, Scan(s.entries, offset, s.zeroBlocks + 1), aggregate, diskBytes)
      else
        var entry :- ParseHeader(header, offset, diskBytes);
        var entries := s.entries + [entry];
        if |entries| > MaxEntries(diskBytes) then Err(TooManyEntries)
        else if aggregate + entry.size > diskBytes then Err(TooManyBytes)
        else ScanFrom(file, Scan(entries, offset + Blocks(entry.size), 0), aggregate + entry.size, diskBytes)
  }

  /** `validateTypedArchiveEntries`: safe paths first, then only files and directories. */
  function Typed(entries: seq<Entry>): Outcome<TarError> {
    if exists e <- entries :: !SafePath(e.path) then Fail(UnsafePath)
    else if exists e <- entries :: e.kind != File && e.kind != Directory then Fail(ForbiddenType)
    else Pass
  }

  /** The checks after the pass. */
  function Finish(file: seq<byte>, s: Scan): Result<seq<Entry>, TarError> {
    if s.zeroBlocks != 2 || s.offset != |file| then Err(BadTerminator)
    else if exists e <- s.entries :: e.kind == Directory && e.size != 0 then Err(DirectoryWithData)
    else
      var typed := Typed(s.entries);
      if typed.Fail? then Err(typed.error) else Ok(s.entries)
  }

  function Parsed(file: seq<byte>, diskBytes: nat): Result<seq<Entry>, TarError> {
    var s :- ScanFrom(file, Scan([], 0, 0), 0, diskBytes);
    Finish(file, s)
  }

  /** The reader's loop. */
  method ParseTar(file: seq<byte>, diskBytes: nat) returns (r: Result<seq<Entry>, TarError>)
    ensures r == Parsed(file, diskBytes)
  {
    hide ParseHeader, Finish;
    var entries: seq<Entry> := [];
    var offset, zeroBlocks, aggregate: nat := 0, 0, 0;
    while offset < |file|
      invariant zeroBlocks <= 1
      invariant ScanFrom(file, Scan([], 0, 0), 0, diskBytes)
             == ScanFrom(file, Scan(entries, offset, zeroBlocks), aggregate, diskBytes)
    {
      if |file| - offset < BLOCK {
        return Err(TruncatedHeader);
      }
      var header := file[offset..offset + BLOCK];
      offset := offset + BLOCK;
      if AllZero(header) {
        zeroBlocks := zeroBlocks + 1;
        if zeroBlocks == 2 {
          break;
        }
        continue;
      }
      zeroBlocks := 0;
      var parsed := ParseHeader(header, offset, diskBytes);
      if parsed.Err? {
        return Err(parsed.error);
      }
      entries := entries + [parsed.value];
      aggregate := aggregate + parsed.value.size;
      if |entries| > MaxEntries(diskBytes) {
        return Err(TooManyEntries);
      }
      if aggregate > diskBytes {
        return Err(TooManyBytes);
      }
      offset := offset + Blocks(parsed.value.size);
    }
    r := Finish(file, Scan(entries, offset, zeroBlocks));
  }

  // --- soundness on arbitrary bytes ---------------------------------------

  function TotalSize(entries: seq<Entry>): nat {
    if entries == [] then 0 else TotalSize(entries[..|entries| - 1]) + entries[|entries| - 1].size
  }

  /** Entry `i` has its own header block and data area, after those of every earlier entry. */
  predicate Placed(file: seq<byte>, entries: seq<Entry>, diskBytes: nat, end: int) {
    && (forall i :: 0 <= i < |entries| ==>
          && entries[i].dataOffset % BLOCK == 0
          && BLOCK <= entries[i].dataOffset <= |file|
          && ParseHeader(file[entries[i].dataOffset - BLOCK..entries[i].dataOffset], entries[i].dataOffset, diskBytes)
               == Ok(entries[i])
          && entries[i].dataOffset + Blocks(entries[i].size) <= end)
    && (forall i, j :: 0 <= i < j < |entries| ==>
          entries[i].dataOffset + Blocks(entries[i].size) <= entries[j].dataOffset - BLOCK)
  }

  lemma BlocksAligned(size: nat)
    ensures size <= Blocks(size) < size + BLOCK && Blocks(size) % BLOCK == 0
    ensures Blocks(size) == size + Padding(size)
  {
  }

  lemma PlacedNext(file: seq<byte>, entries: seq<Entry>, diskBytes: nat, end: nat, next: Entry)
    requires Placed(file, entries, diskBytes, end)
    requires next.dataOffset >= end + BLOCK && next.dataOffset <= |file| && next.dataOffset % BLOCK == 0
    requires ParseHeader(file[next.dataOffset - BLOCK..next.dataOffset], next.dataOffset, diskBytes) == Ok(next)
    ensures Placed(file, entries + [next], diskBytes, next.dataOffset + Blocks(next.size))
    ensures TotalSize(entries + [next]) == TotalSize(entries) + next.size
  {
    hide ParseHeader;
    assert (entries + [next])[..|entries|] == entries;
  }

  /** What holds at every point of the pass. */
  predicate Reached(file: seq<byte>, s: Scan, aggregate: nat, diskBytes: nat) {
    && s.offset % BLOCK == 0 && s.zeroBlocks <= 1
    && (s.zeroBlocks == 1 ==> BLOCK <= s.offset <= |file| && AllZero(file[s.offset - BLOCK..s.offset]))
    && Placed(file, s.entries, diskBytes, s.offset - s.zeroBlocks * BLOCK)
    && aggregate == TotalSize(s.entries) <= diskBytes
    && |s.entries| <= MaxEntries(diskBytes)
  }

  /** What holds when the pass stopped at a second blank block that ends the file. */
  predicate Terminated(file: seq<byte>, entries: seq<Entry>, diskBytes: nat) {
    && |file| % BLOCK == 0 && |file| >= 2 * BLOCK
    && AllZero(file[|file| - BLOCK..])
    && AllZero(file[|file| - 2 * BLOCK..|file| - BLOCK])
    && Placed(file, entries, diskBytes, |file| - 2 * BLOCK)
    && TotalSize(entries) <= diskBytes
    && |entries| <= MaxEntries(diskBytes)
  }

  lemma EntryStep(file: seq<byte>, s: Scan, aggregate: nat, diskBytes: nat, entry: Entry)
    requires Reached(file, s, aggregate, diskBytes)
    requires s.offset + BLOCK <= |file|
    requires ParseHeader(file[s.offset..s.offset + BLOCK], s.offset + BLOCK, diskBytes) == Ok(entry)
    requires |s.entries| + 1 <= MaxEntries(diskBytes) && aggregate + entry.size <= diskBytes
    ensures Reached(file, Scan(s.entries + [entry], s.offset + BLOCK + Blocks(entry.size), 0),
                    aggregate + entry.size, diskBytes)
  {
    hide ParseHeader, Placed;
    PlacedWeaken(file, s.entries, diskBytes, s.offset - s.zeroBlocks * BLOCK, s.offset);
    PlacedNext(file, s.entries, diskBytes, s.offset, entry);
    BlocksAligned(entry.size);
  }

  lemma PlacedWeaken(file: seq<byte>, entries: seq<Entry>, diskBytes: nat, end: int, later: int)
    requires Placed(file, entries, diskBytes, end) && end <= later
    ensures Placed(file, entries, diskBytes, later)
  {
    hide ParseHeader;
  }

  lemma FewZeroBlocks(file: seq<byte>, s: Scan, aggregate: nat, diskBytes: nat)
    requires Reached(file, s, aggregate, diskBytes)
    ensures s.zeroBlocks <= 1
  {
    hide ParseHeader, Placed, TotalSize, MaxEntries, AllZero;
  }

  lemma ZeroStep(file: seq<byte>, s: Scan, aggregate: nat, diskBytes: nat)
    requires Reached(file, s, aggregate, diskBytes)
    requires s.offset + BLOCK <= |file| && AllZero(file[s.offset..s.offset + BLOCK])
    ensures s.zeroBlocks == 0 ==> Reached(file, Scan(s.entries, s.offset + BLOCK, 1), aggregate, diskBytes)
    ensures s.zeroBlocks == 1 && s.offset + BLOCK == |file| ==> Terminated(file, s.entries, diskBytes)
  {
    hide ParseHeader, Placed, TotalSize, MaxEntries, AllZero;
    if s.zeroBlocks == 1 && s.offset + BLOCK == |file| {
      var last := file[s.offset..s.offset + BLOCK];
      assert last == file[|file| - BLOCK..];
    }
  }

  lemma {:induction false} ScanPlaces(file: seq<byte>, s: Scan, aggregate: nat, diskBytes: nat)
    requires Reached(file, s, aggregate, diskBytes)
    ensures var r := ScanFrom(file, s, aggregate, diskBytes);
            r.Ok? && r.value.zeroBlocks == 2 && r.value.offset == |file| ==>
              Terminated(file, r.value.entries, diskBytes)
    decreases |file| - s.offset
  {
    hide ParseHeader, Reached, Terminated, TotalSize, MaxEntries, AllZero, Blocks;
    FewZeroBlocks(file, s, aggregate, diskBytes);
    if s.offset + BLOCK <= |file| {
      var header := file[s.offset..s.offset + BLOCK];
      if AllZero(header) {
        ZeroStep(file, s, aggregate, diskBytes);
        if s.zeroBlocks == 0 {
          ScanPlaces(file, Scan(s.entries, s.offset + BLOCK, 1), aggregate, diskBytes);
        }
      } else {
        var parsed := ParseHeader(header, s.offset + BLOCK, diskBytes);
        if parsed.Ok? && |s.entries| + 1 <= MaxEntries(diskBytes) && aggregate + parsed.value.size <= diskBytes {
          EntryStep(file, s, aggregate, diskBytes, parsed.value);
          ScanPlaces(file, Scan(s.entries + [parsed.value], s.offset + BLOCK + Blocks(parsed.value.size), 0),
                     aggregate + parsed.value.size, diskBytes);
        }
      }
    }
  }

  lemma PlacedSays(file: seq<byte>, entries: seq<Entry>, diskBytes: nat, end: int, e: Entry)
    requires Placed(file, entries, diskBytes, end) && e in entries
    ensures e.dataOffset + e.size <= end
    ensures 512 <= e.dataOffset <= |file|
    ensures HeaderSays(file[e.dataOffset - 512..e.dataOffset], e.path, e.kind, e.size)
    ensures TypeByte(e.kind, file[e.dataOffset - 356])
  {
    hide ParseHeader, HeaderSays, Blocks, TypeByte;
    var i :| 0 <= i < |entries| && entries[i] == e;
    BlocksAligned(e.size);
    HeaderMeans(file[e.dataOffset - 512..e.dataOffset], e.dataOffset, diskBytes, e);
    SaysType(file[e.dataOffset - 512..e.dataOffset], e.path, e.kind, e.size);
    assert file[e.dataOffset - 512..e.dataOffset][156] == file[e.dataOffset - 356];
  }

  lemma SaysType(h: seq<byte>, path: seq<byte>, kind: Kind, size: nat)
    requires HeaderSays(h, path, kind, size)
    ensures |h| == 512 && TypeByte(kind, h[156])
  {
  }

  /**
   Whatever the bytes are, an accepted archive ends in exactly two zero blocks and its
   data areas are block aligned, disjoint, inside the file before that terminator and
   within the disk policy; entries are files and directories with safe paths, and each
   is what the bytes of its header block say under their own checksum.
   */
  lemma ParserSound(file: seq<byte>, diskBytes: nat)
    requires Parsed(file, diskBytes).Ok?
    ensures var entries := Parsed(file, diskBytes).value;
            && |file| % BLOCK == 0 && |file| >= 2 * BLOCK
            && AllZero(file[|file| - 2 * BLOCK..])
            && Placed(file, entries, diskBytes, |file| - 2 * BLOCK)
            && (forall e <- entries :: e.dataOffset + e.size <= |file| - 2 * BLOCK)
            && TotalSize(entries) <= diskBytes
            && |entries| <= MaxEntries(diskBytes)
            && (forall e <- entries :: SafePath(e.path))
            && (forall e <- entries :: e.kind == File || (e.kind == Directory && e.size == 0))
            && (forall e <- entries :: 512 <= e.dataOffset <= |file|
                  && HeaderSays(file[e.dataOffset - 512..e.dataOffset], e.path, e.kind, e.size))
            && (forall e <- entries :: file[e.dataOffset - 356] in if e.kind == File then {0, 48} else {53})
  {
    hide Parsed, ParseHeader, HeaderSays, Placed, AllZero, MaxEntries, TotalSize, SafePath, TypeByte;
    ParsedEnds(file, diskBytes);
    var entries := Parsed(file, diskBytes).value;
    forall e | e in entries
      ensures e.dataOffset + e.size <= |file| - 2 * BLOCK
      ensures 512 <= e.dataOffset <= |file|
      ensures HeaderSays(file[e.dataOffset - 512..e.dataOffset], e.path, e.kind, e.size)
      ensures file[e.dataOffset - 356] in if e.kind == File then {0, 48} else {53}
    {
      PlacedSays(file, entries, diskBytes, |file| - 2 * BLOCK, e);
      AcceptedType(e.kind, file[e.dataOffset - 356]);
    }
  }

  lemma AcceptedType(kind: Kind, b: byte)
    requires TypeByte(kind, b) && (kind == File || kind == Directory)
    ensures b in if kind == File then {0, 48} else {53}
  {
  }

  /** What the whole pass and the checks after it establish. */
  lemma ParsedEnds(file: seq<byte>, diskBytes: nat)
    requires Parsed(file, diskBytes).Ok?
    ensures var entries := Parsed(file, diskBytes).value;
            && |file| % BLOCK == 0 && |file| >= 2 * BLOCK
            && AllZero(file[|file| - 2 * BLOCK..])
            && Placed(file, entries, diskBytes, |file| - 2 * BLOCK)
            && TotalSize(entries) <= diskBytes
            && |entries| <= MaxEntries(diskBytes)
            && (forall e <- entries :: SafePath(e.path))
            && (forall e <- entries :: e.kind == File || (e.kind == Directory && e.size == 0))
  {
    hide ParseHeader, HeaderSays, Placed, MaxEntries, SafePath, ScanFrom;
    ScanPlaces(file, Scan([], 0, 0), 0, diskBytes) by { NothingPlaced(file, diskBytes); }
    var n := |file|;
    assert file[n - 2 * BLOCK..] == file[n - 2 * BLOCK..n - BLOCK] + file[n - BLOCK..];
  }

  lemma NothingPlaced(file: seq<byte>, diskBytes: nat)
    ensures Placed(file, [], diskBytes, 0) && 0 <= MaxEntries(diskBytes)
  {
  }
}
