/** Exactly which files the archive reader accepts, and that it notices a changed header. */
module UstarLayout {
  import opened Prelude
  import opened UstarFields
  import opened UstarHeader
  import opened UstarBytes
  import opened UstarWriter
  import opened UstarParser

  // --- the accepted files ------------------------------------------------------

  /** Where the blocks of entry `i` start: after the data of the entry before it. */
  function Start(entries: seq<Entry>, i: nat): nat
    requires i <= |entries|
  {
    if i == 0 then 0 else entries[i - 1].dataOffset + Blocks(entries[i - 1].size)
  }

  predicate BlankBlock(file: seq<byte>, at: nat) {
    at + 512 <= |file| && forall k :: at <= k < at + 512 ==> file[k] == 0
  }

  /** Entry `i` has a sound header at its start, with at most one blank block before it. */
  ghost predicate HeadedAt(file: seq<byte>, entries: seq<Entry>, i: nat, diskBytes: nat)
    requires i < |entries|
  {
    var e, start := entries[i], Start(entries, i);
    && (e.dataOffset == start + 512 || (e.dataOffset == start + 1024 && BlankBlock(file, start)))
    && e.dataOffset <= |file|
    && HeaderSays(file[e.dataOffset - 512..e.dataOffset], e.path, e.kind, e.size)
    && e.size <= 256 * 1024 * 1024 * 1024 && e.size <= diskBytes
  }

  /** Two blank blocks after the last entry end the file. */
  predicate EndsAt(file: seq<byte>, end: nat) {
    |file| == end + 1024 && BlankBlock(file, end) && BlankBlock(file, end + 512)
  }

  predicate WithinEntries(n: nat, diskBytes: nat) {
    n <= 1 || (n <= 100000 && n * 512 <= diskBytes)
  }

  /** The layout of a deterministic archive of these entries. */
  ghost predicate Layout(file: seq<byte>, entries: seq<Entry>, diskBytes: nat) {
    && (forall i :: 0 <= i < |entries| ==> HeadedAt(file, entries, i, diskBytes))
    && EndsAt(file, Start(entries, |entries|))
    && WithinEntries(|entries|, diskBytes)
    && TotalSize(entries) <= diskBytes
    && (forall e <- entries :: SafePath(e.path))
    && (forall e <- entries :: e.kind == File || (e.kind == Directory && e.size == 0))
  }

  lemma EntriesMeans(n: nat, diskBytes: nat)
    ensures n <= MaxEntries(diskBytes) <==> WithinEntries(n, diskBytes)
  {
  }

  lemma {:induction false} TotalGrows(entries: seq<Entry>, i: nat)
    requires i <= |entries|
    ensures TotalSize(entries[..i]) <= TotalSize(entries)
    decreases |entries|
  {
    if i < |entries| {
      assert entries[..|entries| - 1][..i] == entries[..i];
      TotalGrows(entries[..|entries| - 1], i);
    } else {
      assert entries[..i] == entries;
    }
  }

  /** The pass only adds entries, each with its header at or after where the pass stood. */
  lemma {:induction false} ScanExtends(file: seq<byte>, s: Scan, aggregate: nat, diskBytes: nat)
    requires ScanFrom(file, s, aggregate, diskBytes).Ok?
    ensures var r := ScanFrom(file, s, aggregate, diskBytes).value;
            && s.entries <= r.entries
            && forall i :: |s.entries| <= i < |r.entries| ==> r.entries[i].dataOffset >= s.offset + BLOCK
    decreases |file| - s.offset
  {
    hide ParseHeader, MaxEntries, Blocks;
    if s.offset + BLOCK <= |file| {
      var header := file[s.offset..s.offset + BLOCK];
      if AllZero(header) {
        if s.zeroBlocks + 1 != 2 {
          ScanExtends(file, Scan(s.entries, s.offset + BLOCK, s.zeroBlocks + 1), aggregate, diskBytes);
        }
      } else {
        var e := ParseHeader(header, s.offset + BLOCK, diskBytes).value;
        ScanExtends(file, Scan(s.entries + [e], s.offset + BLOCK + Blocks(e.size), 0), aggregate + e.size, diskBytes);
      }
    }
  }

  /** At a block that is not blank, the pass goes on exactly past a sound header within the limits. */
  lemma HeaderStep(file: seq<byte>, s: Scan, aggregate: nat, diskBytes: nat, target: Scan)
    requires s.offset + BLOCK <= |file| && !AllZero(file[s.offset..s.offset + BLOCK])
    requires |s.entries| < |target.entries| && s.entries == target.entries[..|s.entries|]
    ensures var e := target.entries[|s.entries|];
            ScanFrom(file, s, aggregate, diskBytes) == Ok(target) <==>
              && ParseHeader(file[s.offset..s.offset + BLOCK], s.offset + BLOCK, diskBytes) == Ok(e)
              && |s.entries| + 1 <= MaxEntries(diskBytes) && aggregate + e.size <= diskBytes
              && ScanFrom(file, Scan(s.entries + [e], s.offset + BLOCK + Blocks(e.size), 0), aggregate + e.size, diskBytes)
                   == Ok(target)
  {
    hide ParseHeader, MaxEntries, Blocks, AllZero;
    var header := file[s.offset..s.offset + BLOCK];
    var parsed := ParseHeader(header, s.offset + BLOCK, diskBytes);
    if ScanFrom(file, s, aggregate, diskBytes) == Ok(target) {
      var e := parsed.value;
      ScanExtends(file, Scan(s.entries + [e], s.offset + BLOCK + Blocks(e.size), 0), aggregate + e.size, diskBytes);
      assert target.entries[|s.entries|] == e;
    }
  }

  /** The pass cannot add an entry and still end with the entries it has. */
  lemma NoMore(file: seq<byte>, s: Scan, aggregate: nat, diskBytes: nat, target: Scan)
    requires s.offset + BLOCK <= |file| && !AllZero(file[s.offset..s.offset + BLOCK])
    requires s.entries == target.entries
    ensures ScanFrom(file, s, aggregate, diskBytes) != Ok(target)
  {
    hide ParseHeader, MaxEntries, Blocks, AllZero;
    var parsed := ParseHeader(file[s.offset..s.offset + BLOCK], s.offset + BLOCK, diskBytes);
    if ScanFrom(file, s, aggregate, diskBytes) == Ok(target) {
      var e := parsed.value;
      ScanExtends(file, Scan(s.entries + [e], s.offset + BLOCK + Blocks(e.size), 0), aggregate + e.size, diskBytes);
      assert false;
    }
  }

  /** What the pass makes of the rest of the file, after the blocks of the first `i` entries. */
  ghost predicate Rest(file: seq<byte>, entries: seq<Entry>, i: nat, diskBytes: nat)
    requires i <= |entries|
  {
    && (forall k :: i <= k < |entries| ==> HeadedAt(file, entries, k, diskBytes))
    && EndsAt(file, Start(entries, |entries|))
    && TotalSize(entries) <= diskBytes && |entries| <= MaxEntries(diskBytes)
  }

  lemma BlankIsZero(file: seq<byte>, at: nat)
    requires at + 512 <= |file|
    ensures BlankBlock(file, at) <==> AllZero(file[at..at + 512])
  {
    if AllZero(file[at..at + 512]) {
      forall k | at <= k < at + 512 ensures file[k] == 0 {
        assert file[at..at + 512][k - at] == 0;
      }
    }
  }

  lemma SaysNotBlank(file: seq<byte>, at: nat, e: Entry)
    requires at + 512 <= |file| && HeaderSays(file[at..at + 512], e.path, e.kind, e.size)
    ensures !BlankBlock(file, at)
  {
    var h := file[at..at + 512];
    SoundIsNotZero(h[148..156], Sum(h[..148]) + 8 * 32 + Sum(h[156..]));
    var i :| 0 <= i < 8 && h[148..156][i] != 0;
    assert file[at + 148 + i] == h[148..156][i];
  }

  /** The pass at the header of entry `i`, whether or not a blank block came before it. */
  lemma {:induction false} RestAtHeader(file: seq<byte>, entries: seq<Entry>, i: nat, at: nat, blanks: nat, diskBytes: nat)
    requires i < |entries| && at == Start(entries, i) + blanks * 512 && blanks <= 1
    requires blanks == 1 ==> BlankBlock(file, Start(entries, i))
    requires at + 512 <= |file| && !BlankBlock(file, at)
    requires TotalSize(entries[..i]) <= diskBytes && i <= MaxEntries(diskBytes)
    ensures ScanFrom(file, Scan(entries[..i], at, blanks), TotalSize(entries[..i]), diskBytes)
              == Ok(Scan(entries, |file|, 2))
            <==> Rest(file, entries, i, diskBytes)
    decreases |entries| - i, 0
  {
    hide ParseHeader, MaxEntries, Blocks, AllZero, HeaderSays, BlankBlock, EndsAt, ScanFrom, TypeByte, SafePath;
    BlankIsZero(file, at);
    var e, s := entries[i], Scan(entries[..i], at, blanks);
    HeaderStep(file, s, TotalSize(entries[..i]), diskBytes, Scan(entries, |file|, 2));
    assert entries[..i] + [e] == entries[..i + 1];
    assert entries[..i + 1][..i] == entries[..i];
    TotalGrows(entries, i + 1);
    HeaderMeans(file[at..at + 512], at + 512, diskBytes, e);
    if HeadedAt(file, entries, i, diskBytes) {
      if e.dataOffset == Start(entries, i) + 512 {
        SaysNotBlank(file, Start(entries, i), e);
      }
      assert e.dataOffset == at + 512;
    }
    if ParseHeader(file[at..at + 512], at + 512, diskBytes) == Ok(e)
       && i + 1 <= MaxEntries(diskBytes) && TotalSize(entries[..i + 1]) <= diskBytes
    {
      assert Start(entries, i + 1) == at + BLOCK + Blocks(e.size);
      RestIsLaid(file, entries, i + 1, diskBytes);
      assert HeadedAt(file, entries, i, diskBytes);
    }
  }

  /** From the start of entry `i` on, the pass collects the entries exactly if the rest of the file is laid out for them. */
  lemma {:induction false} RestIsLaid(file: seq<byte>, entries: seq<Entry>, i: nat, diskBytes: nat)
    requires i <= |entries|
    requires TotalSize(entries[..i]) <= diskBytes && i <= MaxEntries(diskBytes)
    ensures ScanFrom(file, Scan(entries[..i], Start(entries, i), 0), TotalSize(entries[..i]), diskBytes)
              == Ok(Scan(entries, |file|, 2))
            <==> Rest(file, entries, i, diskBytes)
    decreases |entries| - i, 2
  {
    hide ParseHeader, MaxEntries, Blocks, AllZero, HeaderSays, BlankBlock;
    var start, total, target := Start(entries, i), TotalSize(entries[..i]), Scan(entries, |file|, 2);
    assert i == |entries| ==> entries[..i] == entries;
    if start + 512 <= |file| {
      BlankIsZero(file, start);
      if !BlankBlock(file, start) {
        if i < |entries| {
          RestAtHeader(file, entries, i, start, 0, diskBytes);
        } else {
          NoMore(file, Scan(entries, start, 0), total, diskBytes, target);
        }
      } else {
        if i < |entries| && HeadedAt(file, entries, i, diskBytes) && entries[i].dataOffset == start + 512 {
          SaysNotBlank(file, start, entries[i]);
        }
        SecondBlock(file, entries, i, diskBytes);
      }
    } else {
      assert i < |entries| ==> !HeadedAt(file, entries, i, diskBytes);
      assert !EndsAt(file, start);
    }
  }

  /** After one blank block. */
  lemma {:induction false} SecondBlock(file: seq<byte>, entries: seq<Entry>, i: nat, diskBytes: nat)
    requires i <= |entries| && BlankBlock(file, Start(entries, i))
    requires i < |entries| && HeadedAt(file, entries, i, diskBytes) ==> entries[i].dataOffset == Start(entries, i) + 1024
    requires TotalSize(entries[..i]) <= diskBytes && i <= MaxEntries(diskBytes)
    ensures ScanFrom(file, Scan(entries[..i], Start(entries, i) + 512, 1), TotalSize(entries[..i]), diskBytes)
              == Ok(Scan(entries, |file|, 2))
            <==> Rest(file, entries, i, diskBytes)
    decreases |entries| - i, 1
  {
    hide ParseHeader, MaxEntries, Blocks, AllZero, HeaderSays, BlankBlock;
    var at, target := Start(entries, i) + 512, Scan(entries, |file|, 2);
    assert i == |entries| ==> entries[..i] == entries;
    if at + 512 <= |file| {
      BlankIsZero(file, at);
      if !BlankBlock(file, at) {
        if i < |entries| {
          RestAtHeader(file, entries, i, at, 1, diskBytes);
        } else {
          NoMore(file, Scan(entries, at, 1), TotalSize(entries[..i]), diskBytes, target);
        }
      } else if i < |entries| {
        if HeadedAt(file, entries, i, diskBytes) {
          SaysNotBlank(file, at, entries[i]);
        }
      }
    }
  }

  /**
   The reader accepts exactly the files that are laid out as archives: sound headers
   one after the other, each followed by the blocks of its data and preceded by at most
   one blank block, two blank blocks at the end of the file, and everything within the
   disk policy.
   */
  lemma AcceptedExactly(file: seq<byte>, diskBytes: nat, entries: seq<Entry>)
    ensures Parsed(file, diskBytes) == Ok(entries) <==> Layout(file, entries, diskBytes)
  {
    hide ParseHeader, MaxEntries, SafePath, HeadedAt, EndsAt;
    EntriesMeans(|entries|, diskBytes);
    assert entries[..0] == [];
    RestIsLaid(file, entries, 0, diskBytes);
  }

  // --- a changed header --------------------------------------------------------

  /** The pass fails at the changed header if not before. */
  lemma {:induction false} ScanNotices(file: seq<byte>, changed: seq<byte>, s: Scan, aggregate: nat, diskBytes: nat,
                                       i: nat, at: nat)
    requires ScanFrom(file, s, aggregate, diskBytes).Ok?
    requires var r := ScanFrom(file, s, aggregate, diskBytes).value;
             && |s.entries| <= i < |r.entries| && 512 <= r.entries[i].dataOffset <= |file|
             && r.entries[i].dataOffset - 512 <= at < r.entries[i].dataOffset
             && !(r.entries[i].dataOffset - 364 <= at < r.entries[i].dataOffset - 356)
    requires at < |file| == |changed| && changed == file[at := changed[at]] && changed[at] != file[at]
    ensures ScanFrom(changed, s, aggregate, diskBytes) == Err(BadChecksum)
    decreases |file| - s.offset
  {
    hide ParseHeader, MaxEntries, Blocks, AllZero;
    var r := ScanFrom(file, s, aggregate, diskBytes).value;
    ScanExtends(file, s, aggregate, diskBytes);
    var header := file[s.offset..s.offset + 512];
    if AllZero(header) {
      var next := Scan(s.entries, s.offset + 512, s.zeroBlocks + 1);
      ScanExtends(file, next, aggregate, diskBytes);
      assert changed[s.offset..s.offset + 512] == header;
      ScanNotices(file, changed, next, aggregate, diskBytes, i, at);
    } else {
      var e := ParseHeader(header, s.offset + 512, diskBytes).value;
      var next := Scan(s.entries + [e], s.offset + 512 + Blocks(e.size), 0);
      ScanExtends(file, next, aggregate + e.size, diskBytes);
      assert r.entries[|s.entries|] == e;
      if i == |s.entries| {
        assert changed[s.offset..s.offset + 512] == header[at - s.offset := changed[at]];
        OneByteChanges(header, at - s.offset, changed[at], s.offset + 512, diskBytes);
      } else {
        assert changed[s.offset..s.offset + 512] == header;
        ScanNotices(file, changed, next, aggregate + e.size, diskBytes, i, at);
      }
    }
  }

  /** Whoever changes one byte of a header of an accepted archive, outside its checksum field, makes the reader refuse it. */
  lemma ChangedHeaderRefused(file: seq<byte>, diskBytes: nat, i: nat, at: nat, b: byte)
    requires Parsed(file, diskBytes).Ok? && i < |Parsed(file, diskBytes).value|
    requires var e := Parsed(file, diskBytes).value[i];
             && e.dataOffset - 512 <= at < e.dataOffset && !(e.dataOffset - 364 <= at < e.dataOffset - 356)
    requires 0 <= at < |file| && b != file[at]
    ensures Parsed(file[at := b], diskBytes) == Err(BadChecksum)
  {
    hide ParseHeader, ScanFrom, SafePath, HeaderSays, MaxEntries, TotalSize, AllZero;
    ParserSound(file, diskBytes);
    var e := Parsed(file, diskBytes).value[i];
    assert 512 <= e.dataOffset <= |file|;
    ScanNotices(file, file[at := b], Scan([], 0, 0), 0, diskBytes, i, at);
  }
}
