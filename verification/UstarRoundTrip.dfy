/** What the writer accepts, the reader returns. */
module UstarRoundTrip {
  import opened Prelude
  import opened UstarFields
  import opened UstarHeader
  import opened UstarWriter
  import opened UstarParser

  /** The parsed entry of a written item, with its data area in the file. */
  predicate Describes(e: Entry, item: Item, file: seq<byte>) {
    && e.path == item.path
    && e.kind == (if item.kind == DirectoryItem then Directory else File)
    && e.size == (if item.kind == DirectoryItem then 0 else |item.content|)
    && e.dataOffset + e.size <= |file|
    && (item.kind == FileItem ==> file[e.dataOffset..e.dataOffset + e.size] == item.content)
  }

  predicate DescribesAll(entries: seq<Entry>, items: seq<Item>, file: seq<byte>) {
    |entries| == |items| && forall i :: 0 <= i < |items| ==> Describes(entries[i], items[i], file)
  }

  lemma {:induction false} AppendExtends(items: seq<Item>, w: Written, diskBytes: nat)
    requires AppendAll(items, w, diskBytes).Ok?
    ensures w.out <= AppendAll(items, w, diskBytes).value.out
  {
    if items != [] {
      AppendExtends(items[1..], Append(items[0], w, diskBytes).value, diskBytes);
    }
  }

  lemma SafeIsClean(path: seq<byte>)
    requires SafePath(path)
    ensures 0 !in path
  {
  }

  function SizeOf(item: Item): nat {
    if item.kind == DirectoryItem then 0 else |item.content|
  }

  /** An appended item is its header followed by whole blocks that start with its data. */
  lemma ItemBytes(item: Item, w: Written, diskBytes: nat)
    requires Append(item, w, diskBytes).Ok?
    ensures item.kind == DirectoryItem || item.kind == FileItem
    ensures SafePath(item.path)
    ensures Header(item.path, item.kind == DirectoryItem, SizeOf(item)).Ok?
    ensures var next := Append(item, w, diskBytes).value;
            var header := Header(item.path, item.kind == DirectoryItem, SizeOf(item)).value;
            && next.entries == w.entries + 1 <= MaxEntries(diskBytes)
            && next.bytes == w.bytes + SizeOf(item)
            && (w.bytes <= diskBytes ==> next.bytes <= diskBytes)
            && SizeOf(item) <= Min(MAX_ENTRY_BYTES, diskBytes)
            && |next.out| == |w.out| + BLOCK + Blocks(SizeOf(item))
            && w.out + header <= next.out
            && (item.kind == FileItem ==> w.out + header + item.content <= next.out)
  {
    hide SafePath;
    BlocksAligned(SizeOf(item));
  }

  lemma SliceOfPrefix(prefix: seq<byte>, part: seq<byte>, file: seq<byte>)
    requires prefix + part <= file
    ensures |prefix| + |part| <= |file|
    ensures file[|prefix|..|prefix| + |part|] == part
  {
    assert file[|prefix|..|prefix| + |part|] == file[..|prefix + part|][|prefix|..|prefix| + |part|];
  }

  /** Where an appended item stands in the file: its header at the old end, then its data. */
  lemma ItemPlace(item: Item, w: Written, diskBytes: nat, file: seq<byte>)
    requires Append(item, w, diskBytes).Ok?
    requires Append(item, w, diskBytes).value.out <= file
    ensures Header(item.path, item.kind == DirectoryItem, SizeOf(item)).Ok?
    ensures |w.out| + BLOCK + SizeOf(item) <= |file|
    ensures file[|w.out|..|w.out| + BLOCK] == Header(item.path, item.kind == DirectoryItem, SizeOf(item)).value
    ensures item.kind == FileItem ==> file[|w.out| + BLOCK..|w.out| + BLOCK + SizeOf(item)] == item.content
  {
    hide SafePath, Append, Header, MaxEntries, Blocks;
    ItemBytes(item, w, diskBytes);
    BlocksAligned(SizeOf(item));
    var header := Header(item.path, item.kind == DirectoryItem, SizeOf(item)).value;
    SliceOfPrefix(w.out, header, file);
    if item.kind == FileItem {
      SliceOfPrefix(w.out + header, item.content, file);
    }
  }

  /** What the reader takes from the header of an appended item. */
  lemma ItemParses(item: Item, w: Written, diskBytes: nat, file: seq<byte>)
    requires Append(item, w, diskBytes).Ok?
    requires Append(item, w, diskBytes).value.out <= file
    ensures |w.out| + BLOCK <= |file|
    ensures var header := file[|w.out|..|w.out| + BLOCK];
            && !AllZero(header)
            && ParseHeader(header, |w.out| + BLOCK, diskBytes)
                 == Ok(Entry(item.path, if item.kind == DirectoryItem then Directory else File, SizeOf(item), |w.out| + BLOCK))
  {
    hide ParseHeader, SafePath, Append, Header, MaxEntries, Blocks, AllZero;
    ItemBytes(item, w, diskBytes);
    ItemPlace(item, w, diskBytes, file);
    SafeIsClean(item.path);
    HeaderRoundTrip(item.path, item.kind == DirectoryItem, SizeOf(item), |w.out| + BLOCK, diskBytes);
  }

  /** One appended item, read back at the offset where it was written. */
  lemma ItemReadsBack(item: Item, w: Written, diskBytes: nat, file: seq<byte>)
    requires Append(item, w, diskBytes).Ok?
    requires Append(item, w, diskBytes).value.out <= file
    requires |w.out| % BLOCK == 0 && w.bytes <= diskBytes
    ensures var next := Append(item, w, diskBytes).value;
            && |w.out| + BLOCK <= |file|
            && var header := file[|w.out|..|w.out| + BLOCK];
            && var parsed := ParseHeader(header, |w.out| + BLOCK, diskBytes);
            && !AllZero(header)
            && parsed.Ok?
            && Describes(parsed.value, item, file)
            && |next.out| == |w.out| + BLOCK + Blocks(parsed.value.size)
            && |next.out| % BLOCK == 0
            && next.bytes == w.bytes + parsed.value.size <= diskBytes
            && next.entries == w.entries + 1 <= MaxEntries(diskBytes)
            && SafePath(parsed.value.path)
  {
    hide ParseHeader, SafePath, Append, Header, MaxEntries, Blocks, AllZero;
    ItemBytes(item, w, diskBytes);
    ItemParses(item, w, diskBytes, file);
    ItemPlace(item, w, diskBytes, file);
    BlocksAligned(SizeOf(item));
  }

  /** The reader, standing where the writer stood, collects the remaining items. */
  lemma {:induction false} ScanReadsBack(items: seq<Item>, w: Written, diskBytes: nat, file: seq<byte>,
                                         read: seq<Entry>, done: seq<Item>)
    requires AppendAll(items, w, diskBytes).Ok?
    requires file == AppendAll(items, w, diskBytes).value.out + Zeros(2 * BLOCK)
    requires |w.out| % BLOCK == 0
    requires |read| == w.entries && w.bytes <= diskBytes
    requires DescribesAll(read, done, file)
    requires forall e <- read :: SafePath(e.path)
    ensures var r := ScanFrom(file, Scan(read, |w.out|, 0), w.bytes, diskBytes);
            && r.Ok? && r.value.zeroBlocks == 2 && r.value.offset == |file|
            && DescribesAll(r.value.entries, done + items, file)
            && (forall e <- r.value.entries :: SafePath(e.path))
    decreases |items|
  {
    hide ParseHeader, Append, SafePath;
    if items == [] {
      Terminator(file, Scan(read, |w.out|, 0), w.bytes, diskBytes);
      assert done + items == done;
    } else {
      var next := Append(items[0], w, diskBytes).value;
      AppendExtends(items[1..], next, diskBytes);
      ItemReadsBack(items[0], w, diskBytes, file);
      var entry := ParseHeader(file[|w.out|..|w.out| + BLOCK], |w.out| + BLOCK, diskBytes).value;
      ScanReadsBack(items[1..], next, diskBytes, file, read + [entry], done + [items[0]]);
      assert done + items == (done + [items[0]]) + items[1..];
    }
  }

  lemma Terminator(file: seq<byte>, s: Scan, aggregate: nat, diskBytes: nat)
    requires |file| == s.offset + 2 * BLOCK && s.zeroBlocks == 0
    requires AllZero(file[s.offset..])
    ensures ScanFrom(file, s, aggregate, diskBytes) == Ok(Scan(s.entries, |file|, 2))
  {
    hide ParseHeader;
    var n := s.offset;
    assert file[n..n + BLOCK] == file[n..][..BLOCK];
    assert file[n + BLOCK..n + 2 * BLOCK] == file[n..][BLOCK..];
    var second := Scan(s.entries, n + BLOCK, 1);
    assert ScanFrom(file, second, aggregate, diskBytes) == Ok(Scan(s.entries, |file|, 2));
  }

  /**
   Every archive the writer produces is accepted by the reader under the same policy,
   which returns the items in order, each with a data area that holds exactly its bytes.
   The file also fits the limit the reader decompresses under.
   */
  lemma RoundTrip(items: seq<Item>, diskBytes: nat)
    requires Archive(items, diskBytes).Ok?
    ensures var file := Archive(items, diskBytes).value;
            && |file| <= ExpandedLimit(diskBytes)
            && Parsed(file, diskBytes).Ok?
            && DescribesAll(Parsed(file, diskBytes).value, items, file)
  {
    hide ParseHeader, Append, SafePath;
    var file := Archive(items, diskBytes).value;
    ScanReadsBack(items, Written([], 0, 0), diskBytes, file, [], []);
    assert [] + items == items;
    var scan := ScanFrom(file, Scan([], 0, 0), 0, diskBytes).value;
    forall e | e in scan.entries
      ensures e.kind == File || (e.kind == Directory && e.size == 0)
    {
      var i :| 0 <= i < |scan.entries| && scan.entries[i] == e;
      assert Describes(scan.entries[i], items[i], file);
    }
  }

  /**
   The documented entry limit is 256 GiB, but the size field holds eleven octal digits:
   an entry with a splittable path is written exactly when it is smaller than 8 GiB.
   */
  lemma SizeFieldLimit(path: seq<byte>, size: nat)
    requires NameOf(path).Ok?
    ensures Header(path, false, size).Ok? <==> size < 8 * 1024 * 1024 * 1024
  {
    OctalField(size, 12);
    assert Pow8(11) == 8589934592 by {
      assert Pow8(3) == 512;
      assert Pow8(6) == 262144;
      assert Pow8(9) == 134217728;
    }
  }
}
