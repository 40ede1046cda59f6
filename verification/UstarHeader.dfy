/** The 512-byte ustar header: written field by field, read back field by field. */
module UstarHeader {
  import opened Prelude
  import opened UstarFields

  datatype Kind = File | Directory | Symlink | Hardlink | Device | Fifo

  datatype Entry = Entry(path: seq<byte>, kind: Kind, size: nat, dataOffset: nat)

  const SPACES: seq<byte> := [32, 32, 32, 32, 32, 32, 32, 32]
  const MAGIC: seq<byte> := [117, 115, 116, 97, 114, 0]
  const VERSION: seq<byte> := [48, 48]
  const ROOT: seq<byte> := [114, 111, 111, 116]
  const MAX_ENTRY_BYTES: nat := 256 * 1024 * 1024 * 1024

  function Sum(s: seq<byte>): (n: nat)
    ensures n <= 255 * |s|
  {
    if s == [] then 0 else Sum(s[..|s| - 1]) + s[|s| - 1]
  }

  /** The numeric fields that do not depend on the entry always fit. */
  lemma FixedFieldsFit()
    ensures Octal(0, 8).Ok? && |Octal(0, 8).value| == 8
    ensures Octal(0, 12).Ok? && |Octal(0, 12).value| == 12
    ensures Octal(493, 8).Ok? && |Octal(493, 8).value| == 8
    ensures Octal(384, 8).Ok? && |Octal(384, 8).value| == 8
  {
    assert Pow8(7) == 2097152 by { assert Pow8(3) == 512; assert Pow8(6) == 262144; }
    assert Pow8(11) > 0;
    OctalField(0, 8);
    OctalField(0, 12);
    OctalField(493, 8);
    OctalField(384, 8);
  }

  /** A checksum never overflows its field. */
  lemma ChecksumFits(sum: nat)
    requires sum <= 255 * BLOCK
    ensures Octal(sum, 8).Ok? && |Octal(sum, 8).value| == 8
    ensures ParseOctal(Octal(sum, 8).value) == Ok(sum)
  {
    assert Pow8(7) == 2097152 by { assert Pow8(3) == 512; assert Pow8(6) == 262144; }
    OctalField(sum, 8);
    ParseOctalField(sum, 8);
  }

  /** The header with blanks in place of its checksum. */
  function Blank(split: SplitName, directory: bool, size: seq<byte>): (h: seq<byte>)
    requires |split.name| <= NAME_BYTES && |split.prefix| <= PREFIX_BYTES && |size| == 12
    ensures |h| == BLOCK
  {
    FixedFieldsFit();
    var h := Put(Zeros(BLOCK), 0, split.name);
    var h := Put(h, 100, (if directory then Octal(493, 8) else Octal(384, 8)).value);
    var h := Put(h, 108, Octal(0, 8).value);
    var h := Put(h, 116, Octal(0, 8).value);
    var h := Put(h, 124, size);
    var h := Put(h, 136, Octal(0, 12).value);
    var h := Put(h, 148, SPACES);
    var h := Put(h, 156, [if directory then 53 else 48]);
    var h := Put(h, 257, MAGIC);
    var h := Put(h, 263, VERSION);
    var h := Put(h, 265, ROOT);
    var h := Put(h, 297, ROOT);
    Put(h, 345, split.prefix)
  }

  function Checked(blank: seq<byte>): (h: seq<byte>)
    requires |blank| == BLOCK
    ensures |h| == BLOCK
  {
    ChecksumFits(Sum(blank));
    Put(blank, 148, Octal(Sum(blank), 8).value)
  }

  /** The header of an entry, or the reason it has none. */
  function Header(path: seq<byte>, directory: bool, size: nat): (r: Result<seq<byte>, TarError>)
    ensures r.Ok? ==> |r.value| == BLOCK
  {
    NameIsLossless(path);
    OctalField(size, 12);
    var split :- NameOf(path);
    var field :- Octal(size, 12);
    Ok(Checked(Blank(split, directory, field)))
  }

  /** `buffer.write` and `copy`: overwrite a slice of the buffer in place. */
  method Write(buffer: array<byte>, s: seq<byte>, at: nat)
    requires at + |s| <= buffer.Length
    modifies buffer
    ensures buffer[..] == Put(old(buffer[..]), at, s)
  {
    for i := 0 to |s|
      invariant buffer[..] == Put(old(buffer[..]), at, s[..i])
    {
      buffer[at + i] := s[i];
    }
    assert s[..|s|] == s;
  }

  method SumOf(buffer: array<byte>) returns (sum: nat)
    ensures sum == Sum(buffer[..])
  {
    sum := 0;
    for i := 0 to buffer.Length
      invariant sum == Sum(buffer[..i])
    {
      assert buffer[..i + 1][..i] == buffer[..i];
      sum := sum + buffer[i];
    }
    assert buffer[..buffer.Length] == buffer[..];
  }

  /** Fill a zeroed block with the fields of one entry. */
  method TarHeader(path: seq<byte>, directory: bool, size: nat) returns (r: Result<seq<byte>, TarError>)
    ensures r == Header(path, directory, size)
  {
    hide Put, Octal, Sum, ParseOctal, NameOf, Pow8;
    var buffer := new byte[BLOCK](_ => 0);
    assert buffer[..] == Zeros(BLOCK);
    NameIsLossless(path);
    OctalField(size, 12);
    FixedFieldsFit();
    var named := TarName(path);
    if named.Err? {
      return Err(named.error);
    }
    var split := named.value;
    Write(buffer, split.name, 0);
    Write(buffer, (if directory then Octal(493, 8) else Octal(384, 8)).value, 100);
    Write(buffer, Octal(0, 8).value, 108);
    Write(buffer, Octal(0, 8).value, 116);
    var field := Octal(size, 12);
    if field.Err? {
      return Err(field.error);
    }
    Write(buffer, field.value, 124);
    Write(buffer, Octal(0, 12).value, 136);
    Write(buffer, SPACES, 148);
    Write(buffer, [if directory then 53 else 48], 156);
    Write(buffer, MAGIC, 257);
    Write(buffer, VERSION, 263);
    Write(buffer, ROOT, 265);
    Write(buffer, ROOT, 297);
    Write(buffer, split.prefix, 345);
    var sum := SumOf(buffer);
    ChecksumFits(sum);
    Write(buffer, Octal(sum, 8).value, 148);
    r := Ok(buffer[..]);
  }

  // --- reading -------------------------------------------------------------

  function KindOf(flag: seq<byte>): Kind {
    var flag := if flag == [] then [48] else flag;
    if flag == [48] then File
    else if flag == [53] then Directory
    else if flag == [50] then Symlink
    else if flag == [49] then Hardlink
    else if flag == [51] || flag == [52] then Device
    else if flag == [54] then Fifo
    else Symlink
  }

  /** The checks on one header block, in the order the reader makes them. */
  function ParseHeader(header: seq<byte>, dataOffset: nat, diskBytes: nat): (r: Result<Entry, TarError>)
    requires |header| == BLOCK
    ensures r.Ok? ==> r.value.dataOffset == dataOffset
    ensures r.Ok? ==> r.value.size <= MAX_ENTRY_BYTES && r.value.size <= diskBytes
  {
    var checksum :- ParseOctal(header[148..156]);
    if Sum(Put(header, 148, SPACES)) != checksum then Err(BadChecksum)
    else if Ascii(header[257..263]) != MAGIC then Err(BadMagic)
    else
      var path := JoinName(SplitName(CutNul(header[..100]), CutNul(header[345..500])));
      var size :- ParseOctal(header[124..136]);
      if size > Min(MAX_ENTRY_BYTES, diskBytes) then Err(EntryTooLarge)
      else Ok(Entry(path, KindOf(CutNul(header[156..157])), size, dataOffset))
  }

  predicate AllZero(block: seq<byte>) {
    forall i :: 0 <= i < |block| ==> block[i] == 0
  }

  lemma BlankNameAt(split: SplitName, directory: bool, size: seq<byte>, i: nat)
    requires |split.name| <= NAME_BYTES && |split.prefix| <= PREFIX_BYTES && |size| == 12 && i < 100
    ensures Blank(split, directory, size)[i] == if i < |split.name| then split.name[i] else 0
  {
    FixedFieldsFit();
    hide Octal;
  }

  lemma BlankPrefixAt(split: SplitName, directory: bool, size: seq<byte>, i: nat)
    requires |split.name| <= NAME_BYTES && |split.prefix| <= PREFIX_BYTES && |size| == 12 && i < 155
    ensures Blank(split, directory, size)[345 + i] == if i < |split.prefix| then split.prefix[i] else 0
  {
    FixedFieldsFit();
    hide Octal;
  }

  lemma BlankText(split: SplitName, directory: bool, size: seq<byte>)
    requires |split.name| <= NAME_BYTES && |split.prefix| <= PREFIX_BYTES && |size| == 12
    ensures var h := Blank(split, directory, size);
            h[..100] == split.name + Zeros(100 - |split.name|) && h[345..500] == split.prefix + Zeros(155 - |split.prefix|)
  {
    hide Blank;
    var h := Blank(split, directory, size);
    forall i: nat | i < 155
      ensures i < 100 ==> h[..100][i] == (split.name + Zeros(100 - |split.name|))[i]
      ensures h[345..500][i] == (split.prefix + Zeros(155 - |split.prefix|))[i]
    {
      if i < 100 {
        BlankNameAt(split, directory, size, i);
      }
      BlankPrefixAt(split, directory, size, i);
    }
  }

  lemma BlankMarks(split: SplitName, directory: bool, size: seq<byte>)
    requires |split.name| <= NAME_BYTES && |split.prefix| <= PREFIX_BYTES && |size| == 12
    ensures var h := Blank(split, directory, size);
            && h[124..136] == size
            && h[148..156] == SPACES
            && h[156..157] == [if directory then 53 else 48]
            && h[257..263] == MAGIC
  {
    FixedFieldsFit();
    hide Octal;
  }

  /** The fields of a blank header sit where a reader looks for them. */
  lemma BlankFields(split: SplitName, directory: bool, size: seq<byte>)
    requires |split.name| <= NAME_BYTES && |split.prefix| <= PREFIX_BYTES && |size| == 12
    ensures var h := Blank(split, directory, size);
            && h[..100] == split.name + Zeros(100 - |split.name|)
            && h[124..136] == size
            && h[148..156] == SPACES
            && h[156..157] == [if directory then 53 else 48]
            && h[257..263] == MAGIC
            && h[345..500] == split.prefix + Zeros(155 - |split.prefix|)
  {
    hide Blank;
    BlankText(split, directory, size);
    BlankMarks(split, directory, size);
  }

  /** Filling in the checksum disturbs no other field and is undone by blanking it again. */
  lemma CheckedFields(blank: seq<byte>)
    requires |blank| == BLOCK && blank[148..156] == SPACES
    ensures Octal(Sum(blank), 8).Ok?
    ensures var h := Checked(blank);
            && h[..100] == blank[..100]
            && h[124..136] == blank[124..136]
            && h[148..156] == Octal(Sum(blank), 8).value
            && h[156..157] == blank[156..157]
            && h[257..263] == blank[257..263]
            && h[345..500] == blank[345..500]
            && Put(h, 148, SPACES) == blank
  {
    ChecksumFits(Sum(blank));
    var sum := Octal(Sum(blank), 8).value;
    PutBeside(blank, 148, sum, 0, 100);
    PutBeside(blank, 148, sum, 124, 136);
    PutBeside(blank, 148, sum, 156, 157);
    PutBeside(blank, 148, sum, 257, 263);
    PutBeside(blank, 148, sum, 345, 500);
    PutOver(blank, 148, sum, SPACES);
    assert blank == blank[..148] + blank[148..156] + blank[156..];
  }

  /**
   Reading a written header returns the entry it was written for, and no written
   header looks like an end-of-archive block.
   */
  lemma HeaderRoundTrip(path: seq<byte>, directory: bool, size: nat, dataOffset: nat, diskBytes: nat)
    requires 0 !in path
    requires Header(path, directory, size).Ok?
    requires size <= Min(MAX_ENTRY_BYTES, diskBytes)
    ensures var h := Header(path, directory, size).value;
            && ParseHeader(h, dataOffset, diskBytes)
                 == Ok(Entry(path, if directory then Directory else File, size, dataOffset))
            && !AllZero(h)
  {
    hide Header, Octal, ParseOctal, Sum, Put, CutNul, JoinName, Ascii;
    var h := Header(path, directory, size).value;
    WrittenFields(path, directory, size);
    ParseOctalField(size, 12);
    assert h[257..263][0] == h[257];
  }

  /** The fields of `h` are those of an entry with this split name. */
  predicate Holds(h: seq<byte>, split: SplitName, directory: bool, size: nat) {
    && |h| == BLOCK
    && |split.name| <= NAME_BYTES && |split.prefix| <= PREFIX_BYTES
    && h[..100] == split.name + Zeros(100 - |split.name|)
    && h[345..500] == split.prefix + Zeros(155 - |split.prefix|)
    && Ok(h[124..136]) == Octal(size, 12)
    && h[156..157] == [if directory then 53 else 48]
    && h[257..263] == MAGIC
    && Ok(h[148..156]) == Octal(Sum(Put(h, 148, SPACES)), 8)
  }

  lemma HeaderHolds(path: seq<byte>, directory: bool, size: nat)
    requires Header(path, directory, size).Ok?
    ensures Holds(Header(path, directory, size).value, NameOf(path).value, directory, size)
  {
    NameIsLossless(path);
    OctalField(size, 12);
    var blank := Blank(NameOf(path).value, directory, Octal(size, 12).value);
    BlankFields(NameOf(path).value, directory, Octal(size, 12).value);
    CheckedFields(blank);
  }

  /** What a reader extracts from each field of a written header. */
  lemma WrittenFields(path: seq<byte>, directory: bool, size: nat)
    requires 0 !in path
    requires Header(path, directory, size).Ok?
    ensures var h := Header(path, directory, size).value;
            && Octal(size, 12) == Ok(h[124..136])
            && ParseOctal(h[148..156]) == Ok(Sum(Put(h, 148, SPACES)))
            && CutNul(h[156..157]) == [if directory then 53 else 48]
            && h[257..263] == MAGIC && Ascii(h[257..263]) == MAGIC
            && JoinName(SplitName(CutNul(h[..100]), CutNul(h[345..500]))) == path
  {
    HeaderHolds(path, directory, size);
    NameIsLossless(path);
    HeldFields(Header(path, directory, size).value, NameOf(path).value, path, directory, size);
  }

  lemma HeldFields(h: seq<byte>, split: SplitName, path: seq<byte>, directory: bool, size: nat)
    requires Holds(h, split, directory, size)
    requires JoinName(split) == path && 0 !in path
    ensures ParseOctal(h[148..156]) == Ok(Sum(Put(h, 148, SPACES)))
    ensures CutNul(h[156..157]) == [if directory then 53 else 48]
    ensures Ascii(h[257..263]) == MAGIC
    ensures CutNul(h[..100]) == split.name && CutNul(h[345..500]) == split.prefix
  {
    hide Octal, ParseOctal, Sum, Put, CutNul, JoinName;
    ChecksumFits(Sum(Put(h, 148, SPACES)));
    PartsClean(split, path);
    CutPadding(split.name, 100 - |split.name|);
    CutPadding(split.prefix, 155 - |split.prefix|);
    var flag: seq<byte> := [if directory then 53 else 48];
    CutPadding(flag, 0);
    assert flag + Zeros(0) == flag;
    assert Ascii(MAGIC) == MAGIC;
  }

  lemma PartsClean(split: SplitName, path: seq<byte>)
    requires JoinName(split) == path && 0 !in path
    ensures 0 !in split.name && 0 !in split.prefix
  {
    if split.prefix != [] {
      forall b | b in split.name ensures b in path {
        var i :| 0 <= i < |split.name| && split.name[i] == b;
        assert path[|split.prefix| + 1 + i] == b;
      }
      forall b | b in split.prefix ensures b in path {
        var i :| 0 <= i < |split.prefix| && split.prefix[i] == b;
        assert path[i] == b;
      }
    }
  }
}
