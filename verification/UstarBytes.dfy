/** What the bytes of a header block say, stated apart from the functions that read them. */
module UstarBytes {
  import opened Prelude
  import opened UstarFields
  import opened UstarHeader

  // --- text fields -----------------------------------------------------------

  /** No line feed, carriage return, line or paragraph separator stands after position `n`. */
  predicate NoBreakAfter(field: seq<byte>, n: nat) {
    forall i :: n < i < |field| ==>
      && field[i] != 10 && field[i] != 13
      && !([226, 128, 168] <= field[i..]) && !([226, 128, 169] <= field[i..])
  }

  /** The text of a field ends at its first NUL without a line break after it, or at its end. */
  predicate TextEnds(field: seq<byte>, n: nat) {
    && n <= |field|
    && (n < |field| ==> field[n] == 0 && NoBreakAfter(field, n))
    && (forall j :: 0 <= j < n && field[j] == 0 ==> !NoBreakAfter(field, j))
  }

  lemma NoBreakIsNoLineBreak(field: seq<byte>, n: nat)
    ensures NoBreakAfter(field, n) <==> forall i :: n < i < |field| ==> !LineBreakAt(field, i)
  {
    forall i | n < i < |field|
      ensures LineBreakAt(field, i) <==>
                || field[i] == 10 || field[i] == 13
                || [226, 128, 168] <= field[i..] || [226, 128, 169] <= field[i..]
    {
      if i + 2 < |field| {
        assert field[i..][0] == field[i] && field[i..][1] == field[i + 1] && field[i..][2] == field[i + 2];
      }
    }
  }

  lemma NoBreakInTail(field: seq<byte>, n: nat)
    requires field != []
    ensures NoBreakAfter(field[1..], n) <==> NoBreakAfter(field, n + 1)
  {
    var tail := field[1..];
    assert forall i :: 0 <= i < |tail| ==> tail[i] == field[i + 1] && tail[i..] == field[i + 1..];
    if NoBreakAfter(tail, n) {
      forall i | n + 1 < i < |field|
        ensures && field[i] != 10 && field[i] != 13
                && !([226, 128, 168] <= field[i..]) && !([226, 128, 169] <= field[i..])
      {
        assert tail[i - 1] == field[i] && tail[i - 1..] == field[i..];
      }
    }
  }

  /** Cutting a field keeps exactly its text. */
  lemma {:induction false} CutMeans(field: seq<byte>, n: nat)
    ensures |CutNul(field)| <= |field| && CutNul(field) == field[..|CutNul(field)|]
    ensures TextEnds(field, n) <==> n == |CutNul(field)|
  {
    hide NoBreakAfter;
    if field != [] {
      NoBreakIsNoLineBreak(field, 0);
      if field[0] == 0 && NoBreakAfter(field, 0) {
        assert CutNul(field) == [];
      } else {
        var tail := field[1..];
        assert CutNul(field) == [field[0]] + CutNul(tail);
        CutMeans(tail, if n == 0 then 0 else n - 1);
        if n > 0 {
          TextEndsInTail(field, n);
        }
      }
    }
  }

  lemma TextEndsInTail(field: seq<byte>, n: nat)
    requires field != [] && n > 0 && !(field[0] == 0 && NoBreakAfter(field, 0))
    ensures TextEnds(field, n) <==> TextEnds(field[1..], n - 1)
  {
    hide NoBreakAfter;
    var tail := field[1..];
    forall j: nat ensures NoBreakAfter(tail, j) <==> NoBreakAfter(field, j + 1) {
      NoBreakInTail(field, j);
    }
    if TextEnds(tail, n - 1) {
      forall j | 0 <= j < n && field[j] == 0 ensures !NoBreakAfter(field, j) {
        if j > 0 {
          assert tail[j - 1] == field[j];
        }
      }
    }
    if TextEnds(field, n) {
      forall j | 0 <= j < n - 1 && tail[j] == 0 ensures !NoBreakAfter(tail, j) {
        assert field[j + 1] == tail[j];
      }
    }
  }

  // --- numeric fields --------------------------------------------------------

  predicate Blanks(t: seq<byte>) {
    forall i :: 0 <= i < |t| ==> t[i] in {9, 10, 11, 12, 13, 32}
  }

  /** `t[lo..hi]` are octal digits, between blanks, up to the end or to a NUL that no line break follows. */
  predicate DigitsAt(t: seq<byte>, lo: nat, hi: nat, end: nat) {
    && lo < hi <= end <= |t|
    && Blanks(t[..lo]) && Blanks(t[hi..end])
    && (forall i :: lo <= i < hi ==> 48 <= t[i] <= 55)
    && (end < |t| ==> t[end] == 0 && forall i :: end < i < |t| ==> t[i] != 10 && t[i] != 13)
  }

  /** The field holds the number `v` in octal; the high bit of every byte is ignored. */
  ghost predicate Holding(field: seq<byte>, v: nat) {
    var t := Ascii(field);
    exists lo: nat, hi: nat, end: nat :: DigitsAt(t, lo, hi, end) && OctalValue(t[lo..hi]) == v
  }

  lemma {:induction false} TrimStartMeans(s: seq<byte>, k: nat)
    requires k <= |s| && Blanks(s[..k]) && (k < |s| ==> !White(s[k]))
    ensures TrimStart(s) == s[k..]
  {
    if k > 0 {
      assert White(s[..k][0]);
      assert s[1..][..k - 1] == s[..k][1..];
      assert s[1..][k - 1..] == s[k..];
      TrimStartMeans(s[1..], k - 1);
    }
  }

  lemma {:induction false} TrimEndMeans(s: seq<byte>, k: nat)
    requires k <= |s| && Blanks(s[k..]) && (k > 0 ==> !White(s[k - 1]))
    ensures TrimEnd(s) == s[..k]
  {
    if k < |s| {
      assert White(s[k..][|s| - 1 - k]);
      assert s[..|s| - 1][k..] == s[k..][..|s| - 1 - k];
      assert s[..|s| - 1][..k] == s[..k];
      TrimEndMeans(s[..|s| - 1], k);
    }
  }

  lemma {:induction false} TrimStartPoint(s: seq<byte>) returns (k: nat)
    ensures k <= |s| && Blanks(s[..k]) && (k < |s| ==> !White(s[k]))
  {
    k := 0;
    while k < |s| && White(s[k])
      invariant 0 <= k <= |s| && Blanks(s[..k])
    {
      assert s[..k + 1] == s[..k] + [s[k]];
      k := k + 1;
    }
  }

  lemma {:induction false} TrimEndPoint(s: seq<byte>) returns (k: nat)
    ensures k <= |s| && Blanks(s[k..]) && (k > 0 ==> !White(s[k - 1]))
  {
    k := |s|;
    while k > 0 && White(s[k - 1])
      invariant 0 <= k <= |s| && Blanks(s[k..])
    {
      assert s[k - 1..] == [s[k - 1]] + s[k..];
      k := k - 1;
    }
  }

  /** The reader takes a number out of a field exactly if the field holds it and it is a safe integer. */
  lemma {:induction false} OctalMeans(field: seq<byte>, v: nat)
    ensures ParseOctal(field) == Ok(v) <==> Holding(field, v) && v <= 9007199254740991
  {
    hide OctalValue, CutNul, TrimStart, TrimEnd;
    var t := Ascii(field);
    if ParseOctal(field) == Ok(v) {
      CutMeans(t, |CutNul(t)|);
      var end := |CutNul(t)|;
      var text := t[..end];
      var lo := TrimStartPoint(text);
      TrimStartMeans(text, lo);
      var n := TrimEndPoint(text[lo..]);
      TrimEndMeans(text[lo..], n);
      assert text[lo..][..n] == t[lo..lo + n];
      assert text[lo..][n..] == t[lo + n..end];
      assert text[..lo] == t[..lo];
      assert forall i :: lo <= i < lo + n ==> t[i] == t[lo..lo + n][i - lo];
      assert DigitsAt(t, lo, lo + n, end);
    }
    if Holding(field, v) {
      var lo: nat, hi: nat, end: nat :| DigitsAt(t, lo, hi, end) && OctalValue(t[lo..hi]) == v;
      HeldText(t, lo, hi, end);
    }
  }

  lemma HeldText(t: seq<byte>, lo: nat, hi: nat, end: nat)
    requires DigitsAt(t, lo, hi, end) && forall i :: 0 <= i < |t| ==> t[i] < 128
    ensures TrimEnd(TrimStart(CutNul(t))) == t[lo..hi]
  {
    hide CutNul, TrimStart, TrimEnd, TextEnds;
    HeldEnds(t, lo, hi, end);
    CutMeans(t, end);
    HeldTrims(t, lo, hi, end);
  }

  /** The text of such a field ends after its digits and blanks. */
  lemma HeldEnds(t: seq<byte>, lo: nat, hi: nat, end: nat)
    requires DigitsAt(t, lo, hi, end) && forall i :: 0 <= i < |t| ==> t[i] < 128
    ensures TextEnds(t, end)
  {
    forall j | 0 <= j < end ensures t[j] != 0 {
      if j < lo {
        assert t[..lo][j] == t[j];
      } else if j >= hi {
        assert t[hi..end][j - hi] == t[j];
      }
    }
    forall i | end < i < |t|
      ensures !([226, 128, 168] <= t[i..]) && !([226, 128, 169] <= t[i..])
    {
      assert t[i..][0] == t[i] != 226;
    }
  }

  lemma HeldTrims(t: seq<byte>, lo: nat, hi: nat, end: nat)
    requires DigitsAt(t, lo, hi, end)
    ensures TrimEnd(TrimStart(t[..end])) == t[lo..hi]
  {
    hide TrimStart, TrimEnd;
    var text := t[..end];
    assert text[..lo] == t[..lo] && text[lo] == t[lo];
    TrimStartMeans(text, lo);
    var rest := text[lo..];
    assert rest[hi - lo..] == t[hi..end];
    assert rest[hi - lo - 1] == t[hi - 1];
    TrimEndMeans(rest, hi - lo);
    assert rest[..hi - lo] == t[lo..hi];
  }

  // --- the block -------------------------------------------------------------

  lemma {:induction false} SumConcat(a: seq<byte>, b: seq<byte>)
    ensures Sum(a + b) == Sum(a) + Sum(b)
  {
    if b == [] {
      assert a + b == a;
    } else {
      assert (a + b)[..|a + b| - 1] == a + b[..|b| - 1];
      SumConcat(a, b[..|b| - 1]);
    }
  }

  /** The sum of a block is the sum of its bytes: it adds up over pieces, and one byte is its own sum. */
  lemma SumIsOfBytes(a: seq<byte>, b: seq<byte>, x: byte)
    ensures Sum(a + b) == Sum(a) + Sum(b) && Sum([x]) == x && Sum([]) == 0
  {
    SumConcat(a, b);
    assert [x][..0] == [];
  }

  lemma BlankedSum(h: seq<byte>)
    requires |h| == 512
    ensures Sum(Put(h, 148, SPACES)) == Sum(h[..148]) + 8 * 32 + Sum(h[156..])
  {
    SumConcat(h[..148] + SPACES, h[156..]);
    SumConcat(h[..148], SPACES);
    BlankSum(SPACES);
  }

  lemma {:induction false} BlankSum(s: seq<byte>)
    requires forall i :: 0 <= i < |s| ==> s[i] == 32
    ensures Sum(s) == |s| * 32
  {
    if s != [] {
      BlankSum(s[..|s| - 1]);
    }
  }

  /** The path of a header: its name, below its prefix if it has one. */
  ghost predicate Naming(h: seq<byte>, path: seq<byte>)
    requires |h| == 512
  {
    exists n: nat, p: nat :: && TextEnds(h[..100], n) && TextEnds(h[345..500], p)
                   && path == if p == 0 then h[..n] else h[345..345 + p] + [47] + h[..n]
  }

  predicate TypeByte(kind: Kind, b: byte) {
    match kind
    case File => b == 48 || b == 0
    case Directory => b == 53
    case Hardlink => b == 49
    case Device => b == 51 || b == 52
    case Fifo => b == 54
    case Symlink => b !in {0, 48, 49, 51, 52, 53, 54}
  }

  /** The bytes of a sound header block, and what they say of its entry. */
  ghost predicate HeaderSays(h: seq<byte>, path: seq<byte>, kind: Kind, size: nat) {
    && |h| == 512
    // The stored checksum is the sum of all bytes, with blanks for the checksum itself.
    && Holding(h[148..156], Sum(h[..148]) + 8 * 32 + Sum(h[156..]))
    // ustar and a NUL.
    && h[257] % 128 == 117 && h[258] % 128 == 115 && h[259] % 128 == 116
    && h[260] % 128 == 97 && h[261] % 128 == 114 && h[262] % 128 == 0
    && Naming(h, path)
    && Holding(h[124..136], size)
    && TypeByte(kind, h[156])
  }

  lemma NamingMeans(h: seq<byte>, path: seq<byte>)
    requires |h| == 512
    ensures Naming(h, path) <==> path == JoinName(SplitName(CutNul(h[..100]), CutNul(h[345..500])))
  {
    hide CutNul, TextEnds;
    var name, prefix := h[..100], h[345..500];
    var n, p := |CutNul(name)|, |CutNul(prefix)|;
    forall k: nat
      ensures TextEnds(name, k) <==> k == n
      ensures TextEnds(prefix, k) <==> k == p
    {
      CutMeans(name, k);
      CutMeans(prefix, k);
    }
    CutMeans(name, n);
    CutMeans(prefix, p);
    assert name[..n] == h[..n];
    assert prefix[..p] == h[345..345 + p];
    assert TextEnds(name, n) && TextEnds(prefix, p);
  }

  lemma TypeMeans(b: byte, kind: Kind)
    ensures KindOf(CutNul([b])) == kind <==> TypeByte(kind, b)
  {
    if b == 0 {
      assert CutNul([b]) == [];
    } else {
      assert CutNul([b]) == [b] + CutNul([b][1..]) == [b];
    }
  }

  lemma MagicMeans(h: seq<byte>)
    requires |h| == 512
    ensures Ascii(h[257..263]) == MAGIC <==>
              && h[257] % 128 == 117 && h[258] % 128 == 115 && h[259] % 128 == 116
              && h[260] % 128 == 97 && h[261] % 128 == 114 && h[262] % 128 == 0
  {
    var m := Ascii(h[257..263]);
    assert |m| == 6 && m == [m[0], m[1], m[2], m[3], m[4], m[5]];
  }

  /** The reader's checks, all together. */
  lemma ParsesWhen(h: seq<byte>, dataOffset: nat, diskBytes: nat, e: Entry)
    requires |h| == 512
    ensures ParseHeader(h, dataOffset, diskBytes) == Ok(e) <==>
              && ParseOctal(h[148..156]) == Ok(Sum(Put(h, 148, SPACES)))
              && Ascii(h[257..263]) == MAGIC
              && e.path == JoinName(SplitName(CutNul(h[..100]), CutNul(h[345..500])))
              && ParseOctal(h[124..136]) == Ok(e.size) && e.size <= 256 * 1024 * 1024 * 1024 && e.size <= diskBytes
              && e.kind == KindOf(CutNul(h[156..157]))
              && e.dataOffset == dataOffset
  {
    hide ParseOctal, CutNul, KindOf, JoinName, Ascii, Put, Sum;
  }

  /**
   The reader takes an entry from a header exactly if the bytes of the block say it:
   its own checksum, the magic, and the path, kind and size of the entry, within the
   limit on one entry.
   */
  lemma HeaderMeans(h: seq<byte>, dataOffset: nat, diskBytes: nat, e: Entry)
    requires |h| == 512
    ensures ParseHeader(h, dataOffset, diskBytes) == Ok(e) <==>
              && HeaderSays(h, e.path, e.kind, e.size) && e.dataOffset == dataOffset
              && e.size <= 256 * 1024 * 1024 * 1024 && e.size <= diskBytes
  {
    hide ParseHeader, ParseOctal, Holding, Naming, CutNul, KindOf, TypeByte, JoinName, Ascii, Put, Sum;
    ParsesWhen(h, dataOffset, diskBytes, e);
    BlankedSum(h);
    OctalMeans(h[148..156], Sum(Put(h, 148, SPACES)));
    OctalMeans(h[124..136], e.size);
    NamingMeans(h, e.path);
    assert h[156..157] == [h[156]];
    TypeMeans(h[156], e.kind);
    MagicMeans(h);
  }

  /** A sound header is not an end-of-archive block. */
  lemma SoundIsNotZero(field: seq<byte>, v: nat)
    requires Holding(field, v)
    ensures exists i :: 0 <= i < |field| && field[i] != 0
  {
    var t := Ascii(field);
    var lo: nat, hi: nat, end: nat :| DigitsAt(t, lo, hi, end) && OctalValue(t[lo..hi]) == v;
    assert t[lo] == field[lo] % 128 && t[lo] != 0;
  }

  /** A field holds one number only. */
  lemma HoldsOne(field: seq<byte>, v: nat, w: nat)
    requires Holding(field, v) && Holding(field, w)
    requires v <= 9007199254740991 && w <= 9007199254740991
    ensures v == w
  {
    OctalMeans(field, v);
    OctalMeans(field, w);
  }

  /** No header is sound any more once one of its bytes outside the checksum is another. */
  lemma OneByteChanges(h: seq<byte>, at: nat, b: byte, dataOffset: nat, diskBytes: nat)
    requires |h| == 512 && ParseHeader(h, dataOffset, diskBytes).Ok?
    requires at < 512 && !(148 <= at < 156) && h[at] != b
    ensures ParseHeader(h[at := b], dataOffset, diskBytes) == Err(BadChecksum)
    ensures !AllZero(h[at := b])
  {
    var e := ParseHeader(h, dataOffset, diskBytes).value;
    HeaderMeans(h, dataOffset, diskBytes, e);
    var g := h[at := b];
    var field := h[148..156];
    assert g[148..156] == field;
    var sum := Sum(h[..148]) + 8 * 32 + Sum(h[156..]);
    SoundIsNotZero(field, sum);
    var i :| 0 <= i < |field| && field[i] != 0;
    assert g[148 + i] == field[i];
    assert ParseOctal(field) == Ok(sum) by { OctalMeans(field, sum); }
    BlankedSum(g);
    hide ParseOctal, Holding, HeaderSays, Put;
    if at < 148 {
      UpdatedSum(h[..148], at, b);
      assert g[..148] == h[..148][at := b] && g[156..] == h[156..];
    } else {
      UpdatedSum(h[156..], at - 156, b);
      assert g[156..] == h[156..][at - 156 := b] && g[..148] == h[..148];
    }
  }

  lemma UpdatedSum(s: seq<byte>, at: nat, b: byte)
    requires at < |s|
    ensures Sum(s[at := b]) == Sum(s) - s[at] + b
  {
    assert s == (s[..at] + [s[at]]) + s[at + 1..];
    assert s[at := b] == (s[..at] + [b]) + s[at + 1..];
    SumConcat(s[..at] + [s[at]], s[at + 1..]);
    SumConcat(s[..at] + [b], s[at + 1..]);
    SumIsOfBytes(s[..at], [s[at]], s[at]);
    SumIsOfBytes(s[..at], [b], b);
  }

  // --- the rest of a written header --------------------------------------------

  /** The seven digits of a small number. */
  lemma SmallOctal(v: nat, a: byte, b: byte, c: byte)
    requires v < 512 && a == v / 64 && b == v / 8 % 8 && c == v % 8
    ensures Octal(v, 8) == Ok([48, 48, 48, 48, 48 + a, 48 + b, 48 + c, 0])
  {
    OctalDigits(v, a, b, c);
    var digits: seq<byte> := [48, 48, 48, 48, 48 + a, 48 + b, 48 + c];
    assert PadStart(ToOctal(v), 7) == digits;
    assert digits + [0] == [48, 48, 48, 48, 48 + a, 48 + b, 48 + c, 0];
  }

  lemma OctalDigits(v: nat, a: byte, b: byte, c: byte)
    requires v < 512 && a == v / 64 && b == v / 8 % 8 && c == v % 8
    ensures ToOctal(v) == if v < 8 then [48 + c] else if v < 64 then [48 + b, 48 + c] else [48 + a, 48 + b, 48 + c]
  {
    if v >= 8 {
      assert ToOctal(v) == ToOctal(v / 8) + [48 + v % 8];
      if v >= 64 {
        assert ToOctal(v / 8) == ToOctal(v / 8 / 8) + [48 + v / 8 % 8];
        assert v / 8 / 8 == v / 64;
      }
    }
  }

  lemma WrittenIsChecked(path: seq<byte>, directory: bool, size: nat)
    requires Header(path, directory, size).Ok?
    ensures NameOf(path).Ok? && Octal(size, 12).Ok? && |Octal(size, 12).value| == 12
    ensures |NameOf(path).value.name| <= NAME_BYTES && |NameOf(path).value.prefix| <= PREFIX_BYTES
    ensures Header(path, directory, size) == Ok(Checked(Blank(NameOf(path).value, directory, Octal(size, 12).value)))
  {
    NameIsLossless(path);
    OctalField(size, 12);
  }

  /** The numbers of a written header: mode 755 or 600, no owner and no time. */
  lemma WrittenNumbers(path: seq<byte>, directory: bool, size: nat)
    requires Header(path, directory, size).Ok?
    ensures var h := Header(path, directory, size).value;
            && h[100..108] == (if directory then [48, 48, 48, 48, 55, 53, 53, 0] else [48, 48, 48, 48, 54, 48, 48, 0])
            && h[108..116] == [48, 48, 48, 48, 48, 48, 48, 0] && h[116..124] == [48, 48, 48, 48, 48, 48, 48, 0]
            && h[136..148] == [48, 48, 48, 48, 48, 48, 48, 48, 48, 48, 48, 0]
  {
    hide Octal, Sum, Blank, Put, NameOf, ToOctal, Checked, Header;
    WrittenIsChecked(path, directory, size);
    var blank := Blank(NameOf(path).value, directory, Octal(size, 12).value);
    BlankNumbers(NameOf(path).value, directory, Octal(size, 12).value);
    SmallOctal(493, 7, 5, 5);
    SmallOctal(384, 6, 0, 0);
    SmallOctal(0, 0, 0, 0);
    NoTime();
    CheckedBeside(blank, 100, 108);
    CheckedBeside(blank, 108, 116);
    CheckedBeside(blank, 116, 124);
    CheckedBeside(blank, 136, 148);
  }

  lemma NoTime()
    ensures Octal(0, 12) == Ok([48, 48, 48, 48, 48, 48, 48, 48, 48, 48, 48, 0])
  {
    var digits: seq<byte> := [48, 48, 48, 48, 48, 48, 48, 48, 48, 48, 48];
    assert PadStart(ToOctal(0), 11) == digits;
    assert digits + [0] == [48, 48, 48, 48, 48, 48, 48, 48, 48, 48, 48, 0];
  }

  /** The rest of a written header: version 00, owned by root, and zeros wherever no field is. */
  lemma WrittenOwners(path: seq<byte>, directory: bool, size: nat)
    requires Header(path, directory, size).Ok?
    ensures var h := Header(path, directory, size).value;
            && h[157..257] == Zeros(100)
            && h[263..269] == [48, 48, 114, 111, 111, 116] && h[269..297] == Zeros(28)
            && h[297..301] == [114, 111, 111, 116] && h[301..345] == Zeros(44)
            && h[500..512] == Zeros(12)
  {
    hide Octal, Sum, Blank, Put, NameOf, ToOctal, Checked, Header;
    WrittenIsChecked(path, directory, size);
    var blank := Blank(NameOf(path).value, directory, Octal(size, 12).value);
    BlankOwners(NameOf(path).value, directory, Octal(size, 12).value);
    CheckedBeside(blank, 157, 257);
    CheckedBeside(blank, 263, 269);
    CheckedBeside(blank, 269, 297);
    CheckedBeside(blank, 297, 301);
    CheckedBeside(blank, 301, 345);
    CheckedBeside(blank, 500, 512);
  }

  lemma CheckedBeside(blank: seq<byte>, lo: nat, hi: nat)
    requires |blank| == 512 && lo <= hi <= 512 && (hi <= 148 || 156 <= lo)
    ensures Checked(blank)[lo..hi] == blank[lo..hi]
  {
    ChecksumFits(Sum(blank));
    PutBeside(blank, 148, Octal(Sum(blank), 8).value, lo, hi);
  }

  /** The bytes of the numeric fields of a blank header. */
  lemma BlankNumberAt(split: SplitName, directory: bool, size: seq<byte>, i: nat)
    requires |split.name| <= NAME_BYTES && |split.prefix| <= PREFIX_BYTES && |size| == 12 && i < 12
    ensures Octal(493, 8).Ok? && |Octal(493, 8).value| == 8 && Octal(384, 8).Ok? && |Octal(384, 8).value| == 8
    ensures Octal(0, 8).Ok? && |Octal(0, 8).value| == 8 && Octal(0, 12).Ok? && |Octal(0, 12).value| == 12
    ensures var h := Blank(split, directory, size);
            && h[136 + i] == Octal(0, 12).value[i]
            && (i < 8 ==>
                  && h[100 + i] == (if directory then Octal(493, 8) else Octal(384, 8)).value[i]
                  && h[108 + i] == Octal(0, 8).value[i] && h[116 + i] == Octal(0, 8).value[i])
  {
    FixedFieldsFit();
    hide Octal;
  }

  lemma BlankNumbers(split: SplitName, directory: bool, size: seq<byte>)
    requires |split.name| <= NAME_BYTES && |split.prefix| <= PREFIX_BYTES && |size| == 12
    ensures Octal(493, 8).Ok? && Octal(384, 8).Ok? && Octal(0, 8).Ok? && Octal(0, 12).Ok?
    ensures var h := Blank(split, directory, size);
            && h[100..108] == (if directory then Octal(493, 8) else Octal(384, 8)).value
            && h[108..116] == Octal(0, 8).value && h[116..124] == Octal(0, 8).value
            && h[136..148] == Octal(0, 12).value
  {
    hide Octal, Blank;
    BlankNumberAt(split, directory, size, 0);
    var h := Blank(split, directory, size);
    forall i: nat | i < 12
      ensures h[136..148][i] == Octal(0, 12).value[i]
      ensures i < 8 ==> h[100..108][i] == (if directory then Octal(493, 8) else Octal(384, 8)).value[i]
      ensures i < 8 ==> h[108..116][i] == Octal(0, 8).value[i] && h[116..124][i] == Octal(0, 8).value[i]
    {
      BlankNumberAt(split, directory, size, i);
    }
  }

  /** Where no field is, a blank header is zero. */
  lemma BlankGap(split: SplitName, directory: bool, size: seq<byte>, i: nat)
    requires |split.name| <= NAME_BYTES && |split.prefix| <= PREFIX_BYTES && |size| == 12
    requires 157 <= i < 257 || 269 <= i < 297 || 301 <= i < 345 || 500 <= i < 512
    ensures Blank(split, directory, size)[i] == 0
  {
    FixedFieldsFit();
    hide Octal;
  }

  lemma BlankOwnerAt(split: SplitName, directory: bool, size: seq<byte>, i: nat)
    requires |split.name| <= NAME_BYTES && |split.prefix| <= PREFIX_BYTES && |size| == 12 && i < 4
    ensures var h := Blank(split, directory, size);
            h[263] == h[264] == 48 && h[265 + i] == ROOT[i] && h[297 + i] == ROOT[i]
  {
    FixedFieldsFit();
    hide Octal;
  }

  lemma BlankNames(split: SplitName, directory: bool, size: seq<byte>)
    requires |split.name| <= NAME_BYTES && |split.prefix| <= PREFIX_BYTES && |size| == 12
    ensures var h := Blank(split, directory, size);
            h[263..269] == [48, 48, 114, 111, 111, 116] && h[297..301] == [114, 111, 111, 116]
  {
    hide Blank;
    BlankOwnerAt(split, directory, size, 0);
    BlankOwnerAt(split, directory, size, 1);
    BlankOwnerAt(split, directory, size, 2);
    BlankOwnerAt(split, directory, size, 3);
  }

  lemma BlankOwners(split: SplitName, directory: bool, size: seq<byte>)
    requires |split.name| <= NAME_BYTES && |split.prefix| <= PREFIX_BYTES && |size| == 12
    ensures var h := Blank(split, directory, size);
            && h[157..257] == Zeros(100)
            && h[263..269] == [48, 48, 114, 111, 111, 116] && h[269..297] == Zeros(28)
            && h[297..301] == [114, 111, 111, 116] && h[301..345] == Zeros(44)
            && h[500..512] == Zeros(12)
  {
    hide Blank;
    BlankNames(split, directory, size);
    forall i | 157 <= i < 257 || 269 <= i < 297 || 301 <= i < 345 || 500 <= i < 512
      ensures Blank(split, directory, size)[i] == 0
    {
      BlankGap(split, directory, size, i);
    }
  }
}
