/**
 Byte-level fields of a ustar header: octal numbers, NUL-terminated strings and
 the split of a path over the name and prefix fields.  Paths are the UTF-8 bytes
 of the JavaScript strings.
 */
module UstarFields {
  import opened Prelude
  import opened Slashes

  type byte = x: int | 0 <= x < 256

  datatype TarError =
    | FieldOverflow
    | PathTooLong
    | InvalidNumber
    | UnsafeNumber
    | TruncatedHeader
    | BadChecksum
    | BadMagic
    | EntryTooLarge
    | TooManyEntries
    | TooManyBytes
    | BadTerminator
    | DirectoryWithData
    | UnsafePath
    | ForbiddenType
    | InvalidPolicy

  const BLOCK: nat := 512
  const SLASH: byte := 47
  const BACKSLASH: byte := 92
  const DOT: byte := 46
  const SPACE: byte := 32
  const MAX_SAFE_INTEGER: nat := 9007199254740991

  function Zeros(n: nat): (z: seq<byte>)
    ensures |z| == n
    ensures forall i :: 0 <= i < n ==> z[i] == 0
  {
    seq<byte>(n, _ => 0)
  }

  /** Overwrite part of a buffer: what one in-place write leaves behind. */
  function Put(h: seq<byte>, at: nat, s: seq<byte>): (r: seq<byte>)
    requires at + |s| <= |h|
    ensures |r| == |h|
    ensures forall i :: 0 <= i < |h| ==> r[i] == if at <= i < at + |s| then s[i - at] else h[i]
  {
    h[..at] + s + h[at + |s|..]
  }

  /** A write leaves every slice beside it alone. */
  lemma PutBeside(h: seq<byte>, at: nat, s: seq<byte>, lo: nat, hi: nat)
    requires at + |s| <= |h| && lo <= hi <= |h|
    requires hi <= at || at + |s| <= lo
    ensures Put(h, at, s)[lo..hi] == h[lo..hi]
  {
  }

  /** A second write of the same length hides the first. */
  lemma PutOver(h: seq<byte>, at: nat, s: seq<byte>, t: seq<byte>)
    requires at + |s| <= |h| && |s| == |t|
    ensures Put(h, at, s)[at..at + |s|] == s
    ensures Put(Put(h, at, s), at, t) == Put(h, at, t)
  {
  }

  // --- octal numbers -----------------------------------------------------

  function Pow8(n: nat): (p: nat)
    ensures p >= 1
  {
    if n == 0 then 1 else 8 * Pow8(n - 1)
  }

  predicate OctalDigit(b: byte) {
    48 <= b <= 55
  }

  predicate OctalText(s: seq<byte>) {
    forall i :: 0 <= i < |s| ==> OctalDigit(s[i])
  }

  function ToOctal(v: nat): seq<byte> {
    if v < 8 then [48 + v] else ToOctal(v / 8) + [48 + v % 8]
  }

  function PadStart(s: seq<byte>, n: nat): seq<byte> {
    if |s| < n then seq<byte>(n - |s|, _ => 48) + s else s
  }

  /** A fixed-width numeric field: padded octal digits and a NUL. */
  function Octal(value: nat, length: nat): Result<seq<byte>, TarError>
    requires length >= 1
  {
    var encoded := PadStart(ToOctal(value), length - 1);
    if |encoded| >= length then Err(FieldOverflow) else Ok(encoded + [0])
  }

  function OctalValue(s: seq<byte>): nat
    requires OctalText(s)
  {
    if s == [] then 0 else 8 * OctalValue(s[..|s| - 1]) + (s[|s| - 1] - 48)
  }

  lemma {:induction false} ToOctalValue(v: nat)
    ensures OctalText(ToOctal(v)) && OctalValue(ToOctal(v)) == v
    ensures ToOctal(v) != []
  {
    if v < 8 {
      assert ToOctal(v)[..0] == [];
    } else {
      ToOctalValue(v / 8);
      var s := ToOctal(v);
      assert s[..|s| - 1] == ToOctal(v / 8);
    }
  }

  lemma {:induction false} ToOctalLength(v: nat, n: nat)
    requires n >= 1
    ensures |ToOctal(v)| <= n <==> v < Pow8(n)
  {
    if v < 8 {
      Pow8Grows(n);
    } else if n == 1 {
      ToOctalValue(v / 8);
    } else {
      ToOctalLength(v / 8, n - 1);
    }
  }

  lemma {:induction false} Pow8Grows(n: nat)
    requires n >= 1
    ensures Pow8(n) >= 8
  {
    if n > 1 { Pow8Grows(n - 1); }
  }

  lemma {:induction false} LeadingZeros(k: nat, s: seq<byte>)
    requires OctalText(s)
    ensures OctalText(seq<byte>(k, _ => 48) + s)
    ensures OctalValue(seq<byte>(k, _ => 48) + s) == OctalValue(s)
    decreases |s|, k
  {
    var z := seq<byte>(k, _ => 48);
    if s == [] {
      assert z + s == z;
      if k > 0 {
        LeadingZeros(k - 1, []);
        assert z[..k - 1] == seq<byte>(k - 1, _ => 48) + [];
      }
    } else {
      LeadingZeros(k, s[..|s| - 1]);
      assert (z + s)[..|z + s| - 1] == z + s[..|s| - 1];
    }
  }

  /** The field accepts exactly the values that fit its digits, and its digits denote the value. */
  lemma OctalField(value: nat, length: nat)
    requires length >= 2
    ensures Octal(value, length).Ok? <==> value < Pow8(length - 1)
    ensures Octal(value, length).Ok? ==>
              var field := Octal(value, length).value;
              && |field| == length
              && field[length - 1] == 0
              && OctalText(field[..length - 1])
              && OctalValue(field[..length - 1]) == value
  {
    ToOctalLength(value, length - 1);
    ToOctalValue(value);
    var digits := ToOctal(value);
    if |digits| < length - 1 {
      LeadingZeros(length - 1 - |digits|, digits);
    }
    if Octal(value, length).Ok? {
      assert Octal(value, length).value[..length - 1] == PadStart(digits, length - 1);
    }
  }

  // --- reading text fields -----------------------------------------------

  /** Node's 'ascii' decoding drops the high bit of every byte. */
  function Ascii(s: seq<byte>): (r: seq<byte>)
    ensures |r| == |s|
    ensures forall i :: 0 <= i < |s| ==> r[i] == s[i] % 128
  {
    seq<byte>(|s|, i requires 0 <= i < |s| => s[i] % 128)
  }

  /** A line terminator of ECMAScript regular expressions, in UTF-8. */
  predicate LineBreakAt(s: seq<byte>, i: nat)
    requires i < |s|
  {
    || s[i] == 10
    || s[i] == 13
    || (i + 2 < |s| && s[i] == 0xE2 && s[i + 1] == 0x80 && (s[i + 2] == 0xA8 || s[i + 2] == 0xA9))
  }

  /** `replace(/\0.*$/, '')`: cut at the first NUL that no line terminator follows. */
  function CutNul(s: seq<byte>): seq<byte> {
    if s == [] then []
    else if s[0] == 0 && forall i :: 1 <= i < |s| ==> !LineBreakAt(s, i) then []
    else [s[0]] + CutNul(s[1..])
  }

  lemma {:induction false} CutPadding(s: seq<byte>, k: nat)
    requires 0 !in s
    ensures CutNul(s + Zeros(k)) == s
  {
    if s == [] {
      assert s + Zeros(k) == Zeros(k);
    } else {
      assert (s + Zeros(k))[1..] == s[1..] + Zeros(k);
      CutPadding(s[1..], k);
    }
  }

  predicate White(b: byte) {
    9 <= b <= 13 || b == 32
  }

  function TrimStart(s: seq<byte>): seq<byte> {
    if s != [] && White(s[0]) then TrimStart(s[1..]) else s
  }

  function TrimEnd(s: seq<byte>): seq<byte> {
    if s != [] && White(s[|s| - 1]) then TrimEnd(s[..|s| - 1]) else s
  }

  function ParseOctal(field: seq<byte>): Result<nat, TarError> {
    var text := TrimEnd(TrimStart(CutNul(Ascii(field))));
    if text == [] || !OctalText(text) then Err(InvalidNumber)
    else if OctalValue(text) > MAX_SAFE_INTEGER then Err(UnsafeNumber)
    else Ok(OctalValue(text))
  }

  lemma ParseDigits(digits: seq<byte>)
    requires digits != [] && OctalText(digits)
    ensures ParseOctal(digits + [0]) ==
            if OctalValue(digits) > MAX_SAFE_INTEGER then Err(UnsafeNumber) else Ok(OctalValue(digits))
  {
    hide OctalValue, CutNul;
    assert Ascii(digits + [0]) == digits + Zeros(1);
    CutPadding(digits, 1);
    assert !White(digits[0]) && !White(digits[|digits| - 1]);
  }

  /** Reading back a numeric field gives the number that was written. */
  lemma ParseOctalField(value: nat, length: nat)
    requires length >= 2
    requires Octal(value, length).Ok?
    requires value <= MAX_SAFE_INTEGER
    ensures ParseOctal(Octal(value, length).value) == Ok(value)
  {
    OctalField(value, length);
    var field := Octal(value, length).value;
    var digits := field[..length - 1];
    hide Octal, ParseOctal;
    assert field == digits + [0];
    ParseDigits(digits);
  }

  // --- paths ---------------------------------------------------------------

  /** Archive paths are relative, without empty, `.` or `..` parts. */
  predicate SafePath(p: seq<byte>) {
    && !(p != [] && p[0] == SLASH)
    && 0 !in p
    && BACKSLASH !in p
    && (forall part <- Split(p, SLASH, []) :: part != [] && part != [DOT] && part != [DOT, DOT])
  }

  /** A part of a safe path. */
  predicate SafePart(part: seq<byte>) {
    part != [] && part != [46] && part != [46, 46] && 47 !in part && 92 !in part && 0 !in part
  }

  /** A path is safe exactly if it is safe parts with slashes between them. */
  lemma SafeMeans(p: seq<byte>)
    ensures SafePath(p) <==>
              exists parts :: parts != [] && p == Joined(parts, SLASH) && forall part <- parts :: SafePart(part)
  {
    if SafePath(p) {
      var parts := Split(p, SLASH, []);
      SplitJoins(p, SLASH, []);
      assert [] + p == p;
      forall part | part in parts ensures SafePart(part) {
        PartOf(parts, SLASH, part);
      }
      assert p == Joined(parts, SLASH);
    }
    if parts: seq<seq<byte>> :| parts != [] && p == Joined(parts, SLASH) && forall part <- parts :: SafePart(part) {
      assert forall part <- parts :: SafePart(part);
      SplitOfJoined(parts, SLASH);
      NotJoined(parts, SLASH, 0);
      NotJoined(parts, SLASH, BACKSLASH);
      assert SafePart(parts[0]);
      JoinedStarts(parts, SLASH);
    }
  }

  datatype SplitName = SplitName(name: seq<byte>, prefix: seq<byte>)

  const NAME_BYTES: nat := 100
  const PREFIX_BYTES: nat := 155

  predicate SplitsAt(path: seq<byte>, index: nat) {
    0 < index < |path| && path[index] == SLASH
    && index <= PREFIX_BYTES && |path| - index - 1 <= NAME_BYTES
  }

  /** The path a reader rebuilds from the two fields. */
  function JoinName(s: SplitName): seq<byte> {
    if s.prefix == [] then s.name else s.prefix + [SLASH] + s.name
  }

  /** The rightmost fitting split of the prefix `path[..bound]`. */
  function SplitBelow(path: seq<byte>, bound: nat): Result<SplitName, TarError>
    requires bound <= |path|
  {
    if bound == 0 then Err(PathTooLong)
    else if SplitsAt(path, bound - 1) then Ok(SplitName(path[bound..], path[..bound - 1]))
    else SplitBelow(path, bound - 1)
  }

  function NameOf(path: seq<byte>): Result<SplitName, TarError> {
    if |path| <= NAME_BYTES then Ok(SplitName(path, [])) else SplitBelow(path, |path|)
  }

  /** Scan for the last slash whose two sides fit their fields. */
  method TarName(path: seq<byte>) returns (r: Result<SplitName, TarError>)
    ensures r == NameOf(path)
  {
    if |path| <= NAME_BYTES {
      return Ok(SplitName(path, []));
    }
    var index := LastIndexOf(path, |path| - 1);
    while index > 0
      invariant -1 <= index < |path|
      invariant index >= 0 ==> path[index] == SLASH
      invariant SplitBelow(path, |path|) == SplitBelow(path, index + 1)
    {
      if index <= PREFIX_BYTES && |path| - index - 1 <= NAME_BYTES {
        return Ok(SplitName(path[index + 1..], path[..index]));
      }
      assert !SplitsAt(path, index);
      index := LastIndexOf(path, index - 1);
    }
    return Err(PathTooLong);
  }

  /** The greatest index not above `from` that holds a slash, or -1. */
  method LastIndexOf(path: seq<byte>, from: int) returns (index: int)
    requires -1 <= from < |path|
    ensures -1 <= index <= from
    ensures index >= 0 ==> path[index] == SLASH
    ensures forall i :: index < i <= from ==> path[i] != SLASH
    ensures SplitBelow(path, from + 1) == SplitBelow(path, index + 1)
  {
    index := from;
    while index >= 0 && path[index] != SLASH
      invariant -1 <= index <= from
      invariant forall i :: index < i <= from ==> path[i] != SLASH
      invariant SplitBelow(path, from + 1) == SplitBelow(path, index + 1)
    {
      assert !SplitsAt(path, index);
      index := index - 1;
    }
  }

  lemma {:induction false} SplitBelowFits(path: seq<byte>, bound: nat)
    requires bound <= |path|
    ensures SplitBelow(path, bound).Ok? <==> exists i: nat :: i < bound && SplitsAt(path, i)
    ensures SplitBelow(path, bound).Ok? ==>
              var s := SplitBelow(path, bound).value;
              JoinName(s) == path && |s.name| <= NAME_BYTES && 0 < |s.prefix| <= PREFIX_BYTES
  {
    if bound > 0 {
      if SplitsAt(path, bound - 1) {
        assert path == path[..bound - 1] + [SLASH] + path[bound..];
      } else {
        SplitBelowFits(path, bound - 1);
      }
    }
  }

  /**
   Splitting loses nothing and both parts fit; a long path is refused exactly when
   no slash leaves at most 155 bytes before it and at most 100 after it.
   */
  lemma NameIsLossless(path: seq<byte>)
    ensures NameOf(path).Ok? <==> |path| <= NAME_BYTES || exists i: nat :: SplitsAt(path, i)
    ensures NameOf(path).Ok? ==>
              var s := NameOf(path).value;
              JoinName(s) == path && |s.name| <= NAME_BYTES && |s.prefix| <= PREFIX_BYTES
  {
    SplitBelowFits(path, |path|);
    if exists i: nat :: SplitsAt(path, i) {
      var i: nat :| SplitsAt(path, i);
      assert i < |path|;
    }
  }
}
