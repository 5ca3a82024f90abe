/**
 * The two pure helpers of web/src/components/FileUpload.tsx: `validateFile`
 * (extension and size check) and the byte-to-hex rendering that
 * `computeFileHash` applies to the digest bytes.
 *
 * A file is its name and its size in bytes. JavaScript's `toLowerCase` is
 * modelled on ASCII letters; strings are sequences of UTF-16 code units.
 */
module FileUpload {
  import opened Seqs

  /** `allowedTypes`. */
  const AllowedTypes: seq<string> := [".txt", ".md", ".csv", ".json", ".html"]

  /** `maxSize`: 10 MiB. */
  const MaxSize: nat := 10 * 1024 * 1024

  function LowerChar(c: char): char
  {
    if 'A' <= c <= 'Z' then (c as int + 32) as char else c
  }

  /** `toLowerCase()`, one code unit at a time. */
  function ToLower(s: string): (r: string)
    ensures |r| == |s|
    ensures forall i :: 0 <= i < |s| ==> r[i] == LowerChar(s[i])
  {
    Map(s, LowerChar)
  }

  /** `lastIndexOf(c)`: the position of the last `c`, or -1 when there is none. */
  function LastIndexOf(s: string, c: char): (r: int)
    ensures -1 <= r < |s|
    ensures r == -1 <==> c !in s
    ensures r >= 0 ==> s[r] == c && forall j :: r < j < |s| ==> s[j] != c
  {
    if s == [] then -1
    else if s[|s| - 1] == c then |s| - 1
    else
      var r := LastIndexOf(s[..|s| - 1], c);
      assert forall x :: x in s ==> x in s[..|s| - 1] || x == s[|s| - 1];
      r
  }

  /** `substring(start)`: a negative start counts as 0, a start past the end as the end. */
  function Substring(s: string, start: int): (r: string)
    ensures start <= 0 ==> r == s
    ensures 0 <= start <= |s| ==> r == s[start..]
    ensures |s| <= start ==> r == []
  {
    var k := if start < 0 then 0 else if start > |s| then |s| else start;
    s[k..]
  }

  /** `file.name.toLowerCase().substring(file.name.lastIndexOf("."))`. */
  function Extension(name: string): string
  {
    Substring(ToLower(name), LastIndexOf(name, '.'))
  }

  /** `validateFile(file)`: an allowed extension and at most `MaxSize` bytes. */
  function ValidateFile(name: string, size: nat): bool
  {
    Extension(name) in AllowedTypes && size <= MaxSize
  }

  /** Lowercasing neither makes nor removes a dot. */
  lemma LowerDot(c: char)
    ensures LowerChar(c) == '.' <==> c == '.'
  {
  }

  /** Every allowed extension is one dot followed by a dot-free lowercase name. */
  lemma AllowedShape(ext: string)
    requires ext in AllowedTypes
    ensures |ext| >= 2 && ext[0] == '.' && '.' !in ext[1..]
  {
  }

  /** Lowercasing a slice is slicing the lowercased string. */
  lemma LowerSuffix(s: string, i: nat)
    requires i <= |s|
    ensures ToLower(s)[i..] == ToLower(s[i..])
  {
  }

  /** Allowed extensions are already lowercase. */
  lemma LowerAllowed(ext: string)
    requires ext in AllowedTypes
    ensures ToLower(ext) == ext
  {
  }

  /** The extension is the lowercased suffix from the last dot. */
  lemma ExtensionFromLastDot(name: string, i: nat)
    requires i < |name| && name[i] == '.'
    requires forall j :: i < j < |name| ==> name[j] != '.'
    ensures Extension(name) == ToLower(name[i..])
  {
    assert name[i] in name;
    assert LastIndexOf(name, '.') == i;
    LowerSuffix(name, i);
  }

  /**
   * Only the part from the last dot decides: a name ending in `ext`, a dot
   * followed by dot-free text, is accepted exactly when `ext` lowercased is
   * an allowed type and the size is within bounds.
   */
  lemma LastDotDecides(stem: string, ext: string, size: nat)
    requires |ext| >= 1 && ext[0] == '.' && '.' !in ext[1..]
    ensures ValidateFile(stem + ext, size) <==> ToLower(ext) in AllowedTypes && size <= MaxSize
  {
    var name := stem + ext;
    forall j | |stem| < j < |name| ensures name[j] != '.' {
      assert name[j] == ext[1..][j - |stem| - 1];
    }
    assert name[|stem|..] == ext;
    ExtensionFromLastDot(name, |stem|);
  }

  /** A name without a dot is rejected: the whole lowercased name is compared, and it has no dot. */
  lemma NoDotRejected(name: string, size: nat)
    requires '.' !in name
    ensures !ValidateFile(name, size)
  {
    assert LastIndexOf(name, '.') == -1;
    if name != [] {
      assert name[0] in name;
      LowerDot(name[0]);
      assert Extension(name)[0] != '.';
    }
  }

  lemma {:induction false} LastIndexOfLower(s: string)
    ensures LastIndexOf(ToLower(s), '.') == LastIndexOf(s, '.')
  {
    if s != [] {
      var n := |s| - 1;
      LowerDot(s[n]);
      assert ToLower(s)[..n] == ToLower(s[..n]);
      LastIndexOfLower(s[..n]);
    }
  }

  /** The check is case-insensitive: a name and its lowercase form are judged alike. */
  lemma CaseInsensitive(name: string, size: nat)
    ensures ValidateFile(ToLower(name), size) == ValidateFile(name, size)
  {
    LastIndexOfLower(name);
    assert ToLower(ToLower(name)) == ToLower(name);
  }

  /** `"A.TXT"` is accepted. */
  lemma UpperCaseAccepted()
    ensures ValidateFile("A.TXT", 0)
  {
    ExtensionFromLastDot("A.TXT", 1);
    LowerTxt();
  }

  lemma LowerTxt()
    ensures ToLower("A.TXT"[1..]) == ".txt"
  {
    var l := ToLower("A.TXT"[1..]);
    assert l[0] == '.' && l[1] == 't' && l[2] == 'x' && l[3] == 't';
  }

  /** Only the last dot counts: `"x.json.exe"` is rejected. */
  lemma InnerDotRejected()
    ensures !ValidateFile("x.json.exe", 0)
  {
    var name := "x.json.exe";
    assert name[7] != '.' && name[8] != '.' && name[9] != '.';
    ExtensionFromLastDot(name, 6);
    var e := ToLower(name[6..]);
    assert e[1] == 'e';
  }

  /** Only the last dot counts: `"x.tar.md"` is accepted. */
  lemma LastDotAccepted()
    ensures ValidateFile("x.tar.md", 0)
  {
    var name := "x.tar.md";
    assert name[6] != '.' && name[7] != '.';
    ExtensionFromLastDot(name, 5);
    var m := ToLower(name[5..]);
    assert m[0] == '.' && m[1] == 'm' && m[2] == 'd';
    assert m == ".md";
  }

  /** Exactly 10 MiB is accepted and one byte more is rejected. */
  lemma SizeBoundary(stem: string)
    ensures ValidateFile(stem + ".txt", MaxSize)
    ensures !ValidateFile(stem + ".txt", MaxSize + 1)
  {
    LastDotDecides(stem, ".txt", MaxSize);
    LastDotDecides(stem, ".txt", MaxSize + 1);
    LowerAllowed(".txt");
  }

  /** An element of a `Uint8Array`. */
  type Byte = b: int | 0 <= b < 256

  /** A digit of `toString(16)`: `0`-`9`, then `a`-`f`. */
  function HexDigit(d: nat): (c: char)
    requires d < 16
    ensures IsLowerHex(c)
  {
    if d < 10 then ('0' as int + d) as char else ('a' as int + d - 10) as char
  }

  predicate IsLowerHex(c: char)
  {
    '0' <= c <= '9' || 'a' <= c <= 'f'
  }

  /** `n.toString(16)`: lowercase base-16 digits without leading zeros. */
  function ToHex(n: nat): (r: string)
    ensures |r| >= 1
  {
    if n < 16 then [HexDigit(n)] else ToHex(n / 16) + [HexDigit(n % 16)]
  }

  /** `padStart(width, fill)`: `fill` on the left up to `width` code units. */
  function PadStart(s: string, width: nat, fill: char): (r: string)
    ensures |r| == if |s| < width then width else |s|
    ensures r[|r| - |s|..] == s
    ensures forall i :: 0 <= i < |r| - |s| ==> r[i] == fill
  {
    if |s| >= width then s else seq(width - |s|, _ => fill) + s
  }

  /** `b.toString(16).padStart(2, "0")`. */
  function ByteHex(b: Byte): string
  {
    PadStart(ToHex(b), 2, '0')
  }

  /** `hashArray.map(...).join("")`. */
  function HexOf(bytes: seq<Byte>): string
  {
    Flatten(Map(bytes, ByteHex))
  }

  /** Every byte becomes its high and its low hex digit. */
  lemma ByteHexDigits(b: Byte)
    ensures ByteHex(b) == [HexDigit(b / 16), HexDigit(b % 16)]
  {
    if b >= 16 {
      assert ToHex(b / 16) == [HexDigit(b / 16)];
    }
  }

  /** The value of a lowercase hex digit, -1 for any other character. */
  function DigitValue(c: char): (v: int)
    ensures -1 <= v < 16
  {
    if '0' <= c <= '9' then c as int - '0' as int
    else if 'a' <= c <= 'f' then c as int - 'a' as int + 10
    else -1
  }

  /** Each digit reads back as its value. */
  lemma DigitRoundTrip(d: nat)
    requires d < 16
    ensures DigitValue(HexDigit(d)) == d
  {
  }

  /** Two hex digits per byte, read back. */
  function DecodeHex(s: string): seq<int>
  {
    if |s| < 2 then [] else [16 * DigitValue(s[0]) + DigitValue(s[1])] + DecodeHex(s[2..])
  }

  lemma HexOfCons(bytes: seq<Byte>)
    requires bytes != []
    ensures HexOf(bytes) == ByteHex(bytes[0]) + HexOf(bytes[1..])
  {
    assert Map(bytes, ByteHex)[1..] == Map(bytes[1..], ByteHex);
  }

  /** Two characters per byte, each a lowercase hex digit. */
  lemma {:induction false} HexShape(bytes: seq<Byte>)
    ensures |HexOf(bytes)| == 2 * |bytes|
    ensures forall i :: 0 <= i < |HexOf(bytes)| ==> IsLowerHex(HexOf(bytes)[i])
  {
    if bytes != [] {
      HexOfCons(bytes);
      ByteHexDigits(bytes[0]);
      HexShape(bytes[1..]);
    }
  }

  lemma DecodeCons(b: Byte, rest: string)
    ensures DecodeHex(ByteHex(b) + rest) == [b] + DecodeHex(rest)
  {
    ByteHexDigits(b);
    var s := ByteHex(b) + rest;
    assert s[2..] == rest;
    DigitRoundTrip(b / 16);
    DigitRoundTrip(b % 16);
  }

  /** Reading the digits back gives the bytes: the rendering loses nothing. */
  lemma {:induction false} HexRoundTrip(bytes: seq<Byte>)
    ensures DecodeHex(HexOf(bytes)) == bytes
  {
    if bytes != [] {
      HexOfCons(bytes);
      DecodeCons(bytes[0], HexOf(bytes[1..]));
      HexRoundTrip(bytes[1..]);
    }
  }

  /** Different byte strings render differently. */
  lemma HexInjective(a: seq<Byte>, b: seq<Byte>)
    ensures HexOf(a) == HexOf(b) ==> a == b
  {
    HexRoundTrip(a);
    HexRoundTrip(b);
  }
}
