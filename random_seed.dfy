/** Seed handling shared by the RandomLib generators: masking seed words to
 *  32 bits, the rotate-and-add checksum, the 32/64-bit word format of saved
 *  state, and the conversion of a seed vector to and from a string. */
module RandomSeed {
  import opened ModArith
  import opened Wrappers

  /** `unsigned long` is 64 bits wide: strtoul saturates at this value. */
  const ULONG_MAX: nat := TWO64 - 1

  /** A seed word keeps only its low 32 bits. */
  function SeedMask(x: nat): (r: nat)
    ensures r < TWO32
    ensures x < TWO32 ==> r == x
    ensures (x - r) % TWO32 == 0
  {
    x % TWO32
  }

  // ---------------------------------------------------------------------
  // Checksum

  /** Rotate the check word left by one bit and add the next word, modulo 2^32. */
  function CheckSum32(n: bv32, check: bv32): (r: bv32)
    ensures r == check.RotateLeft(1) + n
    ensures UndoCheckSum32(n, r) == check
  {
    ((check << 1) | ((check >> 31) & 1)) + n
  }

  /** The inverse of one checksum step: subtract the word, rotate right. */
  function UndoCheckSum32(n: bv32, r: bv32): bv32
  {
    (r - n).RotateRight(1)
  }

  /** A 64-bit word is folded in as its high half, then its low half. */
  function CheckSum64(n: bv64, check: bv32): (r: bv32)
    ensures r == CheckSumWords(Words64(n), check)
  {
    var ws := Words64(n);
    var c1 := CheckSum32(ws[0], check);
    assert CheckSumWords(ws, check) == CheckSumWords(ws[1..], c1);
    assert ws[1..][1..] == [];
    assert CheckSumWords(ws[1..], c1) == CheckSumWords([], CheckSum32(ws[1], c1));
    CheckSum32((n & 0xffff_ffff) as bv32, CheckSum32((n >> 32) as bv32, check))
  }

  /** The checksum of a sequence of 32-bit words, taken in order. */
  function CheckSumWords(ws: seq<bv32>, check: bv32): bv32
    decreases |ws|
  {
    if ws == [] then check else CheckSumWords(ws[1..], CheckSum32(ws[0], check))
  }

  /** Two checksums that agree after the same word agreed before it. */
  lemma CheckSumInjective(n: bv32, c1: bv32, c2: bv32)
    requires CheckSum32(n, c1) == CheckSum32(n, c2)
    ensures c1 == c2
  {
    assert UndoCheckSum32(n, CheckSum32(n, c1)) == c1;
  }

  // ---------------------------------------------------------------------
  // Words of saved state

  /** A 64-bit word is written as two 32-bit words, high half first. */
  function Words64(x: bv64): (ws: seq<bv32>)
    ensures |ws| == 2
    ensures Join64(ws[0], ws[1]) == x
  {
    [(x >> 32) as bv32, (x & 0xffff_ffff) as bv32]
  }

  /** Recombine a high and a low half. */
  function Join64(hi: bv32, lo: bv32): bv64
  {
    ((hi as bv64) << 32) | (lo as bv64)
  }

  /** The four bytes of a word in network order, most significant first. */
  function Bytes32(x: bv32): (bs: seq<bv8>)
    ensures |bs| == 4
    ensures ((bs[0] as bv32) << 24) | ((bs[1] as bv32) << 16) | ((bs[2] as bv32) << 8) | (bs[3] as bv32) == x
  {
    [(x >> 24) as bv8, ((x >> 16) & 0xff) as bv8, ((x >> 8) & 0xff) as bv8, (x & 0xff) as bv8]
  }

  /** Binary write of one 32-bit word onto the output. */
  function Write32Bin(out: seq<bv8>, x: bv32): (r: seq<bv8>)
    ensures |r| == |out| + 4 && r[..|out|] == out
    ensures Read32Bin(r[|out|..]) == Some((x, []))
  {
    var r := out + Bytes32(x);
    assert r[|out|..] == Bytes32(x) + [];
    BytesRead(x, []);
    r
  }

  /** Reading four bytes written for x gives back x and what follows. */
  lemma BytesRead(x: bv32, rest: seq<bv8>)
    ensures Read32Bin(Bytes32(x) + rest) == Some((x, rest))
  {
    var b := Bytes32(x);
    var i := b + rest;
    assert i[0] == b[0] && i[1] == b[1] && i[2] == b[2] && i[3] == b[3];
    assert i[4..] == rest;
  }

  /** Binary read of one 32-bit word; a stream shorter than four bytes fails. */
  function Read32Bin(input: seq<bv8>): (r: Option<(bv32, seq<bv8>)>)
    ensures r.None? <==> |input| < 4
    ensures r.Some? ==> r.value.1 == input[4..]
  {
    if |input| < 4 then None
    else
      Some((((input[0] as bv32) << 24) | ((input[1] as bv32) << 16) | ((input[2] as bv32) << 8) | (input[3] as bv32),
            input[4..]))
  }

  /** Binary write of a 64-bit word: its high half, then its low half. */
  function Write64Bin(out: seq<bv8>, x: bv64): (r: seq<bv8>)
    ensures |r| == |out| + 8
    ensures Read64Bin(r[|out|..]) == Some((x, []))
  {
    var ws := Words64(x);
    var b0, b1 := Bytes32(ws[0]), Bytes32(ws[1]);
    var r := Write32Bin(Write32Bin(out, ws[0]), ws[1]);
    assert r == out + b0 + b1;
    assert r[|out|..] == b0 + b1;
    BytesRead(ws[0], b1);
    assert b1 == b1 + [];
    BytesRead(ws[1], []);
    r
  }

  /** Binary read of a 64-bit word from two 32-bit reads. */
  function Read64Bin(input: seq<bv8>): (r: Option<(bv64, seq<bv8>)>)
    ensures r.None? <==> |input| < 8
  {
    match Read32Bin(input)
    case None => None
    case Some((hi, rest)) =>
      match Read32Bin(rest)
      case None => None
      case Some((lo, rest')) => Some((Join64(hi, lo), rest'))
  }

  /** The text separator written before the word numbered `cnt`: none before
   *  the first word, a newline before every sixth, a space otherwise. */
  function TextSeparator(cnt: int): (sep: string)
    ensures cnt <= 0 ==> sep == ""
    ensures cnt > 0 && cnt % WordsPerLine == 0 ==> sep == "\n"
    ensures cnt > 0 && cnt % WordsPerLine != 0 ==> sep == " "
  {
    if cnt > 0 then (if cnt % WordsPerLine != 0 then " " else "\n") else ""
  }

  /** 72 columns hold six words of up to eleven characters. */
  const WordsPerLine: nat := 72 / 11

  /** Text write of one word: separator, then the decimal digits; the word
   *  counter rises by one. */
  function Write32Text(out: string, cnt: int, x: nat): (r: (string, int))
    requires x < TWO32
    ensures r.1 == cnt + 1
    ensures r.0 == out + TextSeparator(cnt) + Decimal(x)
    ensures ReadText(r.0[|out|..]) == Some((x, ""))
  {
    var text := TextSeparator(cnt) + Decimal(x);
    ReadDecimalAfterSpace(TextSeparator(cnt), x, "");
    assert text + "" == text;
    assert (out + text)[|out|..] == text;
    (out + text, cnt + 1)
  }

  // ---------------------------------------------------------------------
  // Decimal digits

  predicate IsDecDigit(c: char) { '0' <= c <= '9' }

  predicate IsSpace(c: char) { c == ' ' || c == '\n' || c == '\t' || c == '\r' }

  function DigitChar(d: nat): (c: char)
    requires d < 10
    ensures IsDecDigit(c) && DigitValue(c) == d
  {
    ('0' as int + d) as char
  }

  /** The decimal digits of n, most significant first, with no leading zero. */
  function Decimal(n: nat): (s: string)
    ensures |s| >= 1
    ensures forall i :: 0 <= i < |s| ==> IsDecDigit(s[i])
    ensures n > 0 ==> s[0] != '0'
    ensures n == 0 ==> s == "0"
    decreases n
  {
    if n < 10 then [DigitChar(n)] else Decimal(n / 10) + [DigitChar(n % 10)]
  }

  /** Read a text word: skip white space, then read decimal digits. */
  function ReadText(input: string): Option<(nat, string)>
    decreases |input|
  {
    if input == [] then None
    else if IsSpace(input[0]) then ReadText(input[1..])
    else if IsDecDigit(input[0]) then
      var e := ScanDigits(input, 0, 10);
      Some((DigitsValue(input[..e], 10), input[e..]))
    else None
  }

  lemma {:induction false} ReadDecimalAfterSpace(sep: string, n: nat, rest: string)
    requires forall i :: 0 <= i < |sep| ==> IsSpace(sep[i])
    requires rest == [] || !IsDecDigit(rest[0])
    ensures ReadText(sep + Decimal(n) + rest) == Some((n, rest))
    decreases |sep|
  {
    if sep == [] {
      assert sep + Decimal(n) + rest == Decimal(n) + rest;
      ReadDecimal(n, rest);
    } else {
      var input := sep + Decimal(n) + rest;
      assert input[1..] == sep[1..] + Decimal(n) + rest;
      ReadDecimalAfterSpace(sep[1..], n, rest);
    }
  }

  /** The digits of n followed by a non-digit read back as n. */
  lemma ReadDecimal(n: nat, rest: string)
    requires rest == [] || !IsDecDigit(rest[0])
    ensures ReadText(Decimal(n) + rest) == Some((n, rest))
  {
    var D := Decimal(n);
    var input := D + rest;
    forall k | 0 <= k < |D|
      ensures IsDigitIn(input[k], 10)
    {
      assert input[k] == D[k];
    }
    if rest != [] {
      assert input[|D|] == rest[0];
    }
    ScanDigitsTo(input, 0, |D|, 10);
    assert input[..|D|] == D && input[|D|..] == rest;
    DecimalValue(n);
  }

  /** Reading back the decimal digits of n gives n. */
  lemma {:induction false} DecimalValue(n: nat)
    ensures DigitsValue(Decimal(n), 10) == n
    decreases n
  {
    var D := Decimal(n);
    if n >= 10 {
      assert D[..|D| - 1] == Decimal(n / 10);
      DecimalValue(n / 10);
    }
  }

  // ---------------------------------------------------------------------
  // strtoul in base 0

  /** Value of a digit character in bases up to 36, or 36 when it is none. */
  function DigitValue(c: char): (d: nat)
    ensures d <= 36
  {
    if '0' <= c <= '9' then (c - '0') as nat
    else if 'a' <= c <= 'z' then (c - 'a') as nat + 10
    else if 'A' <= c <= 'Z' then (c - 'A') as nat + 10
    else 36
  }

  predicate IsDigitIn(c: char, base: nat) { DigitValue(c) < base }

  /** The end of the run of base-`base` digits starting at i. */
  function ScanDigits(s: string, i: nat, base: nat): (e: nat)
    requires i <= |s|
    ensures i <= e <= |s|
    ensures e < |s| ==> !IsDigitIn(s[e], base)
    decreases |s| - i
  {
    if i < |s| && IsDigitIn(s[i], base) then ScanDigits(s, i + 1, base) else i
  }

  /** The value of a digit string, read most significant digit first. */
  function DigitsValue(ds: string, base: nat): nat
    decreases |ds|
  {
    if ds == [] then 0
    else DigitsValue(ds[..|ds| - 1], base) * base + DigitValue(ds[|ds| - 1])
  }

  function Saturate(v: nat): (r: nat)
    ensures r <= ULONG_MAX
    ensures v <= ULONG_MAX ==> r == v
  {
    if v > ULONG_MAX then ULONG_MAX else v
  }

  /** Every character ScanDigits passes over is a digit in the base. */
  lemma {:induction false} ScanDigitsRun(s: string, i: nat, base: nat)
    requires i <= |s|
    ensures forall k :: i <= k < ScanDigits(s, i, base) ==> IsDigitIn(s[k], base)
    decreases |s| - i
  {
    if i < |s| && IsDigitIn(s[i], base) {
      ScanDigitsRun(s, i + 1, base);
    }
  }

  /** A run of digits from i that ends at e, at the end of s or before a
   *  non-digit, is exactly what ScanDigits passes over. */
  lemma {:induction false} ScanDigitsTo(s: string, i: nat, e: nat, base: nat)
    requires i <= e <= |s|
    requires forall k :: i <= k < e ==> IsDigitIn(s[k], base)
    requires e == |s| || !IsDigitIn(s[e], base)
    ensures ScanDigits(s, i, base) == e
    decreases e - i
  {
    if i < e {
      ScanDigitsTo(s, i + 1, e, base);
    }
  }

  /** strtoul(t, &end, 0) where t starts with a decimal digit: "0x" followed
   *  by a hex digit selects base 16, a leading "0" base 8, anything else
   *  base 10; the value saturates at ULONG_MAX and `end` follows the last
   *  digit read. */
  function StrToUL(t: string): (r: (nat, nat))
    requires |t| > 0 && IsDecDigit(t[0])
    ensures 0 < r.1 <= |t|
    ensures r.0 <= ULONG_MAX
  {
    if t[0] == '0' && 2 < |t| && (t[1] == 'x' || t[1] == 'X') && IsDigitIn(t[2], 16) then
      var e := ScanDigits(t, 2, 16);
      (Saturate(DigitsValue(t[2..e], 16)), e)
    else if t[0] == '0' then
      var e := ScanDigits(t, 0, 8);
      (Saturate(DigitsValue(t[..e], 8)), e)
    else
      var e := ScanDigits(t, 0, 10);
      (Saturate(DigitsValue(t[..e], 10)), e)
  }

  /** The first decimal digit at or after p, if any. */
  function FindDigit(s: string, p: nat): (r: Option<nat>)
    requires p <= |s|
    ensures r.Some? ==> p <= r.value < |s| && IsDecDigit(s[r.value])
    decreases |s| - p
  {
    if p == |s| then None else if IsDecDigit(s[p]) then Some(p) else FindDigit(s, p + 1)
  }

  /** FindDigit finds the first digit: none lies before it, and None means
   *  there is no digit at all from p on. */
  lemma {:induction false} FindDigitFirst(s: string, p: nat)
    requires p <= |s|
    ensures FindDigit(s, p).Some? ==> forall k :: p <= k < FindDigit(s, p).value ==> !IsDecDigit(s[k])
    ensures FindDigit(s, p).None? <==> forall k :: p <= k < |s| ==> !IsDecDigit(s[k])
    decreases |s| - p
  {
    if p < |s| && !IsDecDigit(s[p]) {
      FindDigitFirst(s, p + 1);
    }
  }

  /** The next seed word of t and the position just after its digits:
   *  find_first_of for a decimal digit, then strtoul from there, masked to
   *  32 bits; None when no digit is left. */
  function NextWord(t: string): (r: Option<(nat, nat)>)
    ensures r.Some? ==> r.value.0 < TWO32 && 0 < r.value.1 <= |t|
  {
    match FindDigit(t, 0)
    case None => None
    case Some(d) =>
      var w := StrToUL(t[d..]);
      Some((SeedMask(w.0), d + w.1))
  }

  /** The seed words read from t, one NextWord after another. */
  function ParseSeeds(t: string): seq<nat>
    decreases |t|
  {
    match NextWord(t)
    case None => []
    case Some(w) => [w.0] + ParseSeeds(t[w.1..])
  }

  /** A string with no decimal digit holds no seed word. */
  lemma ParseNoDigits(t: string)
    requires forall k :: 0 <= k < |t| ==> !IsDecDigit(t[k])
    ensures ParseSeeds(t) == []
  {
    FindDigitFirst(t, 0);
  }

  /** Read consecutive digit runs of s as seed words; `t` is the text still
   *  ahead of the read pointer. */
  method StringToVector(s: string) returns (v: seq<nat>)
    ensures v == ParseSeeds(s)
    ensures forall i :: 0 <= i < |v| ==> v[i] < TWO32
  {
    v := [];
    var t := s;
    while true
      invariant v + ParseSeeds(t) == ParseSeeds(s)
      decreases |t|
    {
      var found, x, t' := NextSeed(t);
      if !found {
        break;
      }
      AppendShift(v, x, ParseSeeds(t'));
      v := v + [x];
      t := t';
    }
    SeedsBelow(s);
  }

  lemma AppendShift(v: seq<nat>, x: nat, p: seq<nat>)
    ensures v + ([x] + p) == (v + [x]) + p
  {
  }

  /** Every seed word ParseSeeds reads fits in 32 bits. */
  lemma {:induction false} SeedsBelow(t: string)
    ensures forall i :: 0 <= i < |ParseSeeds(t)| ==> ParseSeeds(t)[i] < TWO32
    decreases |t|
  {
    match NextWord(t)
    case None =>
    case Some(w) =>
      SeedsBelow(t[w.1..]);
  }

  /** One step of StringToVector: the first decimal digit of t, the masked
   *  value strtoul reads from there, and the text after its digits. */
  method NextSeed(t: string) returns (found: bool, x: nat, rest: string)
    ensures found <==> NextWord(t).Some?
    ensures !found ==> ParseSeeds(t) == []
    ensures found ==> x < TWO32 && |rest| < |t| && ParseSeeds(t) == [x] + ParseSeeds(rest)
  {
    var d := FindDigit(t, 0);
    if d.None? {
      return false, 0, t;
    }
    var (w, e) := StrToUL(t[d.value..]);
    ParseWordAt(t, d.value, w, e);
    return true, SeedMask(w), t[d.value + e..];
  }

  // ---------------------------------------------------------------------
  // Seed vector to string

  /** The masked words of v in decimal, separated by commas. */
  function JoinSeeds(v: seq<nat>): string
    decreases |v|
  {
    if v == [] then ""
    else if |v| == 1 then Decimal(SeedMask(v[0]))
    else Decimal(SeedMask(v[0])) + "," + JoinSeeds(v[1..])
  }

  /** "[" + the comma-separated masked words + "]". */
  method VectorToString(v: seq<nat>) returns (s: string)
    ensures s == "[" + JoinSeeds(v) + "]"
  {
    s := "[";
    var i := 0;
    while i < |v|
      invariant 0 <= i <= |v|
      invariant s == "[" + JoinSeeds(v[..i])
    {
      JoinSnoc(v[..i], v[i]);
      assert v[..i + 1] == v[..i] + [v[i]];
      if i != 0 {
        s := s + ",";
      }
      s := s + Decimal(SeedMask(v[i]));
      i := i + 1;
    }
    assert v[..|v|] == v;
    s := s + "]";
  }

  lemma {:induction false} JoinSnoc(v: seq<nat>, x: nat)
    ensures JoinSeeds(v + [x]) == JoinSeeds(v) + (if v == [] then "" else ",") + Decimal(SeedMask(x))
    decreases |v|
  {
    if |v| >= 2 {
      assert (v + [x])[1..] == v[1..] + [x];
      JoinSnoc(v[1..], x);
    } else if |v| == 1 {
      assert (v + [x])[1..] == [x];
    }
  }

  // ---------------------------------------------------------------------
  // Round trip

  /** Every word masked to its low 32 bits. */
  function MaskAll(v: seq<nat>): (r: seq<nat>)
    ensures |r| == |v| && forall i :: 0 <= i < |v| ==> r[i] == SeedMask(v[i])
  {
    seq(|v|, i requires 0 <= i < |v| => SeedMask(v[i]))
  }

  /** strtoul reads back a decimal word followed by a character that is no
   *  digit in any base. */
  lemma StrToULDecimal(n: nat, rest: string)
    requires n < TWO32 && |rest| > 0 && DigitValue(rest[0]) == 36
    ensures StrToUL(Decimal(n) + rest) == (n, |Decimal(n)|)
  {
    var D := Decimal(n);
    var t := D + rest;
    assert t[0] == D[0];
    if n == 0 {
      assert t[1] == rest[0];
      var e := ScanDigits(t, 0, 8);
      assert IsDigitIn(t[0], 8) && !IsDigitIn(t[1], 8);
      assert ScanDigits(t, 1, 8) == 1;
      assert e == 1;
      assert t[..e] == "0";
      assert DigitsValue("0", 8) == DigitsValue("", 8) * 8 + 0;
    } else {
      forall k | 0 <= k < |D|
        ensures IsDigitIn(t[k], 10)
      {
        assert t[k] == D[k];
      }
      assert t[|D|] == rest[0];
      ScanDigitsTo(t, 0, |D|, 10);
      assert t[..|D|] == D;
      DecimalValue(n);
    }
  }

  /** The first digit after a one-character separator is at index 1. */
  lemma DigitAfterSeparator(c: char, D: string, rest: string)
    requires |D| > 0 && IsDecDigit(D[0]) && !IsDecDigit(c)
    ensures FindDigit([c] + D + rest, 0) == Some(1)
  {
    var t := [c] + D + rest;
    assert t[0] == c && t[1] == D[0];
    assert FindDigit(t, 1) == Some(1);
  }

  /** A separator followed by the digits of n reads as n. */
  lemma ParseOneWord(c: char, n: nat, rest: string)
    requires n < TWO32 && DigitValue(c) == 36
    requires |rest| > 0 && DigitValue(rest[0]) == 36
    ensures ParseSeeds([c] + Decimal(n) + rest) == [n] + ParseSeeds(rest)
  {
    var D := Decimal(n);
    var t := [c] + D + rest;
    OneWordParts(c, n, rest, D, t);
    ParseWordAt(t, 1, n, |D|);
  }

  /** Where ParseOneWord finds the word: its first digit at index 1, its
   *  value n, and rest after its |D| digits. */
  lemma OneWordParts(c: char, n: nat, rest: string, D: string, t: string)
    requires n < TWO32 && DigitValue(c) == 36
    requires |rest| > 0 && DigitValue(rest[0]) == 36
    requires D == Decimal(n) && t == [c] + D + rest
    ensures 1 < |t| && FindDigit(t, 0) == Some(1)
    ensures StrToUL(t[1..]) == (n, |D|) && t[1 + |D|..] == rest
  {
    DigitAfterSeparator(c, D, rest);
    assert t[1..] == D + rest;
    StrToULDecimal(n, rest);
    assert t[1 + |D|..] == rest;
  }

  /** Parsing a separator, the joined words and the closing bracket gives
   *  back the masked words. */
  lemma {:induction false} ParseJoined(c: char, v: seq<nat>)
    requires DigitValue(c) == 36
    ensures ParseSeeds([c] + JoinSeeds(v) + "]") == MaskAll(v)
    decreases |v|
  {
    if v == [] {
      ParseNoDigits([c] + JoinSeeds(v) + "]");
    } else if |v| == 1 {
      JoinedLast(c, v);
    } else {
      JoinedFirst(c, v);
      ParseJoined(',', v[1..]);
      assert MaskAll(v) == [SeedMask(v[0])] + MaskAll(v[1..]);
    }
  }

  /** A single word between a separator and the closing bracket. */
  lemma JoinedLast(c: char, v: seq<nat>)
    requires DigitValue(c) == 36 && |v| == 1
    ensures ParseSeeds([c] + JoinSeeds(v) + "]") == MaskAll(v)
  {
    assert [c] + JoinSeeds(v) + "]" == [c] + Decimal(SeedMask(v[0])) + "]";
    ParseOneWord(c, SeedMask(v[0]), "]");
    ParseNoDigits("]");
  }

  /** The first of several words, then the comma-led remainder. */
  lemma JoinedFirst(c: char, v: seq<nat>)
    requires DigitValue(c) == 36 && |v| > 1
    ensures ParseSeeds([c] + JoinSeeds(v) + "]")
         == [SeedMask(v[0])] + ParseSeeds([','] + JoinSeeds(v[1..]) + "]")
  {
    var D, J := Decimal(SeedMask(v[0])), JoinSeeds(v[1..]);
    var rest := "," + J + "]";
    assert JoinSeeds(v) == D + "," + J;
    Regroup([c], D, ",", J, "]");
    ParseOneWord(c, SeedMask(v[0]), rest);
    assert rest == [','] + J + "]";
  }

  lemma Regroup(a: string, b: string, c: string, d: string, e: string)
    ensures a + (b + c + d) + e == a + b + (c + d + e)
  {
  }

  /** Printing a seed vector and reading the string back yields the seed
   *  words masked to 32 bits. */
  lemma SeedStringRoundTrip(v: seq<nat>)
    ensures ParseSeeds("[" + JoinSeeds(v) + "]") == MaskAll(v)
  {
    ParseJoined('[', v);
  }

  /** Digit runs are read in the base strtoul picks: a date splits at its
   *  dashes, "08" is an octal zero followed by an 8, "012" is octal ten and
   *  "0xa" hexadecimal ten. */
  lemma ParseExamples()
    ensures ParseSeeds("2006-04-08") == [2006, 4, 0, 8]
    ensures ParseSeeds("012 10 0xa") == [10, 10, 10]
  {
    DateExample("2006-04-08");
    BasesExample("012 10 0xa");
  }

  /** One unfolding of ParseSeeds, with the word spelled out. */
  lemma ParseWordAt(t: string, d: nat, w: nat, e: nat)
    requires d < |t| && FindDigit(t, 0) == Some(d) && StrToUL(t[d..]) == (w, e)
    ensures ParseSeeds(t) == [SeedMask(w)] + ParseSeeds(t[d + e..])
  {
    assert NextWord(t) == Some((SeedMask(w), d + e));
  }

  lemma DateWords()
    ensures StrToUL("8") == (8, 1)
    ensures StrToUL("08") == (0, 1)
    ensures StrToUL("04-08") == (4, 2)
  {
    assert ScanDigits("8", 0, 10) == 1;
    assert ScanDigits("08", 0, 8) == 1;
    assert "08"[..1] == "0";
    assert ScanDigits("04-08", 0, 8) == 2;
    assert "04-08"[..2] == "04" && "04"[..1] == "0";
  }

  lemma YearWord()
    ensures StrToUL("2006-04-08") == (2006, 4)
  {
    var y := "2006-04-08";
    assert ScanDigits(y, 0, 10) == 4;
    assert y[..4] == "2006" && "2006"[..3] == "200" && "200"[..2] == "20" && "20"[..1] == "2";
    assert DigitsValue("20", 10) == 20;
  }

  lemma DateTail()
    ensures ParseSeeds("-08") == [0, 8]
  {
    DateWords();
    assert "8"[0..] == "8" && "8"[1..] == "";
    ParseWordAt("8", 0, 8, 1);
    assert "-08"[1..] == "08" && "-08"[2..] == "8";
    ParseWordAt("-08", 1, 0, 1);
  }

  lemma DateMiddle()
    ensures ParseSeeds("-04-08") == [4] + ParseSeeds("-08")
  {
    DateWords();
    assert "-04-08"[1..] == "04-08" && "-04-08"[3..] == "-08";
    ParseWordAt("-04-08", 1, 4, 2);
  }

  lemma DateHead()
    ensures ParseSeeds("2006-04-08") == [2006] + ParseSeeds("-04-08")
  {
    var y := "2006-04-08";
    assert y[0..] == y && y[4..] == "-04-08";
    YearWord();
    ParseWordAt(y, 0, 2006, 4);
  }

  lemma DateExample(t: string)
    requires t == "2006-04-08"
    ensures ParseSeeds(t) == [2006, 4, 0, 8]
  {
    DateHead();
    DateMiddle();
    DateTail();
    BuildFour(ParseSeeds(t), ParseSeeds("-04-08"), ParseSeeds("-08"), 2006, 4, 0, 8);
  }

  /** Three words prepended one at a time to a one-word tail. */
  lemma BuildFour(c: seq<nat>, b: seq<nat>, a: seq<nat>, w: nat, x: nat, y: nat, z: nat)
    requires a == [y, z] && b == [x] + a && c == [w] + b
    ensures c == [w, x, y, z]
  {
  }

  lemma HexWord()
    ensures StrToUL("0xa") == (10, 3)
  {
    assert ScanDigits("0xa", 2, 16) == 3;
    assert "0xa"[2..3] == "a" && "a"[..0] == "";
    assert DigitsValue("a", 16) == 10;
  }

  lemma TenWord()
    ensures StrToUL("10 0xa") == (10, 2)
  {
    assert ScanDigits("10 0xa", 0, 10) == 2;
    assert "10 0xa"[..2] == "10" && "10"[..1] == "1" && "1"[..0] == "";
    assert DigitsValue("10", 10) == 10;
  }

  lemma OctalWord()
    ensures StrToUL("012 10 0xa") == (10, 3)
  {
    var w := "012 10 0xa";
    assert ScanDigits(w, 0, 8) == 3;
    assert w[..3] == "012" && "012"[..2] == "01" && "01"[..1] == "0" && "0"[..0] == "";
    assert DigitsValue("012", 8) == 10;
  }

  lemma BasesLast()
    ensures ParseSeeds(" 0xa") == [10]
  {
    HexWord();
    assert "0xa"[0..] == "0xa" && "0xa"[3..] == "";
    ParseWordAt("0xa", 0, 10, 3);
    assert " 0xa"[1..] == "0xa" && " 0xa"[4..] == "";
    ParseWordAt(" 0xa", 1, 10, 3);
  }

  lemma BasesMiddle()
    ensures ParseSeeds(" 10 0xa") == [10] + ParseSeeds(" 0xa")
  {
    TenWord();
    assert " 10 0xa"[1..] == "10 0xa" && " 10 0xa"[3..] == " 0xa";
    ParseWordAt(" 10 0xa", 1, 10, 2);
  }

  lemma BasesHead()
    ensures ParseSeeds("012 10 0xa") == [10] + ParseSeeds(" 10 0xa")
  {
    OctalWord();
    var w := "012 10 0xa";
    assert w[0..] == w && w[3..] == " 10 0xa";
    ParseWordAt(w, 0, 10, 3);
  }

  lemma BasesExample(t: string)
    requires t == "012 10 0xa"
    ensures ParseSeeds(t) == [10, 10, 10]
  {
    BasesHead();
    BasesMiddle();
    BasesLast();
    BuildThree(ParseSeeds(t), ParseSeeds(" 10 0xa"), ParseSeeds(" 0xa"), 10, 10, 10);
  }

  /** Two words prepended one at a time to a one-word tail. */
  lemma BuildThree(c: seq<nat>, b: seq<nat>, a: seq<nat>, x: nat, y: nat, z: nat)
    requires a == [z] && b == [y] + a && c == [x] + b
    ensures c == [x, y, z]
  {
  }
}
