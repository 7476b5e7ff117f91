/** Value types and string/byte helpers shared by the whole model: optional
    values, results with an error, bytes, and the handful of Python string
    operations the core relies on (split at a separator, split at whitespace,
    strip, prefix tests, ASCII case mapping, hexadecimal encoding). */
module Base {

  datatype Option<+T> = None | Some(value: T)

  datatype Result<+T, +E> = Ok(value: T) | Err(error: E)

  newtype byte = x: int | 0 <= x < 256

  predicate StartsWith(s: string, prefix: string) {
    |prefix| <= |s| && s[..|prefix|] == prefix
  }

  predicate EndsWith(s: string, suffix: string) {
    |suffix| <= |s| && s[|s| - |suffix|..] == suffix
  }

  /** The characters Python's str.split() and str.strip() (no argument) treat as whitespace. */
  predicate IsSpace(c: char) {
    || ('\t' <= c <= '\r')
    || ('\U{1c}' <= c <= '\U{1f}')
    || c == ' ' || c == '\U{85}' || c == '\U{a0}' || c == '\U{1680}'
    || ('\U{2000}' <= c <= '\U{200a}')
    || c == '\U{2028}' || c == '\U{2029}' || c == '\U{202f}' || c == '\U{205f}' || c == '\U{3000}'
  }

  predicate NoSpace(s: string) {
    forall i :: 0 <= i < |s| ==> !IsSpace(s[i])
  }

  // ---------------------------------------------------------------------
  // str.split(sep) and sep.join(parts) for a one-character separator

  function IndexOf(s: string, c: char): (i: nat)
    requires c in s
    ensures i < |s| && s[i] == c && c !in s[..i]
  {
    if s[0] == c then 0 else 1 + IndexOf(s[1..], c)
  }

  /** Python's `s.split(sep)`: never empty, and no part contains the separator. */
  function Split(s: string, sep: char): (parts: seq<string>)
    ensures |parts| >= 1
    ensures forall i :: 0 <= i < |parts| ==> sep !in parts[i]
    decreases |s|
  {
    if sep in s then
      var i := IndexOf(s, sep);
      [s[..i]] + Split(s[i + 1..], sep)
    else
      [s]
  }

  /** Python's `sep.join(parts)`. */
  function Join(parts: seq<string>, sep: char): string
  {
    if |parts| == 0 then ""
    else if |parts| == 1 then parts[0]
    else parts[0] + [sep] + Join(parts[1..], sep)
  }

  lemma IndexOfJoined(a: string, c: char, b: string)
    requires c !in a
    ensures c in a + [c] + b && IndexOf(a + [c] + b, c) == |a|
  {
    var s := a + [c] + b;
    assert s[|a|] == c;
    if a != [] {
      assert s[1..] == a[1..] + [c] + b;
      IndexOfJoined(a[1..], c, b);
    }
  }

  /** Splitting a joined list gives the list back, when no element holds the separator. */
  lemma {:induction false} SplitJoin(parts: seq<string>, sep: char)
    requires |parts| >= 1
    requires forall i :: 0 <= i < |parts| ==> sep !in parts[i]
    ensures Split(Join(parts, sep), sep) == parts
  {
    if |parts| > 1 {
      var s := Join(parts, sep);
      assert s == parts[0] + [sep] + Join(parts[1..], sep);
      IndexOfJoined(parts[0], sep, Join(parts[1..], sep));
      assert s[..|parts[0]|] == parts[0];
      assert s[|parts[0]| + 1..] == Join(parts[1..], sep);
      SplitJoin(parts[1..], sep);
    }
  }

  lemma JoinCons(part: string, rest: seq<string>, sep: char)
    requires |rest| >= 1
    ensures Join([part] + rest, sep) == part + [sep] + Join(rest, sep)
  {
    assert ([part] + rest)[1..] == rest;
  }

  /** Joining the parts of a split gives the string back. */
  lemma {:induction false} JoinSplit(s: string, sep: char)
    ensures Join(Split(s, sep), sep) == s
    decreases |s|
  {
    if sep in s {
      var i := IndexOf(s, sep);
      var head, tail := s[..i], s[i + 1..];
      JoinSplit(tail, sep);
      JoinCons(head, Split(tail, sep), sep);
      assert s == head + [sep] + tail;
    }
  }

  // ---------------------------------------------------------------------
  // str.split() and str.strip() without arguments

  function WordLength(s: string): (n: nat)
    ensures n <= |s| && NoSpace(s[..n]) && (n < |s| ==> IsSpace(s[n]))
  {
    if s == [] || IsSpace(s[0]) then 0 else 1 + WordLength(s[1..])
  }

  /** Python's `s.split()`: the maximal runs of non-whitespace characters. */
  function Words(s: string): (ws: seq<string>)
    ensures forall i :: 0 <= i < |ws| ==> ws[i] != "" && NoSpace(ws[i])
    decreases |s|
  {
    if s == [] then []
    else if IsSpace(s[0]) then Words(s[1..])
    else
      var n := WordLength(s);
      [s[..n]] + Words(s[n..])
  }

  lemma WordLengthOfWord(w: string, rest: string)
    requires NoSpace(w)
    requires rest == [] || IsSpace(rest[0])
    ensures WordLength(w + rest) == |w|
  {
    if w != [] {
      assert (w + rest)[1..] == w[1..] + rest;
      WordLengthOfWord(w[1..], rest);
    }
  }

  /** `" ".join(ws).split() == ws` for non-empty words without whitespace. */
  lemma {:induction false} WordsJoin(ws: seq<string>)
    requires forall i :: 0 <= i < |ws| ==> ws[i] != "" && NoSpace(ws[i])
    ensures Words(Join(ws, ' ')) == ws
  {
    if |ws| == 1 {
      WordLengthOfWord(ws[0], "");
      assert ws[0][..|ws[0]|] == ws[0];
      assert ws[0][|ws[0]|..] == [];
    } else if |ws| > 1 {
      var rest := Join(ws[1..], ' ');
      var s := ws[0] + [' '] + rest;
      assert Join(ws, ' ') == s;
      WordLengthOfWord(ws[0], [' '] + rest);
      assert s == ws[0] + ([' '] + rest);
      assert s[..|ws[0]|] == ws[0];
      assert s[|ws[0]|..] == [' '] + rest;
      assert ([' '] + rest)[1..] == rest;
      WordsJoin(ws[1..]);
    }
  }

  /** Python's `s.strip()`: the string without leading and trailing whitespace. */
  function Strip(s: string): (r: string)
    ensures r == [] || (!IsSpace(r[0]) && !IsSpace(r[|r| - 1]))
    ensures |r| <= |s|
    decreases |s|
  {
    if s == [] then []
    else if IsSpace(s[0]) then Strip(s[1..])
    else if IsSpace(s[|s| - 1]) then Strip(s[..|s| - 1])
    else s
  }

  // ---------------------------------------------------------------------
  // ASCII

  predicate IsAscii(s: string) {
    forall i :: 0 <= i < |s| ==> s[i] as int < 128
  }

  /** `s.encode("ASCII")`, which fails on any non-ASCII character. */
  function AsciiEncode(s: string): (r: Option<seq<byte>>)
    ensures r.Some? <==> IsAscii(s)
    ensures r.Some? ==> |r.value| == |s| && forall i :: 0 <= i < |s| ==> r.value[i] as int == s[i] as int
  {
    if IsAscii(s) then Some(seq(|s|, i requires 0 <= i < |s| => s[i] as int as byte)) else None
  }

  function UpperChar(c: char): char {
    if 'a' <= c <= 'z' then (c as int - 32) as char else c
  }

  function LowerChar(c: char): char {
    if 'A' <= c <= 'Z' then (c as int + 32) as char else c
  }

  function Upper(s: string): (r: string)
    ensures |r| == |s| && forall i :: 0 <= i < |s| ==> r[i] == UpperChar(s[i])
  {
    seq(|s|, i requires 0 <= i < |s| => UpperChar(s[i]))
  }

  function Lower(s: string): (r: string)
    ensures |r| == |s| && forall i :: 0 <= i < |s| ==> r[i] == LowerChar(s[i])
  {
    seq(|s|, i requires 0 <= i < |s| => LowerChar(s[i]))
  }

  // ---------------------------------------------------------------------
  // bytes.hex() and bytes.fromhex()

  function HexDigit(n: int): char
    requires 0 <= n < 16
  {
    "0123456789abcdef"[n]
  }

  /** `bytes.hex()`: two lower-case digits per byte. */
  function Hex(b: seq<byte>): (s: string)
    ensures |s| == 2 * |b|
  {
    if b == [] then "" else [HexDigit(b[0] as int / 16), HexDigit(b[0] as int % 16)] + Hex(b[1..])
  }

  function HexValue(c: char): Option<int> {
    if '0' <= c <= '9' then Some(c as int - '0' as int)
    else if 'a' <= c <= 'f' then Some(c as int - 'a' as int + 10)
    else if 'A' <= c <= 'F' then Some(c as int - 'A' as int + 10)
    else None
  }

  /** The whitespace `bytes.fromhex` skips between byte pairs (ASCII only). */
  predicate IsAsciiSpace(c: char) {
    c == ' ' || ('\t' <= c <= '\r')
  }

  /** `bytes.fromhex(s)`; None where Python raises ValueError. Whitespace is
      skipped before each pair of digits, never inside one. */
  function FromHex(s: string): Option<seq<byte>>
    decreases |s|
  {
    if s == [] then Some([])
    else if IsAsciiSpace(s[0]) then FromHex(s[1..])
    else if |s| < 2 then None
    else
      match (HexValue(s[0]), HexValue(s[1]))
      case (Some(h), Some(l)) =>
        (match FromHex(s[2..])
         case Some(rest) => if 0 <= h * 16 + l < 256 then Some([(h * 16 + l) as byte] + rest) else None
         case None => None)
      case _ => None
  }

  lemma HexValueOfDigit(n: int)
    requires 0 <= n < 16
    ensures HexValue(HexDigit(n)) == Some(n)
  {
    var digits := "0123456789abcdef";
    assert digits[0] == '0' && digits[1] == '1' && digits[2] == '2' && digits[3] == '3';
    assert digits[4] == '4' && digits[5] == '5' && digits[6] == '6' && digits[7] == '7';
    assert digits[8] == '8' && digits[9] == '9' && digits[10] == 'a' && digits[11] == 'b';
    assert digits[12] == 'c' && digits[13] == 'd' && digits[14] == 'e' && digits[15] == 'f';
  }

  lemma FromHexPair(h: int, l: int, rest: string)
    requires 0 <= h < 16 && 0 <= l < 16
    ensures FromHex([HexDigit(h), HexDigit(l)] + rest) ==
      match FromHex(rest) case Some(r) => Some([(h * 16 + l) as byte] + r) case None => None
  {
    var s := [HexDigit(h), HexDigit(l)] + rest;
    HexValueOfDigit(h);
    HexValueOfDigit(l);
    assert s[0] == HexDigit(h) && s[1] == HexDigit(l) && s[2..] == rest;
    assert !IsAsciiSpace(s[0]);
  }

  /** `bytes.fromhex(b.hex()) == b`. */
  lemma {:induction false} FromHexHex(b: seq<byte>)
    ensures FromHex(Hex(b)) == Some(b)
  {
    if b != [] {
      var h, l := b[0] as int / 16, b[0] as int % 16;
      FromHexPair(h, l, Hex(b[1..]));
      FromHexHex(b[1..]);
      assert h * 16 + l == b[0] as int;
      assert [(h * 16 + l) as byte] + b[1..] == b;
    }
  }
  // ---------------------------------------------------------------------
  // int(s) and str(n)

  predicate IsDigit(c: char) {
    '0' <= c <= '9'
  }

  predicate AllDigits(s: string) {
    forall i :: 0 <= i < |s| ==> IsDigit(s[i])
  }

  /** Decimal digits, possibly with underscores among them. */
  predicate DigitsOrUnderscores(s: string) {
    forall i :: 0 <= i < |s| ==> IsDigit(s[i]) || s[i] == '_'
  }

  /** The value of a string of decimal digits; underscores are skipped. */
  function DigitsValue(s: string): (n: nat)
    requires DigitsOrUnderscores(s)
    decreases |s|
  {
    if s == [] then 0
    else if s[|s| - 1] == '_' then DigitsValue(s[..|s| - 1])
    else DigitsValue(s[..|s| - 1]) * 10 + (s[|s| - 1] as int - '0' as int)
  }

  /** The decimal digits of n, without leading zeros. */
  function NatDigits(n: nat): (s: string)
    ensures |s| >= 1 && AllDigits(s)
    ensures |s| > 1 ==> s[0] != '0'
  {
    if n < 10 then ["0123456789"[n]]
    else NatDigits(n / 10) + ["0123456789"[n % 10]]
  }

  /** `str(n)`. */
  function IntString(n: int): (s: string)
    ensures s != [] && !IsSpace(s[0]) && !IsSpace(s[|s| - 1])
  {
    if n < 0 then "-" + NatDigits(-n) else NatDigits(n)
  }

  /** The digit part of a Python integer literal: ASCII digits, with single
      underscores allowed between two digits. */
  predicate DigitGroups(d: string) {
    && d != [] && IsDigit(d[0]) && IsDigit(d[|d| - 1])
    && DigitsOrUnderscores(d)
    && (forall i :: 0 <= i < |d| - 1 ==> d[i] == '_' ==> d[i + 1] != '_')
  }

  /** The value of a stripped, non-empty literal: an optional sign, then
      digit groups. */
  function SignedValue(t: string): Option<int>
    requires t != []
  {
    var d := if t[0] == '-' || t[0] == '+' then t[1..] else t;
    if DigitGroups(d) then
      var n := DigitsValue(d) as int;
      Some(if t[0] == '-' then 0 - n else n)
    else None
  }

  /** `int(s)` for an optional sign and ASCII digit groups surrounded by
      whitespace; None where Python raises ValueError. Decimal digits
      outside ASCII, which Python also accepts, give None here. */
  function ParseInt(s: string): (r: Option<int>)
    ensures r.Some? ==> Strip(s) != []
  {
    var t := Strip(s);
    if t == [] then None else SignedValue(t)
  }

  /** An underscore inside a digit string does not change its value. */
  lemma {:induction false} DigitsValueSkips(a: string, b: string)
    requires AllDigits(a) && AllDigits(b)
    ensures DigitsOrUnderscores(a + "_" + b) && DigitsValue(a + "_" + b) == DigitsValue(a + b)
    decreases |b|
  {
    var s := a + "_" + b;
    assert forall i :: 0 <= i < |s| ==> (i < |a| ==> s[i] == a[i]) && (i == |a| ==> s[i] == '_') && (i > |a| ==> s[i] == b[i - |a| - 1]);
    if b == [] {
      assert s[..|s| - 1] == a && a + b == a;
    } else {
      var front := b[..|b| - 1];
      DigitsValueSkips(a, front);
      assert s[..|s| - 1] == a + "_" + front;
      assert (a + b)[..|a + b| - 1] == a + front;
      assert s[|s| - 1] == (a + b)[|a + b| - 1] == b[|b| - 1];
    }
  }

  /** Two digit groups joined by one underscore form a literal. */
  lemma UnderscoreJoin(a: string, b: string)
    requires a != [] && AllDigits(a) && b != [] && AllDigits(b)
    ensures DigitGroups(a + "_" + b)
  {
    var s := a + "_" + b;
    assert s[0] == a[0] && s[|s| - 1] == b[|b| - 1];
    DigitsValueSkips(a, b);
    forall i | 0 <= i < |s| - 1 && s[i] == '_'
      ensures s[i + 1] != '_'
    {
      assert i == |a|;
    }
  }

  /** A single underscore between two digit groups is dropped:
      int("1_000") == int("1000"). */
  lemma ParseIntUnderscore(a: string, b: string)
    requires a != [] && AllDigits(a) && b != [] && AllDigits(b)
    ensures ParseInt(a + "_" + b) == Some(DigitsValue(a + b) as int)
  {
    var s := a + "_" + b;
    assert s[0] == a[0] && s[|s| - 1] == b[|b| - 1];
    StripUnchanged(s);
    assert ParseInt(s) == SignedValue(s);
    UnderscoreJoin(a, b);
    DigitsValueSkips(a, b);
    assert s[0] != '-' && s[0] != '+';
  }

  /** Two underscores in a row make the literal invalid. */
  lemma ParseIntDoubleUnderscore(a: string, b: string)
    requires a != [] && AllDigits(a) && b != [] && AllDigits(b)
    ensures ParseInt(a + "__" + b) == None
  {
    var s := a + "__" + b;
    assert s[0] == a[0] && s[|s| - 1] == b[|b| - 1];
    StripUnchanged(s);
    assert s[|a|] == '_' && s[|a| + 1] == '_';
  }

  lemma DigitValue(k: nat)
    requires k < 10
    ensures IsDigit("0123456789"[k]) && "0123456789"[k] as int - '0' as int == k
  {
    var digits := "0123456789";
    assert digits[0] == '0' && digits[1] == '1' && digits[2] == '2' && digits[3] == '3' && digits[4] == '4';
    assert digits[5] == '5' && digits[6] == '6' && digits[7] == '7' && digits[8] == '8' && digits[9] == '9';
  }

  lemma {:induction false} DigitsValueNatDigits(n: nat)
    ensures DigitsValue(NatDigits(n)) == n
  {
    if n < 10 {
      DigitValue(n);
      assert NatDigits(n)[..0] == [];
    } else {
      var s := NatDigits(n);
      DigitValue(n % 10);
      assert s[..|s| - 1] == NatDigits(n / 10);
      DigitsValueNatDigits(n / 10);
    }
  }

  lemma StripUnchanged(s: string)
    requires s != [] && !IsSpace(s[0]) && !IsSpace(s[|s| - 1])
    ensures Strip(s) == s
  {
  }

  lemma DigitsAreGroups(d: string)
    requires d != [] && AllDigits(d)
    ensures DigitGroups(d)
  {
    assert IsDigit(d[0]) && IsDigit(d[|d| - 1]);
    assert forall i :: 0 <= i < |d| ==> d[i] != '_';
  }

  lemma SignedDigitsValue(negative: bool, d: string)
    requires d != [] && AllDigits(d)
    ensures SignedValue((if negative then "-" else "") + d) == Some(if negative then 0 - DigitsValue(d) as int else DigitsValue(d) as int)
  {
    DigitsAreGroups(d);
    var t := (if negative then "-" else "") + d;
    var body := if t[0] == '-' || t[0] == '+' then t[1..] else t;
    if negative {
      assert t[0] == '-';
      assert t[1..] == d;
    } else {
      assert t == d;
      assert t[0] != '-' && t[0] != '+' by { assert IsDigit(d[0]); }
    }
    assert body == d;
  }

  /** A sign followed by decimal digits parses to their signed value. */
  lemma ParseSignedDigits(negative: bool, d: string)
    requires d != [] && AllDigits(d)
    ensures ParseInt((if negative then "-" else "") + d) == Some(if negative then 0 - DigitsValue(d) as int else DigitsValue(d) as int)
  {
    var s := (if negative then "-" else "") + d;
    assert !IsSpace(s[0]) by {
      if !negative { assert s[0] == d[0] && IsDigit(d[0]); }
    }
    assert s[|s| - 1] == d[|d| - 1] && IsDigit(d[|d| - 1]);
    StripUnchanged(s);
    SignedDigitsValue(negative, d);
  }

  /** `int(str(n)) == n`. */
  lemma ParseIntString(n: int)
    ensures ParseInt(IntString(n)) == Some(n)
  {
    var m: nat := if n < 0 then -n else n;
    var d := NatDigits(m);
    assert IntString(n) == (if n < 0 then "-" else "") + d;
    DigitsValueNatDigits(m);
    ParseSignedDigits(n < 0, d);
  }
  /** Stripping twice is stripping once. */
  lemma StripIdempotent(s: string)
    ensures Strip(Strip(s)) == Strip(s)
  {
    if Strip(s) != [] {
      StripUnchanged(Strip(s));
    }
  }

  function Take<T>(xs: seq<T>, n: int): (r: seq<T>)
    ensures |r| == if n <= 0 then 0 else if n < |xs| then n else |xs|
    ensures forall i :: 0 <= i < |r| ==> r[i] == xs[i]
    ensures forall x :: x in r ==> x in xs
  {
    if n <= 0 then [] else if n < |xs| then xs[..n] else xs
  }

  function Drop<T>(xs: seq<T>, n: int): (r: seq<T>)
    ensures |r| == if n <= 0 then |xs| else if n < |xs| then |xs| - n else 0
    ensures forall x :: x in r ==> x in xs
  {
    if n <= 0 then xs else if n < |xs| then xs[n..] else []
  }
}
