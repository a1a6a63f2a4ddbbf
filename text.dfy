/** The C++ standard-library text operations the /proc reader is built from,
    stated over `string` (a sequence of `char`):
    - `stream >> word` on a std::istringstream (whitespace tokenising),
    - `std::getline(stream, field, d)` repeated (splitting on one delimiter),
    - `std::replace` over a whole string,
    - `std::stol` / `std::stoi` (a leading decimal integer, or an exception),
    - `stream >> number` (a whole token read as a decimal integer),
    - `std::to_string` and C++ integer division (truncating toward zero). */
module Text {
  import opened Options

  // ---------------------------------------------------------------------
  // Characters

  /** Whitespace as `isspace` classifies it in the C locale. */
  predicate IsSpace(c: char) {
    c == ' ' || c == '\t' || c == '\n' || c == '\r' || c == '\U{000B}' || c == '\U{000C}'
  }

  predicate IsDigit(c: char) {
    '0' <= c <= '9'
  }

  predicate AllDigits(s: string) {
    forall c :: c in s ==> IsDigit(c)
  }

  function DigitValue(c: char): (d: nat)
    requires IsDigit(c)
    ensures d < 10
  {
    (c as int) - ('0' as int)
  }

  function DigitChar(d: nat): (c: char)
    requires d < 10
    ensures IsDigit(c) && DigitValue(c) == d
  {
    (('0' as int) + d) as char
  }

  // ---------------------------------------------------------------------
  // Whitespace tokenising: what repeated `stream >> word` reads

  /** A token as `>>` extracts it: non-empty and free of whitespace. */
  predicate IsWord(w: string) {
    w != [] && forall c :: c in w ==> !IsSpace(c)
  }

  /** Length of the run of non-whitespace characters that starts `s`. */
  function WordLength(s: string): (n: nat)
    ensures n <= |s|
    ensures forall i :: 0 <= i < n ==> !IsSpace(s[i])
    ensures n < |s| ==> IsSpace(s[n])
  {
    if s == [] || IsSpace(s[0]) then 0 else 1 + WordLength(s[1..])
  }

  /** The words `stream >> word` extracts from `s`, in order, until the
      stream is exhausted: leading whitespace is skipped, then a maximal run
      of non-whitespace characters is read. */
  function Tokens(s: string): (ts: seq<string>)
    ensures forall k :: 0 <= k < |ts| ==> IsWord(ts[k])
    decreases |s|
  {
    if s == [] then []
    else if IsSpace(s[0]) then Tokens(s[1..])
    else
      var n := WordLength(s);
      [s[..n]] + Tokens(s[n..])
  }

  /** Words separated by single spaces: the inverse of `Tokens` on words. */
  function Unwords(ws: seq<string>): string {
    if |ws| == 0 then ""
    else if |ws| == 1 then ws[0]
    else ws[0] + " " + Unwords(ws[1..])
  }

  lemma {:induction false} WordLengthAroundSpace(x: string, c: char, y: string)
    requires IsSpace(c)
    ensures WordLength(x + [c] + y) == WordLength(x)
    decreases |x|
  {
    if x == [] {
      assert (x + [c] + y)[0] == c;
    } else if !IsSpace(x[0]) {
      assert (x + [c] + y)[1..] == x[1..] + [c] + y;
      WordLengthAroundSpace(x[1..], c, y);
    }
  }

  /** A whitespace character separates the tokens on its two sides. */
  lemma {:induction false} TokensAroundSpace(x: string, c: char, y: string)
    requires IsSpace(c)
    ensures Tokens(x + [c] + y) == Tokens(x) + Tokens(y)
    decreases |x|
  {
    var s := x + [c] + y;
    if x == [] {
      assert s[1..] == y;
    } else if IsSpace(x[0]) {
      assert s[1..] == x[1..] + [c] + y;
      TokensAroundSpace(x[1..], c, y);
    } else {
      var n := WordLength(x);
      WordLengthAroundSpace(x, c, y);
      assert s[..n] == x[..n];
      assert s[n..] == x[n..] + [c] + y;
      TokensAroundSpace(x[n..], c, y);
    }
  }

  /** A single word tokenises to itself. */
  lemma TokensOfWord(w: string)
    requires IsWord(w)
    ensures Tokens(w) == [w]
  {
    var n := WordLength(w);
    assert forall i :: 0 <= i < |w| ==> w[i] in w && !IsSpace(w[i]);
    assert w[..n] == w;
    assert w[n..] == [];
  }

  /** Round trip: tokenising words joined by spaces gives the words back. */
  lemma {:induction false} TokensOfUnwords(ws: seq<string>)
    requires forall k :: 0 <= k < |ws| ==> IsWord(ws[k])
    ensures Tokens(Unwords(ws)) == ws
  {
    if |ws| == 1 {
      TokensOfWord(ws[0]);
    } else if |ws| > 1 {
      TokensAroundSpace(ws[0], ' ', Unwords(ws[1..]));
      assert ws[0] + " " + Unwords(ws[1..]) == ws[0] + [' '] + Unwords(ws[1..]);
      TokensOfWord(ws[0]);
      TokensOfUnwords(ws[1..]);
    }
  }

  // ---------------------------------------------------------------------
  // Splitting on one delimiter: what repeated `getline(stream, f, d)` reads

  /** Length of the field that starts `s`: up to the first `d`, or all of `s`. */
  function FieldLength(s: string, d: char): (n: nat)
    ensures n <= |s|
    ensures forall i :: 0 <= i < n ==> s[i] != d
    ensures n < |s| ==> s[n] == d
  {
    if s == [] || s[0] == d then 0 else 1 + FieldLength(s[1..], d)
  }

  /** The fields between occurrences of `d`; there is always one more field
      than there are delimiters, and fields may be empty. */
  function Split(s: string, d: char): (fs: seq<string>)
    ensures |fs| >= 1
    ensures forall k :: 0 <= k < |fs| ==> d !in fs[k]
    decreases |s|
  {
    var n := FieldLength(s, d);
    if n == |s| then [s] else [s[..n]] + Split(s[n + 1..], d)
  }

  /** Fields glued back together with `d` between them. */
  function Join(fs: seq<string>, d: char): string
    requires |fs| >= 1
  {
    if |fs| == 1 then fs[0] else fs[0] + [d] + Join(fs[1..], d)
  }

  /** Splitting loses nothing: joining the fields gives back the line. */
  lemma {:induction false} JoinSplit(s: string, d: char)
    ensures Join(Split(s, d), d) == s
    decreases |s|
  {
    var n := FieldLength(s, d);
    if n < |s| {
      var rest := Split(s[n + 1..], d);
      var fs := [s[..n]] + rest;
      assert Split(s, d) == fs;
      assert fs[0] == s[..n] && fs[1..] == rest;
      assert Join(fs, d) == s[..n] + [d] + Join(rest, d);
      JoinSplit(s[n + 1..], d);
      assert s == s[..n] + [d] + s[n + 1..];
    } else {
      assert Split(s, d) == [s];
    }
  }

  lemma {:induction false} FieldLengthOfJoin(f: string, d: char, rest: string)
    requires d !in f
    ensures FieldLength(f + [d] + rest, d) == |f|
    ensures FieldLength(f, d) == |f|
    decreases |f|
  {
    if f != [] {
      assert (f + [d] + rest)[1..] == f[1..] + [d] + rest;
      FieldLengthOfJoin(f[1..], d, rest);
    }
  }

  /** Splitting delimiter-free fields joined by `d` gives the fields back. */
  lemma {:induction false} SplitJoin(fs: seq<string>, d: char)
    requires |fs| >= 1
    requires forall k :: 0 <= k < |fs| ==> d !in fs[k]
    ensures Split(Join(fs, d), d) == fs
  {
    FieldLengthOfJoin(fs[0], d, if |fs| == 1 then [] else Join(fs[1..], d));
    if |fs| == 1 {
      assert fs[0][..|fs[0]|] == fs[0];
    } else {
      var s := Join(fs, d);
      assert s[..|fs[0]|] == fs[0];
      assert s[|fs[0]| + 1..] == Join(fs[1..], d);
      SplitJoin(fs[1..], d);
    }
  }

  // ---------------------------------------------------------------------
  // std::replace over a whole string

  /** `s` with every `from` replaced by `to`, everything else in place. */
  function Replace(s: string, from: char, to: char): (r: string)
    ensures |r| == |s|
    ensures forall i :: 0 <= i < |s| ==> r[i] == (if s[i] == from then to else s[i])
  {
    if s == [] then [] else [if s[0] == from then to else s[0]] + Replace(s[1..], from, to)
  }

  lemma ReplaceRemoves(s: string, from: char, to: char)
    requires from != to
    ensures from !in Replace(s, from, to)
  {
    var r := Replace(s, from, to);
    assert forall i :: 0 <= i < |r| ==> r[i] != from;
  }

  // ---------------------------------------------------------------------
  // Decimal numbers

  /** The value of a string of decimal digits (empty means 0). */
  function DigitsValue(s: string): nat
    requires AllDigits(s)
  {
    if s == [] then 0
    else
      assert s[|s| - 1] in s;
      10 * DigitsValue(s[..|s| - 1]) + DigitValue(s[|s| - 1])
  }

  /** The shortest decimal digit string of `n` (what std::to_string gives for n >= 0). */
  function DecimalString(n: nat): (s: string)
    ensures s != [] && AllDigits(s)
  {
    if n < 10 then [DigitChar(n)] else DecimalString(n / 10) + [DigitChar(n % 10)]
  }

  /** std::to_string of a signed integer. */
  function IntToString(n: int): (s: string)
    ensures s != []
  {
    if n < 0 then "-" + DecimalString(-n) else DecimalString(n)
  }

  /** Round trip: the digits `DecimalString` writes read back as `n`. */
  lemma {:induction false} DigitsValueOfDecimal(n: nat)
    ensures DigitsValue(DecimalString(n)) == n
  {
    if n >= 10 {
      var s := DecimalString(n);
      assert s[..|s| - 1] == DecimalString(n / 10);
      DigitsValueOfDecimal(n / 10);
    }
  }

  /** Length of the run of decimal digits that starts `s`. */
  function DigitRun(s: string): (n: nat)
    ensures n <= |s|
    ensures AllDigits(s[..n])
    ensures n < |s| ==> !IsDigit(s[n])
  {
    if s == [] || !IsDigit(s[0]) then 0
    else
      var n := 1 + DigitRun(s[1..]);
      assert s[..n] == [s[0]] + s[1..][..n - 1];
      n
  }

  /** `s` without its leading whitespace. */
  function SkipSpaces(s: string): (r: string)
    ensures r == [] || !IsSpace(r[0])
  {
    if s != [] && IsSpace(s[0]) then SkipSpaces(s[1..]) else s
  }

  /** The longest run of digits that starts `s`, as a number; `None` when
      `s` does not start with a digit. */
  function UnsignedDigits(s: string): Option<nat> {
    var n := DigitRun(s);
    if n == 0 then None else Some(DigitsValue(s[..n]))
  }

  /** An optional sign and the digits after it, read as one integer; `None`
      when no digit follows the optional sign. */
  function SignedDigits(s: string): Option<int> {
    if s != [] && (s[0] == '-' || s[0] == '+') then
      match UnsignedDigits(s[1..])
      case None => None
      case Some(v) => Some(if s[0] == '-' then 0 - v else v)
    else
      match UnsignedDigits(s)
      case None => None
      case Some(v) => Some(v)
  }

  /** std::stol / std::stoi in base 10: skip leading whitespace, then read an
      optional sign and the longest run of digits, ignoring whatever follows;
      `None` where they throw std::invalid_argument (no digits). */
  function LeadingInt(s: string): Option<int> {
    SignedDigits(SkipSpaces(s))
  }

  /** Round trip: std::stol reads back what std::to_string wrote, whatever
      non-digit text follows it. */
  lemma LeadingIntOfString(n: int, rest: string)
    requires rest == [] || !IsDigit(rest[0])
    ensures LeadingInt(IntToString(n) + rest) == Some(n)
  {
    var m := if n < 0 then -n else n;
    var d := DecimalString(m);
    DigitsValueOfDecimal(m);
    if n < 0 {
      assert IntToString(n) + rest == "-" + (d + rest);
      NegativeDigits(d, rest);
    } else {
      assert IntToString(n) + rest == d + rest;
      PlainDigits(d, rest);
    }
  }

  /** std::stol / std::stoi read a decimal string back as its number. */
  lemma LeadingIntOfDecimal(n: nat)
    ensures LeadingInt(DecimalString(n)) == Some(n as int)
  {
    assert IntToString(n) + [] == DecimalString(n);
    LeadingIntOfString(n, []);
  }

  lemma NegativeDigits(d: string, rest: string)
    requires d != [] && AllDigits(d)
    requires rest == [] || !IsDigit(rest[0])
    ensures LeadingInt("-" + (d + rest)) == Some(0 - DigitsValue(d))
  {
    var s := "-" + (d + rest);
    assert SkipSpaces(s) == s;
    assert s[1..] == d + rest;
    UnsignedDigitsOfDigits(d, rest);
  }

  lemma PlainDigits(d: string, rest: string)
    requires d != [] && AllDigits(d)
    requires rest == [] || !IsDigit(rest[0])
    ensures LeadingInt(d + rest) == Some(DigitsValue(d) as int)
  {
    assert d[0] in d;
    assert (d + rest)[0] == d[0];
    assert SkipSpaces(d + rest) == d + rest;
    UnsignedDigitsOfDigits(d, rest);
  }

  /** std::stoi on a non-empty string of digits reads its value. */
  lemma LeadingIntOfDigits(d: string)
    requires d != [] && AllDigits(d)
    ensures LeadingInt(d) == Some(DigitsValue(d) as int)
  {
    assert d[0] in d;
    UnsignedDigitsOfDigits(d, []);
    assert d + [] == d;
  }

  lemma UnsignedDigitsOfDigits(d: string, rest: string)
    requires d != [] && AllDigits(d)
    requires rest == [] || !IsDigit(rest[0])
    ensures UnsignedDigits(d + rest) == Some(DigitsValue(d))
  {
    DigitRunOfDigits(d, rest);
    assert (d + rest)[..|d|] == d;
  }

  lemma {:induction false} DigitRunOfDigits(d: string, rest: string)
    requires AllDigits(d)
    requires rest == [] || !IsDigit(rest[0])
    ensures DigitRun(d + rest) == |d|
    decreases |d|
  {
    if d != [] {
      assert d[0] in d;
      assert (d + rest)[1..] == d[1..] + rest;
      DigitRunOfDigits(d[1..], rest);
    } else {
      assert d + rest == rest;
    }
  }

  /** A whole token that `stream >> number` consumes: an optional sign
      followed by one or more decimal digits and nothing else. */
  predicate IsNumeral(w: string) {
    if w != [] && (w[0] == '-' || w[0] == '+') then |w| > 1 && AllDigits(w[1..])
    else w != [] && AllDigits(w)
  }

  /** The integer `stream >> number` stores for a numeral token. */
  function NumeralValue(w: string): (v: int)
    requires IsNumeral(w)
  {
    if w[0] == '-' then 0 - DigitsValue(w[1..])
    else if w[0] == '+' then DigitsValue(w[1..])
    else DigitsValue(w)
  }

  /** std::to_string writes a numeral, and `>>` reads its value back. */
  lemma NumeralOfString(n: int)
    ensures IsNumeral(IntToString(n))
    ensures NumeralValue(IntToString(n)) == n
  {
    var m := if n < 0 then -n else n;
    var d := DecimalString(m);
    assert d[0] in d;
    if n < 0 {
      assert IntToString(n)[1..] == d;
    }
    DigitsValueOfDecimal(m);
  }

  // ---------------------------------------------------------------------
  // C++ integer division

  /** `a / b` on C++ integers, which truncates toward zero, for `b > 0`. */
  function TruncDiv(a: int, b: int): (q: int)
    requires b > 0
    ensures a >= 0 ==> 0 <= a - q * b < b
    ensures a < 0 ==> -b < a - q * b <= 0
  {
    if a >= 0 then a / b else -((-a) / b)
  }
}
