/**
 * The JavaScript string built-ins that the log engine leans on (`trim`, `split`,
 * `toUpperCase`, `includes`, `parseFloat`, `Number`), written out over `seq<char>`.
 */
module Text {
  import opened Wrappers

  // ---------------------------------------------------------------------------
  // White space
  // ---------------------------------------------------------------------------

  /** JavaScript white space and line terminators: the regex class `\s`, and what `trim` removes. */
  predicate IsSpace(c: char) {
    c == ' ' || c == '\t' || c == '\n' || c == '\r' || c == '\U{0B}' || c == '\U{0C}'
    || c == '\U{A0}' || c == '\U{1680}' || ('\U{2000}' <= c <= '\U{200A}')
    || c == '\U{2028}' || c == '\U{2029}' || c == '\U{202F}' || c == '\U{205F}'
    || c == '\U{3000}' || c == '\U{FEFF}'
  }

  predicate IsBlank(s: string) {
    forall i :: 0 <= i < |s| ==> IsSpace(s[i])
  }

  /** `s` without its leading white space (see TrimStartSpec). */
  function TrimStart(s: string): (r: string)
    ensures |r| <= |s|
  {
    if |s| > 0 && IsSpace(s[0]) then TrimStart(s[1..]) else s
  }

  /** `s` without its trailing white space (see TrimEndSpec). */
  function TrimEnd(s: string): (r: string)
    ensures |r| <= |s|
  {
    if |s| > 0 && IsSpace(s[|s| - 1]) then TrimEnd(s[..|s| - 1]) else s
  }

  /** `s.trim()` (see TrimSpec). */
  function Trim(s: string): (r: string)
    ensures |r| <= |s|
  {
    TrimEnd(TrimStart(s))
  }

  /** TrimStart removes a blank prefix and stops at the first character that is not white space. */
  lemma {:induction false} TrimStartSpec(s: string)
    ensures var r := TrimStart(s);
            r == s[|s| - |r|..] && IsBlank(s[..|s| - |r|]) && (r == [] || !IsSpace(r[0]))
  {
    if |s| > 0 && IsSpace(s[0]) {
      TrimStartSpec(s[1..]);
      var r := TrimStart(s);
      assert s[1..][..|s| - 1 - |r|] == s[1..|s| - |r|];
      assert s[1..][|s| - 1 - |r|..] == s[|s| - |r|..];
    }
  }

  /** TrimEnd removes a blank suffix and stops at the last character that is not white space. */
  lemma {:induction false} TrimEndSpec(s: string)
    ensures var r := TrimEnd(s);
            r == s[..|r|] && IsBlank(s[|r|..]) && (r == [] || !IsSpace(r[|r| - 1]))
  {
    if |s| > 0 && IsSpace(s[|s| - 1]) {
      TrimEndSpec(s[..|s| - 1]);
      var r := TrimEnd(s);
      assert s[..|s| - 1][..|r|] == s[..|r|];
      assert s[..|s| - 1][|r|..] == s[|r|..|s| - 1];
    }
  }

  /** `s.trim()` is empty exactly when `s` is blank, and never starts or ends in white space. */
  lemma TrimSpec(s: string)
    ensures Trim(s) == [] <==> IsBlank(s)
    ensures Trim(s) == [] || (!IsSpace(Trim(s)[0]) && !IsSpace(Trim(s)[|Trim(s)| - 1]))
  {
    var t := TrimStart(s);
    TrimStartSpec(s);
    TrimEndSpec(t);
    if |t| > 0 {
      assert s[|s| - |t|] == t[0];
    }
    if Trim(s) == [] {
      assert t[0..] == t;
      assert |t| == 0;
      assert s[..|s|] == s;
    } else {
      var r := Trim(s);
      assert r[0] == t[0];
    }
  }

  // ---------------------------------------------------------------------------
  // Searching and splitting
  // ---------------------------------------------------------------------------

  /** `t` occurs in `s` at index `i`. */
  predicate OccursAt(s: string, t: string, i: nat) {
    i + |t| <= |s| && s[i..i + |t|] == t
  }

  /** `s.includes(t)`: `t` is a prefix of `s` or of one of its suffixes (see ContainsSpec). */
  predicate Contains(s: string, t: string)
    decreases |s|
  {
    (|t| <= |s| && s[..|t|] == t) || (|s| > 0 && Contains(s[1..], t))
  }

  /** `s.includes(t)` holds exactly when `t` occurs in `s` at some index. */
  lemma {:induction false} ContainsSpec(s: string, t: string)
    ensures Contains(s, t) <==> exists i: nat :: i <= |s| && OccursAt(s, t, i)
    decreases |s|
  {
    if |t| <= |s| && s[..|t|] == t {
      assert OccursAt(s, t, 0);
    }
    if |s| > 0 {
      ContainsSpec(s[1..], t);
      if Contains(s[1..], t) {
        var i: nat :| i <= |s[1..]| && OccursAt(s[1..], t, i);
        assert s[i + 1..i + 1 + |t|] == s[1..][i..i + |t|];
        assert OccursAt(s, t, i + 1);
      }
      if exists i: nat :: i <= |s| && OccursAt(s, t, i) {
        var i: nat :| i <= |s| && OccursAt(s, t, i);
        if i > 0 {
          assert s[1..][i - 1..i - 1 + |t|] == s[i..i + |t|];
          assert OccursAt(s[1..], t, i - 1);
        } else {
          assert s[..|t|] == s[0..|t|];
        }
      }
    } else {
      if exists i: nat :: i <= |s| && OccursAt(s, t, i) {
        var i: nat :| i <= |s| && OccursAt(s, t, i);
        assert |t| <= |s| && s[..|t|] == s[i..i + |t|];
      }
    }
  }

  /** The index of the first `c` in `s`, or `|s|` when there is none (see IndexOfFirst). */
  function IndexOf(s: string, c: char): (i: nat)
    ensures i <= |s|
  {
    if |s| == 0 || s[0] == c then 0 else 1 + IndexOf(s[1..], c)
  }

  lemma {:induction false} IndexOfFirst(s: string, c: char)
    ensures IndexOf(s, c) < |s| ==> s[IndexOf(s, c)] == c
    ensures forall j :: 0 <= j < IndexOf(s, c) ==> s[j] != c
  {
    if |s| > 0 && s[0] != c {
      IndexOfFirst(s[1..], c);
    }
  }

  /** The fields joined back with `sep` between them (`Array.prototype.join`). */
  function Join(fields: seq<string>, sep: char): string
  {
    if |fields| == 0 then ""
    else if |fields| == 1 then fields[0]
    else fields[0] + [sep] + Join(fields[1..], sep)
  }

  /** `s.split(sep)` for a one-character separator (see SplitJoin). */
  function Split(s: string, sep: char): (fields: seq<string>)
    ensures |fields| >= 1
    decreases |s|
  {
    var i := IndexOf(s, sep);
    if i == |s| then [s] else [s[..i]] + Split(s[i + 1..], sep)
  }

  /** No field of `s.split(sep)` holds `sep`, and joining the fields with `sep` gives `s` back. */
  lemma {:induction false} SplitJoin(s: string, sep: char)
    ensures forall k :: 0 <= k < |Split(s, sep)| ==> sep !in Split(s, sep)[k]
    ensures Join(Split(s, sep), sep) == s
    decreases |s|
  {
    var i := IndexOf(s, sep);
    IndexOfFirst(s, sep);
    if i < |s| {
      var rest := Split(s[i + 1..], sep);
      SplitJoin(s[i + 1..], sep);
      assert forall j :: 0 <= j < i ==> s[..i][j] == s[j];
      assert ([s[..i]] + rest)[1..] == rest;
      assert s == s[..i] + [sep] + s[i + 1..];
    }
  }

  /** The number of double quotes in `s`. */
  function QuoteCount(s: string): nat
  {
    if s == [] then 0 else (if s[0] == '"' then 1 else 0) + QuoteCount(s[1..])
  }

  lemma {:induction false} QuoteCountAppend(a: string, b: string)
    ensures QuoteCount(a + b) == QuoteCount(a) + QuoteCount(b)
  {
    if a == [] {
      assert a + b == b;
    } else {
      assert (a + b)[0] == a[0];
      assert (a + b)[1..] == a[1..] + b;
      QuoteCountAppend(a[1..], b);
    }
  }

  /** The separator of the matrix's CSV split `/,(?=(?:(?:[^"]*"){2})*[^"]*$)/`: a comma that
      is followed, up to the end of the line, by an even number of double quotes. */
  predicate IsFieldComma(s: string, i: nat)
    requires i < |s|
  {
    s[i] == ',' && QuoteCount(s[i + 1..]) % 2 == 0
  }

  /** The first field comma of `s`, or `|s|` when there is none (see FieldCommaIndexFirst). */
  function FieldCommaIndex(s: string): (i: nat)
    ensures i <= |s|
  {
    if |s| == 0 then 0
    else if IsFieldComma(s, 0) then 0
    else 1 + FieldCommaIndex(s[1..])
  }

  /** FieldCommaIndex finds a field comma, and no field comma comes before it. */
  lemma {:induction false} FieldCommaIndexFirst(s: string)
    ensures FieldCommaIndex(s) < |s| ==> IsFieldComma(s, FieldCommaIndex(s))
    ensures forall j :: 0 <= j < FieldCommaIndex(s) ==> !IsFieldComma(s, j)
  {
    if |s| > 0 && !IsFieldComma(s, 0) {
      FieldCommaIndexFirst(s[1..]);
      forall j | 1 <= j < |s| ensures IsFieldComma(s, j) <==> IsFieldComma(s[1..], j - 1) {
        assert s[1..][j..] == s[j + 1..];
      }
    }
  }

  /** The quote-aware split: every field comma separates two fields (see SplitFieldsJoin). */
  function SplitFields(s: string): (fields: seq<string>)
    ensures |fields| >= 1
    decreases |s|
  {
    var i := FieldCommaIndex(s);
    if i == |s| then [s]
    else [s[..i]] + SplitFields(s[i + 1..])
  }

  /** Joining the fields of the quote-aware split with commas gives the line back. */
  lemma {:induction false} SplitFieldsJoin(s: string)
    ensures Join(SplitFields(s), ',') == s
    decreases |s|
  {
    var i := FieldCommaIndex(s);
    FieldCommaIndexFirst(s);
    if i < |s| {
      var rest := SplitFields(s[i + 1..]);
      SplitFieldsJoin(s[i + 1..]);
      assert ([s[..i]] + rest)[1..] == rest;
      assert s == s[..i] + [','] + s[i + 1..];
    }
  }

  /** `s.replace(/^"|"$/g, '')`: drops one leading and one trailing double quote. */
  function StripQuotes(s: string): (r: string)
    ensures |r| <= |s|
    ensures |s| >= 2 && s[0] == '"' && s[|s| - 1] == '"' ==> r == s[1..|s| - 1]
    ensures '"' !in s ==> r == s
  {
    var a := if |s| > 0 && s[0] == '"' then 1 else 0;
    var b := if |s| > a && s[|s| - 1] == '"' then |s| - 1 else |s|;
    s[a..b]
  }

  // ---------------------------------------------------------------------------
  // Case
  // ---------------------------------------------------------------------------

  /** `toUpperCase` on one character, for ASCII and Latin-1 letters and the two other letters whose
      upper case is ASCII (dotless i and long s). */
  function UpperChar(c: char): char
  {
    if 'a' <= c <= 'z' then (c as int - 32) as char
    else if '\U{E0}' <= c <= '\U{FE}' && c != '\U{F7}' then (c as int - 32) as char
    else if c == '\U{FF}' then '\U{178}'
    else if c == '\U{B5}' then '\U{39C}'
    else if c == '\U{131}' then 'I'
    else if c == '\U{17F}' then 'S'
    else c
  }

  function ToUpper(s: string): (r: string)
    ensures |r| == |s|
  {
    seq(|s|, i requires 0 <= i < |s| => UpperChar(s[i]))
  }

  /** The ASCII lower case used by the case-insensitive regular expressions. */
  function LowerAscii(c: char): char
  {
    if 'A' <= c <= 'Z' then (c as int + 32) as char else c
  }

  function ToLowerAscii(s: string): (r: string)
    ensures |r| == |s|
  {
    seq(|s|, i requires 0 <= i < |s| => LowerAscii(s[i]))
  }

  predicate IsAsciiLetter(c: char) {
    ('a' <= c <= 'z') || ('A' <= c <= 'Z')
  }

  /** `lit` (written in lower case) occurs at `p` in `s`, ignoring ASCII case (a regex with `i`). */
  predicate MatchesAt(s: string, p: nat, lit: string)
  {
    p + |lit| <= |s| && forall k :: 0 <= k < |lit| ==> LowerAscii(s[p + k]) == lit[k]
  }

  // ---------------------------------------------------------------------------
  // Digits and numbers
  // ---------------------------------------------------------------------------

  predicate IsDigit(c: char) {
    '0' <= c <= '9'
  }

  function DigitValue(c: char): nat {
    if IsDigit(c) then c as int - '0' as int else 0
  }

  /** The length of the run of digits that starts at `i`. */
  function DigitRun(s: string, i: nat): (n: nat)
    requires i <= |s|
    ensures i + n <= |s|
    decreases |s| - i
  {
    if i < |s| && IsDigit(s[i]) then 1 + DigitRun(s, i + 1) else 0
  }

  /** DigitRun is the maximal run: every character it covers is a digit, and the next is not. */
  lemma {:induction false} DigitRunMaximal(s: string, i: nat)
    requires i <= |s|
    ensures forall k :: i <= k < i + DigitRun(s, i) ==> IsDigit(s[k])
    ensures i + DigitRun(s, i) == |s| || !IsDigit(s[i + DigitRun(s, i)])
    decreases |s| - i
  {
    if i < |s| && IsDigit(s[i]) {
      DigitRunMaximal(s, i + 1);
    }
  }

  /** The decimal value of a string of digits (`parseInt` on a digit run). */
  function DigitsValue(d: string): nat
  {
    if d == [] then 0 else DigitsValue(d[..|d| - 1]) * 10 + DigitValue(d[|d| - 1])
  }

  /** `m` times ten to the power `e`, one factor of ten at a time. */
  function ScaleBy10(m: real, e: int): real
    decreases if e >= 0 then e else -e
  {
    if e == 0 then m
    else if e > 0 then ScaleBy10(m * 10.0, e - 1)
    else ScaleBy10(m / 10.0, e + 1)
  }

  /** A numeric literal at the start of a string: its value and the number of characters it covers. */
  datatype Numeral = Numeral(value: real, length: nat)

  /** The optional exponent part `e[+-]?digits` at `k`: its value and where it ends
      (`k` itself when there is none). */
  function ExponentPart(s: string, k: nat): (r: (int, nat))
    requires k <= |s|
    ensures k <= r.1 <= |s|
  {
    if k < |s| && (s[k] == 'e' || s[k] == 'E') then
      var j := if k + 1 < |s| && (s[k + 1] == '+' || s[k + 1] == '-') then k + 2 else k + 1;
      var c := DigitRun(s, j);
      if c == 0 then (0, k)
      else
        var e: int := DigitsValue(s[j..j + c]);
        (if j == k + 2 && s[k + 1] == '-' then -e else e, j + c)
    else (0, k)
  }

  /** The longest prefix of `s` that is a StrDecimalLiteral of ECMAScript (sign, digits, fraction,
      exponent; `Infinity` excepted), as `parseFloat` reads it; None when no prefix is one. */
  function DecimalPrefix(s: string): (r: Option<Numeral>)
    ensures r.Some? ==> 0 < r.value.length <= |s|
  {
    var k0 := if |s| > 0 && (s[0] == '+' || s[0] == '-') then 1 else 0;
    var a := DigitRun(s, k0);
    var k1 := k0 + a;
    var hasPoint := k1 < |s| && s[k1] == '.';
    var b := if hasPoint then DigitRun(s, k1 + 1) else 0;
    var k2 := if hasPoint then k1 + 1 + b else k1;
    if a + b == 0 then None
    else
      var digits := s[k0..k1] + (if hasPoint then s[k1 + 1..k2] else "");
      var exp := ExponentPart(s, k2);
      var magnitude := ScaleBy10(DigitsValue(digits) as real, exp.0 - b);
      Some(Numeral(if k0 == 1 && s[0] == '-' then -magnitude else magnitude, exp.1))
  }

  /** `parseFloat(s)`: None stands for NaN. */
  function ParseFloat(s: string): Option<real>
  {
    ParseFloatFrom(s, true)
  }

  /** The two phases of `parseFloat`: while `skipping`, leading white space is dropped; then the
      longest decimal-literal prefix of what is left is read. */
  function ParseFloatFrom(s: string, skipping: bool): Option<real>
    decreases |s|, if skipping then 1 else 0
  {
    if skipping then
      if |s| > 0 && IsSpace(s[0]) then ParseFloatFrom(s[1..], true) else ParseFloatFrom(s, false)
    else
      match DecimalPrefix(s)
      case Some(n) => Some(n.value)
      case None => None
  }

  /** `parseFloat(s) || 0`: NaN and zero both read as 0. */
  function ParseFloatOrZero(s: string): real
  {
    ParseFloat(s).GetOr(0.0)
  }

  /** `Number(s)` on a string: blank reads as 0, otherwise the whole trimmed string must be a
      decimal literal (None stands for NaN). */
  function ToNumber(s: string): Option<real>
  {
    var t := Trim(s);
    if t == [] then Some(0.0)
    else
      match DecimalPrefix(t)
      case Some(n) => if n.length == |t| then Some(n.value) else None
      case None => None
  }

  /** A string of digits reads as its decimal value under `parseFloat`. */
  lemma {:induction false} ParseFloatOfDigits(d: string)
    requires d != [] && forall k :: 0 <= k < |d| ==> IsDigit(d[k])
    ensures ParseFloat(d) == Some(DigitsValue(d) as real)
  {
    DigitRunAll(d, 0);
    assert IsDigit(d[0]) && !IsSpace(d[0]);
    assert d[0..|d|] + "" == d;
    assert ExponentPart(d, |d|) == (0, |d|);
    assert DecimalPrefix(d) == Some(Numeral(DigitsValue(d) as real, |d|));
    assert ParseFloatFrom(d, false) == Some(DigitsValue(d) as real);
  }

  lemma {:induction false} DigitRunAll(d: string, i: nat)
    requires i <= |d| && forall k :: 0 <= k < |d| ==> IsDigit(d[k])
    ensures DigitRun(d, i) == |d| - i
    decreases |d| - i
  {
    if i < |d| { DigitRunAll(d, i + 1); }
  }
}
