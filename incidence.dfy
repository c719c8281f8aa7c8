/**
 * The incidence certificate: the text stage that turns the recognised text of a scanned
 * certificate into a folio and the dates it mentions, and the same-day comparison of those dates
 * with the error logs.
 */
module Incidence {
  import opened Wrappers
  import opened Text
  import opened Calendar
  import opened Scanning
  import opened LogAnalysis

  // ---------------------------------------------------------------------------
  // Cleaning the recognised text
  // ---------------------------------------------------------------------------

  /** The characters OCR commonly produces by mistake, which the cleaning removes. */
  predicate IsJunk(c: char) {
    c == '|' || c == '\U{AB}' || c == '\U{BB}' || c == '_' || c == '\U{2014}'
  }

  /** `replace(/\s+/g, ' ')`: every run of white space becomes one space. */
  function CollapseSpaces(s: string): string
    decreases |s|
  {
    if s == [] then []
    else if IsSpace(s[0]) then [' '] + CollapseSpaces(TrimStart(s[1..]))
    else [s[0]] + CollapseSpaces(s[1..])
  }

  /** `replace(/[|«»_—]/g, '')`. */
  function RemoveJunk(s: string): string
  {
    if s == [] then [] else (if IsJunk(s[0]) then [] else [s[0]]) + RemoveJunk(s[1..])
  }

  /** `cleanText`: spaces collapsed, OCR junk removed, then trimmed. */
  function CleanText(s: string): string {
    Trim(RemoveJunk(CollapseSpaces(s)))
  }

  /** The characters of `s` that are not white space, in order. */
  function NonSpace(s: string): string
  {
    if s == [] then [] else (if IsSpace(s[0]) then [] else [s[0]]) + NonSpace(s[1..])
  }

  lemma {:induction false} NonSpaceAppend(a: string, b: string)
    ensures NonSpace(a + b) == NonSpace(a) + NonSpace(b)
  {
    if a != [] {
      NonSpaceAppend(a[1..], b);
      assert (a + b)[1..] == a[1..] + b;
    } else {
      assert a + b == b;
    }
  }

  lemma {:induction false} NonSpaceOfBlank(s: string)
    requires IsBlank(s)
    ensures NonSpace(s) == []
  {
    if s != [] {
      NonSpaceOfBlank(s[1..]);
    }
  }

  /** Collapsing leaves only plain spaces, never two in a row, and a space first exactly when
      the input starts with white space. */
  lemma {:induction false} CollapseSpacesShape(s: string)
    ensures forall i :: 0 <= i < |CollapseSpaces(s)| && IsSpace(CollapseSpaces(s)[i]) ==> CollapseSpaces(s)[i] == ' '
    ensures forall i :: 0 <= i < |CollapseSpaces(s)| - 1 ==>
      !(IsSpace(CollapseSpaces(s)[i]) && IsSpace(CollapseSpaces(s)[i + 1]))
    ensures s != [] ==> CollapseSpaces(s) != [] && (IsSpace(CollapseSpaces(s)[0]) <==> IsSpace(s[0]))
    decreases |s|
  {
    if s != [] {
      if IsSpace(s[0]) {
        var t := TrimStart(s[1..]);
        TrimStartSpec(s[1..]);
        CollapseSpacesShape(t);
        assert CollapseSpaces(s) == [' '] + CollapseSpaces(t);
      } else {
        CollapseSpacesShape(s[1..]);
        assert CollapseSpaces(s) == [s[0]] + CollapseSpaces(s[1..]);
      }
    }
  }

  /** Collapsing keeps every character that is not white space, in order. */
  lemma {:induction false} CollapseSpacesKeeps(s: string)
    ensures NonSpace(CollapseSpaces(s)) == NonSpace(s)
    decreases |s|
  {
    if s != [] {
      if IsSpace(s[0]) {
        var t := TrimStart(s[1..]);
        TrimStartSpec(s[1..]);
        CollapseSpacesKeeps(t);
        assert s[1..] == s[1..][..|s| - 1 - |t|] + t;
        NonSpaceAppend(s[1..][..|s| - 1 - |t|], t);
        NonSpaceOfBlank(s[1..][..|s| - 1 - |t|]);
        assert CollapseSpaces(s) == [' '] + CollapseSpaces(t);
      } else {
        CollapseSpacesKeeps(s[1..]);
        assert CollapseSpaces(s) == [s[0]] + CollapseSpaces(s[1..]);
      }
    }
  }

  /** Removing junk leaves none, and filters the same way whether or not white space is there. */
  lemma RemoveJunkSpec(s: string)
    ensures forall i :: 0 <= i < |RemoveJunk(s)| ==> !IsJunk(RemoveJunk(s)[i]) && RemoveJunk(s)[i] in s
    ensures NonSpace(RemoveJunk(s)) == RemoveJunk(NonSpace(s))
  {
    RemoveJunkKeeps(s);
    RemoveJunkNonSpace(s);
  }

  lemma {:induction false} RemoveJunkKeeps(s: string)
    ensures forall i :: 0 <= i < |RemoveJunk(s)| ==> !IsJunk(RemoveJunk(s)[i]) && RemoveJunk(s)[i] in s
  {
    if s != [] {
      RemoveJunkKeeps(s[1..]);
      var head := if IsJunk(s[0]) then [] else [s[0]];
      assert RemoveJunk(s) == head + RemoveJunk(s[1..]);
      forall i | 0 <= i < |RemoveJunk(s)|
        ensures !IsJunk(RemoveJunk(s)[i]) && RemoveJunk(s)[i] in s
      {
        if i >= |head| {
          assert RemoveJunk(s)[i] == RemoveJunk(s[1..])[i - |head|];
        }
      }
    }
  }

  lemma {:induction false} RemoveJunkNonSpace(s: string)
    ensures NonSpace(RemoveJunk(s)) == RemoveJunk(NonSpace(s))
  {
    if s != [] {
      RemoveJunkNonSpace(s[1..]);
      var head := if IsJunk(s[0]) then [] else [s[0]];
      assert RemoveJunk(s) == head + RemoveJunk(s[1..]);
      NonSpaceAppend(head, RemoveJunk(s[1..]));
      if IsSpace(s[0]) {
        assert NonSpace(s) == NonSpace(s[1..]);
      } else {
        assert NonSpace(s) == [s[0]] + NonSpace(s[1..]);
        assert RemoveJunk(NonSpace(s)) == head + RemoveJunk(NonSpace(s[1..]));
      }
    }
  }

  lemma TrimKeepsNonSpace(s: string)
    ensures NonSpace(Trim(s)) == NonSpace(s)
    ensures forall i :: 0 <= i < |Trim(s)| ==> Trim(s)[i] in s
  {
    TrimNonSpace(s);
    TrimKeeps(s);
  }

  lemma TrimNonSpace(s: string)
    ensures NonSpace(Trim(s)) == NonSpace(s)
  {
    var t := TrimStart(s);
    TrimStartSpec(s);
    TrimEndSpec(t);
    assert s == s[..|s| - |t|] + t;
    NonSpaceAppend(s[..|s| - |t|], t);
    NonSpaceOfBlank(s[..|s| - |t|]);
    var r := TrimEnd(t);
    assert t == r + t[|r|..];
    NonSpaceAppend(r, t[|r|..]);
    NonSpaceOfBlank(t[|r|..]);
  }

  lemma TrimKeeps(s: string)
    ensures forall i :: 0 <= i < |Trim(s)| ==> Trim(s)[i] in s
  {
    var t := TrimStart(s);
    TrimStartSpec(s);
    TrimEndSpec(t);
    var r := TrimEnd(t);
    forall i | 0 <= i < |r|
      ensures r[i] in s
    {
      assert r[i] == s[|s| - |t| + i];
    }
  }

  /** The cleaned text has no junk, no white space but plain spaces, none at either end, and,
      white space aside, holds exactly the input's characters that are not junk, in order. */
  lemma CleanTextSpec(s: string)
    ensures var c := CleanText(s);
      && (forall i :: 0 <= i < |c| ==> !IsJunk(c[i]) && (IsSpace(c[i]) ==> c[i] == ' '))
      && (c == [] || (!IsSpace(c[0]) && !IsSpace(c[|c| - 1])))
      && NonSpace(c) == RemoveJunk(NonSpace(s))
  {
    var a := CollapseSpaces(s);
    var b := RemoveJunk(a);
    var c := Trim(b);
    CollapseSpacesShape(s);
    CollapseSpacesKeeps(s);
    RemoveJunkSpec(a);
    TrimKeepsNonSpace(b);
    TrimSpec(b);
    forall i | 0 <= i < |c|
      ensures !IsJunk(c[i]) && (IsSpace(c[i]) ==> c[i] == ' ')
    {
      assert c[i] in b;
      var j :| 0 <= j < |b| && b[j] == c[i];
      assert b[j] in a;
    }
  }

  // ---------------------------------------------------------------------------
  // Pieces of the patterns
  // ---------------------------------------------------------------------------

  /** The length of the run of white space at `i` (a greedy `\s*`). */
  function SpaceRun(s: string, i: nat): (n: nat)
    requires i <= |s|
    ensures i + n <= |s|
    decreases |s| - i
  {
    if i < |s| && IsSpace(s[i]) then 1 + SpaceRun(s, i + 1) else 0
  }

  /** The length of the run of ASCII letters at `i` (a greedy `[a-z]+` under the `i` flag). */
  function LetterRun(s: string, i: nat): (n: nat)
    requires i <= |s|
    ensures i + n <= |s|
    decreases |s| - i
  {
    if i < |s| && IsAsciiLetter(s[i]) then 1 + LetterRun(s, i + 1) else 0
  }

  /** What `(\d{1,2})` takes at `i` when a non-digit must follow: two digits if there are two;
      a longer run fails on what follows. */
  function Digits12(s: string, i: nat): (n: nat)
    requires i <= |s|
    ensures n <= 2 && i + n <= |s|
  {
    var r := DigitRun(s, i);
    if r < 2 then r else 2
  }

  /** The number a run of digits reads as. */
  function Value(s: string, i: nat, j: nat): nat
    requires i <= j <= |s|
  {
    DigitsValue(s[i..j])
  }

  predicate IsDateSep(c: char) {
    c == '/' || c == '-'
  }

  /** `text.substring(p, p + w)`. */
  function Window(s: string, p: nat, w: nat): string {
    if p >= |s| then [] else if p + w <= |s| then s[p..p + w] else s[p..]
  }

  // ---------------------------------------------------------------------------
  // Folio: /Folio.*?(\d{4,})/i
  // ---------------------------------------------------------------------------

  const NO_FOLIO_OCR: string := "S/N (OCR)"

  /** `\d{4,}` at `q`: a run of at least four digits, all of which it takes. */
  function LongDigitsMatch(s: string, q: nat): (r: Option<Hit<string>>)
    ensures r.Some? ==> r.value.start == q < r.value.end <= |s|
  {
    if q <= |s| && DigitRun(s, q) >= 4 then Some(Hit(q, q + DigitRun(s, q), s[q..q + DigitRun(s, q)]))
    else None
  }

  function LongDigitsAt(s: string): nat -> Option<Hit<string>> {
    (q: nat) => LongDigitsMatch(s, q)
  }

  /** "folio" in any case at `p`, then the lazy `.*?` stops at the first run of four digits. */
  function FolioMatch(s: string, p: nat): (r: Option<Hit<string>>)
    ensures r.Some? ==> r.value.start == p < r.value.end <= |s|
  {
    if !MatchesAt(s, p, "folio") then None
    else
      match Next(LongDigitsAt(s), |s|, p + 5)
      case None => None
      case Some(q) => Some(Hit(p, LongDigitsMatch(s, q).value.end, LongDigitsMatch(s, q).value.data))
  }

  function FolioAt(s: string): nat -> Option<Hit<string>> {
    (p: nat) => FolioMatch(s, p)
  }

  lemma FolioMatcher(s: string)
    ensures Matcher(FolioAt(s), |s|) && Matcher(LongDigitsAt(s), |s|)
  {
  }

  /** `cleanText.match(/Folio.*?(\d{4,})/i)[1]`: the digits the search captured, if it matched. */
  function FolioSearch(s: string): Option<string> {
    FolioMatcher(s);
    match First(FolioAt(s), |s|)
    case Some(h) => Some(h.data)
    case None => None
  }

  /** The folio: the digits captured, or 'S/N (OCR)'. */
  function FolioOf(s: string): string {
    FolioSearch(s).GetOr(NO_FOLIO_OCR)
  }

  /** `p` is the first "folio" of the text, in any case, and `q` the first position after it where
      four digits start. */
  ghost predicate FirstFolioRun(s: string, p: nat, q: nat) {
    && MatchesAt(s, p, "folio") && (forall p': nat :: p' < p ==> !MatchesAt(s, p', "folio"))
    && p + 5 <= q <= |s| && DigitRun(s, q) >= 4
    && (forall q': nat :: p + 5 <= q' < q ==> DigitRun(s, q') < 4)
  }

  /** The search fails exactly when no "folio", in any case, is followed somewhere after it by
      four digits. */
  lemma FolioMissing(s: string)
    ensures FolioSearch(s).None? <==>
      forall p: nat, q: nat :: MatchesAt(s, p, "folio") && p + 5 <= q <= |s| ==> DigitRun(s, q) < 4
  {
    if FolioSearch(s).Some? {
      var p, q := FolioFoundAt(s);
    } else {
      FolioNowhere(s);
    }
  }

  /** Where a folio is found: after the first "folio" of the text, the first run of four digits,
      taken whole. */
  lemma FolioFoundAt(s: string) returns (p: nat, q: nat)
    requires FolioSearch(s).Some?
    ensures FirstFolioRun(s, p, q)
    ensures FolioSearch(s).value == s[q..q + DigitRun(s, q)]
  {
    FolioMatcher(s);
    var f := First(FolioAt(s), |s|);
    p := f.value.start;
    assert FolioMatch(s, p) == f;
    q := FolioRunAfter(s, p);
    NoEarlierFolio(s, p, q);
  }

  /** Within a match at `p`, the lazy `.*?` stops at the first run of four digits. */
  lemma FolioRunAfter(s: string, p: nat) returns (q: nat)
    requires FolioMatch(s, p).Some?
    ensures MatchesAt(s, p, "folio") && p + 5 <= q <= |s| && DigitRun(s, q) >= 4
    ensures forall q': nat :: p + 5 <= q' < q ==> DigitRun(s, q') < 4
    ensures FolioMatch(s, p).value.data == s[q..q + DigitRun(s, q)]
  {
    q := Next(LongDigitsAt(s), |s|, p + 5).value;
    NextSpec(LongDigitsAt(s), |s|, p + 5);
    assert LongDigitsAt(s)(q).Some?;
    forall q': nat | p + 5 <= q' < q
      ensures DigitRun(s, q') < 4
    {
      assert LongDigitsAt(s)(q').None?;
    }
  }

  /** The search's match starts at the first "folio" of the text. */
  lemma NoEarlierFolio(s: string, p: nat, q: nat)
    requires Matcher(FolioAt(s), |s|) && First(FolioAt(s), |s|).Some?
    requires p == First(FolioAt(s), |s|).value.start
    requires p + 5 <= q <= |s| && DigitRun(s, q) >= 4
    ensures forall p': nat :: p' < p ==> !MatchesAt(s, p', "folio")
  {
    FirstSpec(FolioAt(s), |s|);
    forall p': nat | p' < p
      ensures !MatchesAt(s, p', "folio")
    {
      assert FolioAt(s)(p').None?;
      EarlierFolioMatches(s, p', q);
    }
  }

  /** A "folio" followed somewhere by four digits starts a match. */
  lemma EarlierFolioMatches(s: string, p: nat, q: nat)
    requires p + 5 <= q <= |s| && DigitRun(s, q) >= 4
    ensures MatchesAt(s, p, "folio") ==> FolioMatch(s, p).Some?
  {
    NextSpec(LongDigitsAt(s), |s|, p + 5);
    assert LongDigitsAt(s)(q).Some?;
  }

  lemma FolioNowhere(s: string)
    requires FolioSearch(s).None?
    ensures forall p: nat, q: nat :: MatchesAt(s, p, "folio") && p + 5 <= q <= |s| ==> DigitRun(s, q) < 4
  {
    FolioMatcher(s);
    FirstSpec(FolioAt(s), |s|);
    forall p: nat, q: nat | MatchesAt(s, p, "folio") && p + 5 <= q <= |s|
      ensures DigitRun(s, q) < 4
    {
      assert FolioAt(s)(p).None?;
      NextSpec(LongDigitsAt(s), |s|, p + 5);
      if q < |s| {
        assert LongDigitsAt(s)(q).None?;
      }
    }
  }

  /** A folio found is four or more digits, so it is never 'S/N (OCR)', which is thus the folio
      exactly when the search fails; any other folio is the first run after the first "folio". */
  lemma FolioDigits(s: string)
    ensures FolioSearch(s).Some? ==>
      var d := FolioSearch(s).value;
      |d| >= 4 && (forall k :: 0 <= k < |d| ==> IsDigit(d[k]))
    ensures FolioOf(s) == NO_FOLIO_OCR <==> FolioSearch(s).None?
    ensures FolioOf(s) != NO_FOLIO_OCR ==>
      exists p: nat, q: nat :: FirstFolioRun(s, p, q) && FolioOf(s) == s[q..q + DigitRun(s, q)]
  {
    if FolioSearch(s).Some? {
      var p, q := FolioFoundAt(s);
      DigitRunMaximal(s, q);
      var d := FolioSearch(s).value;
      assert d[0] == s[q];
      assert d[0] != NO_FOLIO_OCR[0];
      assert FirstFolioRun(s, p, q) && FolioOf(s) == s[q..q + DigitRun(s, q)];
    }
  }

  /** A folio found is a maximal run of digits of the text: a non-digit comes before it, and a
      non-digit or the end after it. */
  lemma FolioRun(s: string) returns (q: nat)
    requires FolioSearch(s).Some?
    ensures 0 < q <= |s| && !IsDigit(s[q - 1]) && DigitRun(s, q) >= 4
    ensures q + DigitRun(s, q) == |s| || !IsDigit(s[q + DigitRun(s, q)])
    ensures FolioSearch(s).value == s[q..q + DigitRun(s, q)]
  {
    var p;
    p, q := FolioFoundAt(s);
    DigitRunMaximal(s, q);
    if q - 1 >= p + 5 {
      assert DigitRun(s, q - 1) < 4;
    } else {
      assert LowerAscii(s[p + 4]) == "folio"[4];
    }
  }

  // ---------------------------------------------------------------------------
  // Op DE-100 log lines:
  // /Op\s*DE[-_]?100\s*[:\.]?\s*(\d{1,2})[\/-](\d{1,2})[\/-](\d{4})/gi
  // ---------------------------------------------------------------------------

  datatype DateParts = DateParts(day: nat, month: nat, year: nat)

  function OpMatch(s: string, p: nat): (r: Option<Hit<DateParts>>)
    ensures r.Some? ==> r.value.start == p < r.value.end <= |s|
  {
    if !MatchesAt(s, p, "op") then None
    else
      var a := p + 2 + SpaceRun(s, p + 2);
      if !MatchesAt(s, a, "de") then None
      else
        var b := if a + 2 < |s| && (s[a + 2] == '-' || s[a + 2] == '_') then a + 3 else a + 2;
        if !MatchesAt(s, b, "100") then None
        else
          var c0 := b + 3 + SpaceRun(s, b + 3);
          var c1 := if c0 < |s| && (s[c0] == ':' || s[c0] == '.') then c0 + 1 else c0;
          var d := c1 + SpaceRun(s, c1);
          var dl := Digits12(s, d);
          if dl == 0 || d + dl >= |s| || !IsDateSep(s[d + dl]) then None
          else
            var m := d + dl + 1;
            var ml := Digits12(s, m);
            if ml == 0 || m + ml >= |s| || !IsDateSep(s[m + ml]) then None
            else
              var y := m + ml + 1;
              if DigitRun(s, y) < 4 then None
              else Some(Hit(p, y + 4, DateParts(Value(s, d, d + dl), Value(s, m, m + ml), Value(s, y, y + 4))))
  }

  function OpAt(s: string): nat -> Option<Hit<DateParts>> {
    (p: nat) => OpMatch(s, p)
  }

  /** A time of day as the search `(\d{1,2}):(\d{2}):(\d{2})` reads it. */
  datatype Clock = Clock(hour: nat, minute: nat, second: nat)

  /** 12:00:00, MakeTime(12, 0, 0), the time the Op DE-100 dates get when none is read. */
  const NOON: int := 43200000

  function ClockMatch(c: string, t: nat): (r: Option<Hit<Clock>>)
    ensures r.Some? ==> r.value.start == t < r.value.end <= |c|
  {
    if t > |c| then None
    else
      var k := Digits12(c, t);
      if k == 0 || t + k + 6 > |c| || c[t + k] != ':' || !IsDigit(c[t + k + 1]) || !IsDigit(c[t + k + 2])
         || c[t + k + 3] != ':' || !IsDigit(c[t + k + 4]) || !IsDigit(c[t + k + 5]) then None
      else Some(Hit(t, t + k + 6, Clock(Value(c, t, t + k), Value(c, t + k + 1, t + k + 3), Value(c, t + k + 4, t + k + 6))))
  }

  function ClockAt(c: string): nat -> Option<Hit<Clock>> {
    (t: nat) => ClockMatch(c, t)
  }

  /** The first time of day within the fifty characters from `p`. */
  function ClockNear(s: string, p: nat): Option<Clock> {
    var c := Window(s, p, 50);
    assert Matcher(ClockAt(c), |c|);
    match First(ClockAt(c), |c|)
    case Some(h) => Some(h.data)
    case None => None
  }

  /** The time of day of an Op DE-100 date: the one read near it, else noon. */
  function TimeOfDay(clock: Option<Clock>): int {
    match clock
    case Some(c) => MakeTime(c.hour, c.minute, c.second)
    case None => NOON
  }

  /** `new Date(year, month - 1, day, h, m, s)`. */
  function OpTarget(s: string, h: Hit<DateParts>): int {
    LocalTime(h.data.year, h.data.month - 1, h.data.day, TimeOfDay(ClockNear(s, h.start)))
  }

  lemma OpMatcher(s: string)
    ensures Matcher(OpAt(s), |s|)
  {
  }

  /** The Op DE-100 lines of the text, in order. */
  function OpHits(s: string): seq<Hit<DateParts>> {
    OpMatcher(s);
    Scan(OpAt(s), |s|, 0)
  }

  /** The body of the Op DE-100 loop: a date for every line. */
  function OpPush(s: string): Hit<DateParts> -> Option<int> {
    h => Some(OpTarget(s, h))
  }

  /** The dates the Op DE-100 loop pushes. */
  function OpTargets(s: string): seq<int> {
    OpMatcher(s);
    Gathered(OpAt(s), |s|, OpPush(s))
  }

  /** One date per Op DE-100 line, in order: the k-th date is the one the k-th line names. */
  lemma OpTargetsSpec(s: string)
    ensures |OpTargets(s)| == |OpHits(s)|
    ensures forall k :: 0 <= k < |OpHits(s)| ==> OpTargets(s)[k] == OpTarget(s, OpHits(s)[k])
  {
    OpMatcher(s);
    GatheredAll(OpAt(s), |s|, OpPush(s));
  }

  /** A line's date falls on the day it names, carried forward by whole days when the time of
      day read near it is 24 hours or more. */
  lemma OpTargetDay(s: string, h: Hit<DateParts>)
    ensures DayNumber(OpTarget(s, h))
      == MakeDay(FullYear(h.data.year), h.data.month - 1, h.data.day) + TimeOfDay(ClockNear(s, h.start)) / 86400000
  {
    var t := TimeOfDay(ClockNear(s, h.start));
    assert OpTarget(s, h) == LocalTime(h.data.year, h.data.month - 1, h.data.day, t);
    DayOfLocalTime(h.data.year, h.data.month - 1, h.data.day, t);
  }

  /** With no time of day near it, a line's date is noon of the day it names. */
  lemma OpTargetAtNoon(s: string, h: Hit<DateParts>)
    requires ClockNear(s, h.start).None?
    ensures DayNumber(OpTarget(s, h)) == MakeDay(FullYear(h.data.year), h.data.month - 1, h.data.day)
    ensures OpTarget(s, h) % 86400000 == NOON
  {
    DayOfLocalTime(h.data.year, h.data.month - 1, h.data.day, NOON);
  }

  /** The search for a time of day fails exactly when none starts within the fifty characters;
      otherwise it reads the leftmost one there. */
  lemma ClockNearSpec(s: string, p: nat)
    ensures var c := Window(s, p, 50);
      ClockNear(s, p).None? <==> forall t :: 0 <= t < |c| ==> ClockMatch(c, t).None?
    ensures var c := Window(s, p, 50);
      ClockNear(s, p).Some? ==>
        exists t: nat :: t < |c| && ClockMatch(c, t).Some? && ClockNear(s, p).value == ClockMatch(c, t).value.data
          && forall t': nat :: t' < t ==> ClockMatch(c, t').None?
  {
    var c := Window(s, p, 50);
    assert Matcher(ClockAt(c), |c|);
    FirstSpec(ClockAt(c), |c|);
    assert forall t: nat :: ClockAt(c)(t) == ClockMatch(c, t);
    var f := First(ClockAt(c), |c|);
    if f.Some? {
      assert ClockMatch(c, f.value.start) == f;
    }
  }


  // ---------------------------------------------------------------------------
  // Verbal dates: /d[ií]a\s+(\d{1,2})\s+del?\s+mes\s+de\s+([a-z]+)/gi
  // ---------------------------------------------------------------------------

  datatype VerbalDate = VerbalDate(day: nat, monthName: string)

  predicate IsI(c: char) {
    c == 'i' || c == 'I' || c == '\U{ED}' || c == '\U{CD}'
  }

  function VerbalMatch(s: string, p: nat): (r: Option<Hit<VerbalDate>>)
    ensures r.Some? ==> r.value.start == p < r.value.end <= |s|
  {
    if !(p + 3 <= |s| && LowerAscii(s[p]) == 'd' && IsI(s[p + 1]) && LowerAscii(s[p + 2]) == 'a') then None
    else
      var sa := SpaceRun(s, p + 3);
      var d := p + 3 + sa;
      var dl := Digits12(s, d);
      if sa == 0 || dl == 0 then None
      else
        var b := d + dl;
        var sb := SpaceRun(s, b);
        if sb == 0 || !MatchesAt(s, b + sb, "de") then None
        else
          var e := b + sb + 2;
          var e' := if e < |s| && LowerAscii(s[e]) == 'l' then e + 1 else e;
          var se := SpaceRun(s, e');
          if se == 0 || !MatchesAt(s, e' + se, "mes") then None
          else
            var f := e' + se + 3;
            var sf := SpaceRun(s, f);
            if sf == 0 || !MatchesAt(s, f + sf, "de") then None
            else
              var g := f + sf + 2;
              var sg := SpaceRun(s, g);
              var w := g + sg;
              var wl := LetterRun(s, w);
              if sg == 0 || wl == 0 then None
              else Some(Hit(p, w + wl, VerbalDate(Value(s, d, d + dl), ToLowerAscii(s[w..w + wl]))))
  }

  function VerbalAt(s: string): nat -> Option<Hit<VerbalDate>> {
    (p: nat) => VerbalMatch(s, p)
  }

  lemma VerbalMatcher(s: string)
    ensures Matcher(VerbalAt(s), |s|)
  {
  }

  /** MONTH_MAP: the Spanish month names, counted from 0. */
  function MonthIndex(name: string): (r: Option<nat>)
    ensures r.Some? ==> r.value < 12
  {
    if name == "enero" then Some(0) else if name == "febrero" then Some(1)
    else if name == "marzo" then Some(2) else if name == "abril" then Some(3)
    else if name == "mayo" then Some(4) else if name == "junio" then Some(5)
    else if name == "julio" then Some(6) else if name == "agosto" then Some(7)
    else if name == "septiembre" then Some(8) else if name == "octubre" then Some(9)
    else if name == "noviembre" then Some(10) else if name == "diciembre" then Some(11)
    else None
  }

  /** `/20\d{2}/` at `t`. */
  function YearMatch(c: string, t: nat): (r: Option<Hit<nat>>)
    ensures r.Some? ==> r.value.start == t < r.value.end <= |c|
  {
    if t + 4 <= |c| && c[t] == '2' && c[t + 1] == '0' && IsDigit(c[t + 2]) && IsDigit(c[t + 3])
    then Some(Hit(t, t + 4, Value(c, t, t + 4)))
    else None
  }

  function YearAt(c: string): nat -> Option<Hit<nat>> {
    (t: nat) => YearMatch(c, t)
  }

  /** `c.match(/20\d{2}/)`: the first year 20xx in `c`. */
  function FirstYear(c: string): Option<nat> {
    assert Matcher(YearAt(c), |c|);
    match First(YearAt(c), |c|)
    case Some(h) => Some(h.data)
    case None => None
  }

  /** The first year 20xx within the hundred characters from `p`, else the current year. */
  function YearNear(s: string, p: nat, currentYear: int): int {
    match FirstYear(Window(s, p, 100))
    case Some(y) => y
    case None => currentYear
  }

  /** Four digits read as a number in base ten. */
  lemma DigitsValueOfFour(d: string)
    requires |d| == 4
    ensures DigitsValue(d) == DigitValue(d[0]) * 1000 + DigitValue(d[1]) * 100 + DigitValue(d[2]) * 10 + DigitValue(d[3])
  {
    var d1, d2, d3 := d[..1], d[..2], d[..3];
    assert d3[..2] == d2 && d2[..1] == d1 && d1[..0] == [];
    assert DigitsValue(d1) == DigitValue(d[0]);
    assert DigitsValue(d2) == DigitValue(d[0]) * 10 + DigitValue(d[1]);
    assert DigitsValue(d3) == DigitValue(d[0]) * 100 + DigitValue(d[1]) * 10 + DigitValue(d[2]);
  }

  /** `/20\d{2}/` reads a year from 2000 to 2099. */
  lemma YearMatchRange(c: string, t: nat)
    requires YearMatch(c, t).Some?
    ensures 2000 <= YearMatch(c, t).value.data <= 2099
  {
    var d := c[t..t + 4];
    DigitsValueOfFour(d);
    assert DigitValue(d[0]) == 2 && DigitValue(d[1]) == 0;
    assert DigitValue(d[2]) <= 9 && DigitValue(d[3]) <= 9;
  }

  /** The search finds no year exactly when nothing matches; otherwise the year it finds is the
      one read at the leftmost match, one of 2000 to 2099. */
  lemma FirstYearSpec(c: string)
    ensures FirstYear(c).None? <==> forall t :: 0 <= t < |c| ==> YearMatch(c, t).None?
    ensures FirstYear(c).Some? ==>
      exists t: nat :: t < |c| && YearMatch(c, t).Some? && FirstYear(c).value == YearMatch(c, t).value.data
        && forall t': nat :: t' < t ==> YearMatch(c, t').None?
    ensures FirstYear(c).Some? ==> 2000 <= FirstYear(c).value <= 2099
  {
    assert Matcher(YearAt(c), |c|);
    FirstSpec(YearAt(c), |c|);
    assert forall t: nat :: YearAt(c)(t) == YearMatch(c, t);
    var f := First(YearAt(c), |c|);
    if f.Some? {
      assert YearMatch(c, f.value.start) == f;
      YearMatchRange(c, f.value.start);
    }
  }

  /** The year of a verbal date is the current year only when no year 20xx is written within the
      hundred characters from it; otherwise it is the leftmost such year there, one of 2000 to 2099. */
  lemma YearNearSpec(s: string, p: nat, currentYear: int)
    ensures (forall t :: 0 <= t < |Window(s, p, 100)| ==> YearMatch(Window(s, p, 100), t).None?) ==>
      YearNear(s, p, currentYear) == currentYear
    ensures var c := Window(s, p, 100);
      (exists t :: 0 <= t < |c| && YearMatch(c, t).Some?) ==>
        exists t: nat :: t < |c| && YearMatch(c, t).Some? && YearNear(s, p, currentYear) == YearMatch(c, t).value.data
          && forall t': nat :: t' < t ==> YearMatch(c, t').None?
    ensures (exists t :: 0 <= t < |Window(s, p, 100)| && YearMatch(Window(s, p, 100), t).Some?) ==>
      2000 <= YearNear(s, p, currentYear) <= 2099
  {
    FirstYearSpec(Window(s, p, 100));
  }

  /** `new Date(year, MONTH_MAP[monthName], day)`, or nothing for a month name not in the map. */
  function VerbalTarget(s: string, currentYear: int, h: Hit<VerbalDate>): Option<int> {
    match MonthIndex(h.data.monthName)
    case None => None
    case Some(month) => Some(Midnight(YearNear(s, h.start, currentYear), month, h.data.day))
  }

  /** The verbal dates of the text, in order. */
  function VerbalHits(s: string): seq<Hit<VerbalDate>> {
    VerbalMatcher(s);
    Scan(VerbalAt(s), |s|, 0)
  }

  /** The body of the verbal-date loop: a date when the month name is in the map. */
  function VerbalPush(s: string, currentYear: int): Hit<VerbalDate> -> Option<int> {
    h => VerbalTarget(s, currentYear, h)
  }

  /** The dates the verbal-date loop pushes. */
  function VerbalTargets(s: string, currentYear: int): seq<int> {
    VerbalMatcher(s);
    Gathered(VerbalAt(s), |s|, VerbalPush(s, currentYear))
  }

  /** Every verbal date whose month name is in the map gives midnight of the day it names, in the
      year found near it. */
  lemma VerbalTargetsSpec(s: string, currentYear: int, k: nat)
    requires k < |VerbalHits(s)|
    ensures var h := VerbalHits(s)[k];
      MonthIndex(h.data.monthName).Some? ==>
        Midnight(YearNear(s, h.start, currentYear), MonthIndex(h.data.monthName).value, h.data.day)
          in VerbalTargets(s, currentYear)
  {
    VerbalMatcher(s);
    var h := VerbalHits(s)[k];
    if MonthIndex(h.data.monthName).Some? {
      GatheredHas(VerbalAt(s), |s|, VerbalPush(s, currentYear), k);
    }
  }

  /** Each verbal date given comes from a match whose month name is in the map. */
  lemma VerbalTargetFrom(s: string, currentYear: int, t: int) returns (k: nat)
    requires t in VerbalTargets(s, currentYear)
    ensures k < |VerbalHits(s)|
    ensures var h := VerbalHits(s)[k];
      && MonthIndex(h.data.monthName).Some?
      && t == Midnight(YearNear(s, h.start, currentYear), MonthIndex(h.data.monthName).value, h.data.day)
  {
    VerbalMatcher(s);
    k := GatheredFrom(VerbalAt(s), |s|, VerbalPush(s, currentYear), t);
  }

  // ---------------------------------------------------------------------------
  // Simple dates: /(\d{1,2})\s*[\/-]\s*(\d{1,2})\s*[\/-]\s*(\d{4})/g
  // ---------------------------------------------------------------------------

  /** Simple dates count only after this year. */
  const SIMPLE_MIN_YEAR: nat := 2020

  function SimpleMatch(s: string, p: nat): (r: Option<Hit<DateParts>>)
    ensures r.Some? ==> r.value.start == p < r.value.end <= |s|
  {
    if p > |s| then None
    else
      var dl := Digits12(s, p);
      if dl == 0 then None
      else
        var a := p + dl + SpaceRun(s, p + dl);
        if a >= |s| || !IsDateSep(s[a]) then None
        else
          var m := a + 1 + SpaceRun(s, a + 1);
          var ml := Digits12(s, m);
          if ml == 0 then None
          else
            var b := m + ml + SpaceRun(s, m + ml);
            if b >= |s| || !IsDateSep(s[b]) then None
            else
              var y := b + 1 + SpaceRun(s, b + 1);
              if DigitRun(s, y) < 4 then None
              else Some(Hit(p, y + 4, DateParts(Value(s, p, p + dl), Value(s, m, m + ml), Value(s, y, y + 4))))
  }

  function SimpleAt(s: string): nat -> Option<Hit<DateParts>> {
    (p: nat) => SimpleMatch(s, p)
  }

  lemma SimpleMatcher(s: string)
    ensures Matcher(SimpleAt(s), |s|)
  {
  }

  /** `new Date(year, month - 1, day)` for a year after 2020, or nothing. */
  function SimpleTarget(h: Hit<DateParts>): Option<int> {
    if h.data.year > SIMPLE_MIN_YEAR then Some(Midnight(h.data.year, h.data.month - 1, h.data.day))
    else None
  }

  /** The simple dates of the text, in order. */
  function SimpleHits(s: string): seq<Hit<DateParts>> {
    SimpleMatcher(s);
    Scan(SimpleAt(s), |s|, 0)
  }

  /** The body of the simple-date loop. */
  function SimplePush(): Hit<DateParts> -> Option<int> {
    h => SimpleTarget(h)
  }

  /** The dates the simple-date loop pushes. */
  function SimpleTargets(s: string): seq<int> {
    SimpleMatcher(s);
    Gathered(SimpleAt(s), |s|, SimplePush())
  }

  /** A simple date whose year is after 2020 gives midnight of the day it names. */
  lemma SimpleTargetsSpec(s: string, k: nat)
    requires k < |SimpleHits(s)|
    ensures var h := SimpleHits(s)[k];
      h.data.year > SIMPLE_MIN_YEAR ==> Midnight(h.data.year, h.data.month - 1, h.data.day) in SimpleTargets(s)
  {
    var h := SimpleHits(s)[k];
    if h.data.year > SIMPLE_MIN_YEAR {
      SimpleTargetOf(h);
      SimpleHitHas(s, k);
    }
  }

  lemma SimpleHitHas(s: string, k: nat)
    requires k < |SimpleHits(s)| && SimpleTarget(SimpleHits(s)[k]).Some?
    ensures SimpleTarget(SimpleHits(s)[k]).value in SimpleTargets(s)
  {
    SimpleMatcher(s);
    GatheredHas(SimpleAt(s), |s|, SimplePush(), k);
  }

  lemma SimpleTargetOf(h: Hit<DateParts>)
    requires h.data.year > SIMPLE_MIN_YEAR
    ensures SimpleTarget(h) == Some(Midnight(h.data.year, h.data.month - 1, h.data.day))
  {
  }

  /** Each simple date given comes from a match whose year is after 2020. */
  lemma SimpleTargetFrom(s: string, t: int) returns (k: nat)
    requires t in SimpleTargets(s)
    ensures k < |SimpleHits(s)|
    ensures var h := SimpleHits(s)[k];
      h.data.year > SIMPLE_MIN_YEAR && t == Midnight(h.data.year, h.data.month - 1, h.data.day)
  {
    k := SimpleHitOf(s, t);
    SimpleTargetValue(SimpleHits(s)[k], t);
  }

  lemma SimpleHitOf(s: string, t: int) returns (k: nat)
    requires t in SimpleTargets(s)
    ensures k < |SimpleHits(s)| && SimpleTarget(SimpleHits(s)[k]) == Some(t)
  {
    SimpleMatcher(s);
    k := GatheredFrom(SimpleAt(s), |s|, SimplePush(), t);
  }

  lemma SimpleTargetValue(h: Hit<DateParts>, t: int)
    requires SimpleTarget(h) == Some(t)
    ensures h.data.year > SIMPLE_MIN_YEAR && t == Midnight(h.data.year, h.data.month - 1, h.data.day)
  {
  }

  // ---------------------------------------------------------------------------
  // The text stage
  // ---------------------------------------------------------------------------

  /** What the certificate reading hands on: the folio, the cleaned text and the dates found. */
  datatype IncidenceData = IncidenceData(folio: string, debugText: string, targets: seq<int>)

  /** The three `exec` loops of `parseIncidencePDF` on the cleaned text: the Op DE-100 dates,
      then the verbal dates, and the simple dates only when neither gave any. */
  method ReadTargets(s: string, currentYear: int) returns (targets: seq<int>)
    ensures OpTargets(s) + VerbalTargets(s, currentYear) != [] ==>
      targets == OpTargets(s) + VerbalTargets(s, currentYear)
    ensures OpTargets(s) + VerbalTargets(s, currentYear) == [] ==> targets == SimpleTargets(s)
  {
    OpMatcher(s);
    VerbalMatcher(s);
    var op := Gather(OpAt(s), |s|, OpPush(s), []);
    assert op == OpTargets(s);
    targets := Gather(VerbalAt(s), |s|, VerbalPush(s, currentYear), op);
    if |targets| == 0 {
      SimpleMatcher(s);
      var simple := Gather(SimpleAt(s), |s|, SimplePush(), targets);
      assert simple == SimpleTargets(s);
      targets := simple;
    }
  }

  /** The text stage of `parseIncidencePDF`, from the recognised text. */
  method ReadIncidence(fullText: string, currentYear: int) returns (data: IncidenceData)
    ensures data.debugText == CleanText(fullText)
    ensures data.folio == FolioOf(CleanText(fullText))
    ensures var clean := CleanText(fullText);
      && (OpTargets(clean) + VerbalTargets(clean, currentYear) != [] ==>
            data.targets == OpTargets(clean) + VerbalTargets(clean, currentYear))
      && (OpTargets(clean) + VerbalTargets(clean, currentYear) == [] ==> data.targets == SimpleTargets(clean))
  {
    var clean := CleanText(fullText);
    var targets := ReadTargets(clean, currentYear);
    data := IncidenceData(FolioOf(clean), clean, targets);
  }

  // ---------------------------------------------------------------------------
  // analyzeDiscrepancy
  // ---------------------------------------------------------------------------

  /** Texts shorter than this count as unreadable. */
  const MIN_TEXT_LENGTH: nat := 20
  const NO_FOLIO: string := "S/N"
  const OCR_EMPTY: string := "OCR vacío."

  /** The conclusion, in place of its text: which case applied, and the date it mentions. */
  datatype Verdict = OcrFailed | NoDates | Confirmed(date: int) | NoMatchOn(date: int)

  datatype Discrepancy = Discrepancy(isMatchFound: bool, matchedLog: Option<ErrorRecord>, folio: string,
                                     conclusion: Verdict, debugText: string)

  /** The log's time and the target fall on the same date, month and year; an invalid time falls
      on no date. */
  predicate SameDay(target: int, log: ErrorRecord) {
    DateValue(target).Some? && DateValue(log.timestamp).Some?
    && DayNumber(target) == DayNumber(log.timestamp)
  }

  ghost predicate HasSameDay(logs: seq<ErrorRecord>, target: int) {
    exists j :: 0 <= j < |logs| && SameDay(target, logs[j])
  }

  ghost predicate FirstSameDay(logs: seq<ErrorRecord>, target: int, x: ErrorRecord) {
    exists j :: 0 <= j < |logs| && logs[j] == x && SameDay(target, x)
      && forall k :: 0 <= k < j ==> !SameDay(target, logs[k])
  }

  /** `errorLogs.find(...)` for one target date. */
  method FindSameDay(logs: seq<ErrorRecord>, target: int) returns (r: Option<ErrorRecord>)
    ensures r.None? <==> !HasSameDay(logs, target)
    ensures r.Some? ==> FirstSameDay(logs, target, r.value)
    ensures r.Some? ==> -MAX_TIME <= r.value.timestamp <= MAX_TIME && DayNumber(r.value.timestamp) == DayNumber(target)
    ensures !(-MAX_TIME <= target <= MAX_TIME) ==> r.None?
  {
    var j := 0;
    while j < |logs|
      invariant j <= |logs|
      invariant forall k :: 0 <= k < j ==> !SameDay(target, logs[k])
    {
      var logDate := DateValue(logs[j].timestamp);
      if DateValue(target).Some? && logDate.Some? && DayNumber(target) == DayNumber(logDate.value) {
        return Some(logs[j]);
      }
      j := j + 1;
    }
    return None;
  }

  /** `analyzeDiscrepancy`: unreadable text and texts without dates end early; otherwise the
      first date, in order, that shares its day with an error log decides, with the first such log. */
  method AnalyzeDiscrepancy(pdf: Option<IncidenceData>, errors: seq<ErrorRecord>) returns (r: Discrepancy)
    ensures pdf.None? || |pdf.value.debugText| < MIN_TEXT_LENGTH ==>
      r == Discrepancy(false, None, NO_FOLIO, OcrFailed, OCR_EMPTY)
    ensures pdf.Some? && |pdf.value.debugText| >= MIN_TEXT_LENGTH && pdf.value.targets == [] ==>
      r == Discrepancy(false, None, pdf.value.folio, NoDates, pdf.value.debugText)
    ensures pdf.Some? && |pdf.value.debugText| >= MIN_TEXT_LENGTH && pdf.value.targets != [] ==>
      var ts := pdf.value.targets;
      && r.folio == pdf.value.folio && r.debugText == pdf.value.debugText
      && (r.isMatchFound <==> exists i :: 0 <= i < |ts| && HasSameDay(errors, ts[i]))
      && (r.isMatchFound ==>
            exists i :: 0 <= i < |ts| && (forall k :: 0 <= k < i ==> !HasSameDay(errors, ts[k]))
              && r.conclusion == Confirmed(ts[i]) && r.matchedLog.Some?
              && FirstSameDay(errors, ts[i], r.matchedLog.value))
      && (!r.isMatchFound ==> r.matchedLog.None? && r.conclusion == NoMatchOn(ts[0]))
  {
    if pdf.None? || pdf.value.debugText == "" || |pdf.value.debugText| < MIN_TEXT_LENGTH {
      return Discrepancy(false, None, NO_FOLIO, OcrFailed, OCR_EMPTY);
    }
    var data := pdf.value;
    if |data.targets| == 0 {
      return Discrepancy(false, None, data.folio, NoDates, data.debugText);
    }
    var i := 0;
    while i < |data.targets|
      invariant i <= |data.targets|
      invariant forall k :: 0 <= k < i ==> !HasSameDay(errors, data.targets[k])
    {
      var matchingError := FindSameDay(errors, data.targets[i]);
      if matchingError.Some? {
        return Discrepancy(true, matchingError, data.folio, Confirmed(data.targets[i]), data.debugText);
      }
      i := i + 1;
    }
    return Discrepancy(false, None, data.folio, NoMatchOn(data.targets[0]), data.debugText);
  }
}
