/**
  * The parts of Python's string handling that the solvers rely on: character
  * classes, `int()`, `str.split()`, `str.split(sep)`, `str.splitlines()` and
  * the regular expression `\d+` scanned left to right (`re.search`,
  * `re.finditer`). Character classes are those of ASCII digits; everything
  * else is stated over plain `seq<char>`.
  */
module Text {
  import opened Outcomes

  // ----------------------------------------------------------------------
  // Character classes
  // ----------------------------------------------------------------------

  /** The ASCII digits `0-9`. */
  predicate IsDigit(c: char) { '0' <= c <= '9' }

  /** Python's `str.isspace()`: the separators of `str.split()` without arguments. */
  predicate IsSpace(c: char) {
    var n := c as int;
    n == 0x20 || 0x09 <= n <= 0x0D || 0x1C <= n <= 0x1F || n == 0x85 || n == 0xA0
    || n == 0x1680 || 0x2000 <= n <= 0x200A || n == 0x2028 || n == 0x2029
    || n == 0x202F || n == 0x205F || n == 0x3000
  }

  predicate NotSpace(c: char) { !IsSpace(c) }

  /** The line boundaries of Python's `str.splitlines()` (`\r\n` counts as one). */
  predicate IsLineBreak(c: char) {
    var n := c as int;
    n == 0x0A || n == 0x0B || n == 0x0C || n == 0x0D || 0x1C <= n <= 0x1E
    || n == 0x85 || n == 0x2028 || n == 0x2029
  }

  predicate NotLineBreak(c: char) { !IsLineBreak(c) }

  function DigitValue(c: char): (d: nat)
    requires IsDigit(c)
    ensures d <= 9
  {
    c as int - '0' as int
  }

  predicate AllDigits(s: string) {
    forall k :: 0 <= k < |s| ==> IsDigit(s[k])
  }

  // ----------------------------------------------------------------------
  // Decimal numerals: int() and its inverse str()
  // ----------------------------------------------------------------------

  /** The value of a string of decimal digits, most significant digit first. */
  function DecimalValue(s: string): nat
    requires AllDigits(s)
    decreases |s|
  {
    if s == [] then 0 else 10 * DecimalValue(s[..|s| - 1]) + DigitValue(s[|s| - 1])
  }

  /** The shortest decimal numeral of `n`, as `str(n)` writes it. */
  function Decimal(n: nat): (s: string)
    ensures |s| > 0 && AllDigits(s)
    decreases n
  {
    (if n < 10 then [] else Decimal(n / 10)) + [('0' as int + n % 10) as char]
  }

  lemma {:induction false} DecimalRoundTrip(n: nat)
    ensures DecimalValue(Decimal(n)) == n
    decreases n
  {
    var s := Decimal(n);
    assert s[..|s| - 1] == (if n < 10 then [] else Decimal(n / 10));
    if n >= 10 {
      DecimalRoundTrip(n / 10);
    }
  }

  /** The words `int()` accepts once surrounding whitespace is gone: an optional sign and ASCII digits. */
  predicate IsNumeral(w: string) {
    |w| > 0 && (AllDigits(w) || ((w[0] == '-' || w[0] == '+') && |w| > 1 && AllDigits(w[1..])))
  }

  /** `int(w)` for a word `w` that holds no whitespace; anything else raises ValueError. */
  function ParseInt(w: string): (r: Result<int>)
    ensures r.Ok? <==> IsNumeral(w)
    ensures r.Ok? && w[0] != '-' ==> r.value >= 0
    ensures r.Ok? && AllDigits(w) ==> r.value == DecimalValue(w)
  {
    if |w| > 1 && (w[0] == '-' || w[0] == '+') && AllDigits(w[1..]) then
      var magnitude: int := DecimalValue(w[1..]);
      Ok(if w[0] == '-' then -magnitude else magnitude)
    else if |w| > 0 && AllDigits(w) then
      Ok(DecimalValue(w))
    else
      Err(ValueError)
  }

  /** `str(n)` for any integer. */
  function Show(n: int): (s: string)
    ensures IsNumeral(s)
  {
    if n < 0 then ['-'] + Decimal(-n) else Decimal(n)
  }

  /** int() reads back what str() writes. */
  lemma ParseIntShow(n: int)
    ensures ParseInt(Show(n)) == Ok(n)
  {
    if n < 0 {
      var s := Show(n);
      assert s[1..] == Decimal(-n);
      DecimalRoundTrip(-n);
    } else {
      DecimalRoundTrip(n);
    }
  }

  // ----------------------------------------------------------------------
  // Maximal runs: the matches of `\d+` and the words of `str.split()`
  // ----------------------------------------------------------------------

  /** A half-open range `[start, end)` of positions in a string. */
  datatype Span = Span(start: nat, end: nat)

  /** `sp` is a non-empty run of characters satisfying `p` that cannot be extended either way. */
  ghost predicate IsMaximalRun(s: string, p: char -> bool, sp: Span) {
    sp.start < sp.end <= |s|
    && (forall k :: sp.start <= k < sp.end ==> p(s[k]))
    && (sp.start == 0 || !p(s[sp.start - 1]))
    && (sp.end == |s| || !p(s[sp.end]))
  }

  /** The end of the run of `p`-characters that starts at `i`. */
  function RunEnd(s: string, p: char -> bool, i: nat): (j: nat)
    requires i <= |s|
    ensures i <= j <= |s|
    ensures forall k :: i <= k < j ==> p(s[k])
    ensures j == |s| || !p(s[j])
    decreases |s| - i
  {
    if i < |s| && p(s[i]) then RunEnd(s, p, i + 1) else i
  }

  /** The maximal runs of `p`-characters at or after `i`, left to right. */
  function SpansFrom(s: string, p: char -> bool, i: nat): (spans: seq<Span>)
    requires i <= |s|
    requires i == 0 || !p(s[i - 1])
    ensures forall a :: 0 <= a < |spans| ==> i <= spans[a].start && IsMaximalRun(s, p, spans[a])
    decreases |s| - i
  {
    if i == |s| then []
    else if !p(s[i]) then SpansFrom(s, p, i + 1)
    else
      var j := RunEnd(s, p, i);
      if j == |s| then [Span(i, j)] else [Span(i, j)] + SpansFrom(s, p, j + 1)
  }

  /** What `re.finditer` yields for a pattern matching maximal runs of one character class. */
  function Spans(s: string, p: char -> bool): seq<Span> {
    SpansFrom(s, p, 0)
  }

  /** The spans come left to right, each ending before the next one starts. */
  predicate InOrder(spans: seq<Span>) {
    forall a, b :: 0 <= a < b < |spans| ==> spans[a].end < spans[b].start
  }

  lemma InOrderCons(first: Span, rest: seq<Span>)
    requires InOrder(rest)
    requires forall a :: 0 <= a < |rest| ==> first.end < rest[a].start
    ensures InOrder([first] + rest)
  {
    var spans := [first] + rest;
    forall a, b | 0 <= a < b < |spans|
      ensures spans[a].end < spans[b].start
    {
      assert spans[b] == rest[b - 1];
      if a > 0 {
        assert spans[a] == rest[a - 1];
      }
    }
  }

  /** The runs found from `i` come left to right. */
  lemma {:induction false} SpansFromOrdered(s: string, p: char -> bool, i: nat)
    requires i <= |s| && (i == 0 || !p(s[i - 1]))
    ensures InOrder(SpansFrom(s, p, i))
    decreases |s| - i
  {
    if i < |s| {
      if !p(s[i]) {
        SpansFromOrdered(s, p, i + 1);
      } else {
        var j := RunEnd(s, p, i);
        if j < |s| {
          SpansFromOrdered(s, p, j + 1);
          InOrderCons(Span(i, j), SpansFrom(s, p, j + 1));
        }
      }
    }
  }

  /** No `p`-character comes before the first run found from `i`, nor after `i` when there is none. */
  lemma {:induction false} SpansFromGap(s: string, p: char -> bool, i: nat)
    requires i <= |s| && (i == 0 || !p(s[i - 1]))
    ensures |SpansFrom(s, p, i)| == 0 ==> forall k :: i <= k < |s| ==> !p(s[k])
    ensures |SpansFrom(s, p, i)| > 0 ==> forall k :: i <= k < SpansFrom(s, p, i)[0].start ==> !p(s[k])
    decreases |s| - i
  {
    if i < |s| && !p(s[i]) {
      SpansFromGap(s, p, i + 1);
    }
  }

  /** Every `p`-character at or after `i` lies in one of the runs found from `i`; `a` is that run's index. */
  lemma {:induction false} SpansFromCover(s: string, p: char -> bool, i: nat, k: nat) returns (a: nat)
    requires i <= |s| && (i == 0 || !p(s[i - 1]))
    requires i <= k < |s| && p(s[k])
    ensures a < |SpansFrom(s, p, i)| && SpansFrom(s, p, i)[a].start <= k < SpansFrom(s, p, i)[a].end
    decreases |s| - i
  {
    if !p(s[i]) {
      assert SpansFrom(s, p, i) == SpansFrom(s, p, i + 1);
      a := SpansFromCover(s, p, i + 1, k);
    } else {
      var j := RunEnd(s, p, i);
      if k < j {
        assert SpansFrom(s, p, i)[0] == Span(i, j);
        a := 0;
      } else {
        a := SpansFromCoverLater(s, p, i, j, k);
      }
    }
  }

  /** The case of `SpansFromCover` where `k` lies after the first run found from `i`. */
  lemma SpansFromCoverLater(s: string, p: char -> bool, i: nat, j: nat, k: nat) returns (a: nat)
    requires i < |s| && (i == 0 || !p(s[i - 1])) && p(s[i])
    requires j == RunEnd(s, p, i) && j <= k < |s| && p(s[k])
    ensures a < |SpansFrom(s, p, i)| && SpansFrom(s, p, i)[a].start <= k < SpansFrom(s, p, i)[a].end
    decreases |s| - i, 0
  {
    assert j < |s| && !p(s[j]);
    var rest := SpansFrom(s, p, j + 1);
    assert SpansFrom(s, p, i) == [Span(i, j)] + rest;
    var b := SpansFromCover(s, p, j + 1, k);
    a := b + 1;
    assert SpansFrom(s, p, i)[a] == rest[b];
  }

  lemma SpansCover(s: string, p: char -> bool, k: nat) returns (a: nat)
    requires k < |s| && p(s[k])
    ensures a < |Spans(s, p)| && Spans(s, p)[a].start <= k < Spans(s, p)[a].end
  {
    a := SpansFromCover(s, p, 0, k);
  }

  /** Two maximal runs that share a position are the same run. */
  lemma MaximalRunUnique(s: string, p: char -> bool, x: Span, y: Span, k: nat)
    requires IsMaximalRun(s, p, x) && IsMaximalRun(s, p, y)
    requires x.start <= k < x.end && y.start <= k < y.end
    ensures x == y
  {
  }

  lemma DigitRunIsDigits(s: string, sp: Span)
    requires IsMaximalRun(s, IsDigit, sp)
    ensures AllDigits(s[sp.start..sp.end])
  {
    forall k | 0 <= k < sp.end - sp.start
      ensures IsDigit(s[sp.start..sp.end][k])
    {
      assert s[sp.start..sp.end][k] == s[sp.start + k];
    }
  }

  /** The text of a run of digits read as a number. */
  function RunValue(s: string, sp: Span): nat
    requires IsMaximalRun(s, IsDigit, sp)
  {
    DigitRunIsDigits(s, sp);
    DecimalValue(s[sp.start..sp.end])
  }

  /** `int(NUMBER.search(s)[1])` with `NUMBER = (\d+)`: the first run of digits, or None (where Python raises). */
  function FirstNumber(s: string): Option<nat> {
    var runs := Spans(s, IsDigit);
    if |runs| == 0 then None else Some(RunValue(s, runs[0]))
  }

  lemma FirstNumberSpec(s: string)
    ensures FirstNumber(s).None? <==> forall k :: 0 <= k < |s| ==> !IsDigit(s[k])
    ensures FirstNumber(s).Some? ==>
      exists sp :: IsMaximalRun(s, IsDigit, sp) && (forall k :: 0 <= k < sp.start ==> !IsDigit(s[k]))
                   && FirstNumber(s).value == RunValue(s, sp)
  {
    SpansFromGap(s, IsDigit, 0);
    var runs := Spans(s, IsDigit);
    if |runs| > 0 {
      assert IsMaximalRun(s, IsDigit, runs[0]);
    }
  }

  /** `str.split()` without arguments: the maximal runs of non-whitespace. */
  function Words(s: string): (ws: seq<string>)
    ensures forall k :: 0 <= k < |ws| ==> |ws[k]| > 0
    ensures forall k, c :: 0 <= k < |ws| && c in ws[k] ==> !IsSpace(c) && c in s
  {
    var spans := Spans(s, NotSpace);
    seq(|spans|, a requires 0 <= a < |spans| => s[spans[a].start..spans[a].end])
  }

  /**
    * The words are the maximal runs of non-whitespace, left to right, and every
    * non-whitespace character lies in one of them.
    */
  lemma WordsAreRuns(s: string)
    ensures var spans := Spans(s, NotSpace);
            |Words(s)| == |spans| && InOrder(spans)
            && (forall a :: 0 <= a < |spans| ==>
                  IsMaximalRun(s, NotSpace, spans[a]) && Words(s)[a] == s[spans[a].start..spans[a].end])
            && (forall k :: 0 <= k < |s| && !IsSpace(s[k]) ==>
                  exists a :: 0 <= a < |spans| && spans[a].start <= k < spans[a].end)
  {
    var spans := Spans(s, NotSpace);
    SpansFromOrdered(s, NotSpace, 0);
    forall k | 0 <= k < |s| && !IsSpace(s[k])
      ensures exists a :: 0 <= a < |spans| && spans[a].start <= k < spans[a].end
    {
      var a := SpansCover(s, NotSpace, k);
    }
  }

  // ----------------------------------------------------------------------
  // str.split(sep) and str.splitlines()
  // ----------------------------------------------------------------------

  /** `s.split(sep)` for a one-character separator. */
  function SplitOn(s: string, sep: char): (parts: seq<string>)
    ensures |parts| >= 1
    ensures forall k :: 0 <= k < |parts| ==> sep !in parts[k]
    ensures forall k, c :: 0 <= k < |parts| && c in parts[k] ==> c in s
    decreases |s|
  {
    if s == [] then [[]]
    else
      var rest := SplitOn(s[1..], sep);
      assert s == [s[0]] + s[1..];
      if s[0] == sep then [[]] + rest else [[s[0]] + rest[0]] + rest[1..]
  }

  /** `sep.join(parts)`. */
  function Join(parts: seq<string>, sep: char): string
    requires |parts| > 0
    decreases |parts|
  {
    if |parts| == 1 then parts[0] else parts[0] + [sep] + Join(parts[1..], sep)
  }

  /** Splitting loses nothing: joining the pieces back gives the string. */
  lemma {:induction false} JoinSplitOn(s: string, sep: char)
    ensures Join(SplitOn(s, sep), sep) == s
    decreases |s|
  {
    if s != [] {
      JoinSplitOn(s[1..], sep);
      JoinSplitOnStep(s, sep);
    }
  }

  /** The inductive step of `JoinSplitOn`: the first character joins the first piece or is the first separator. */
  lemma JoinSplitOnStep(s: string, sep: char)
    requires s != [] && Join(SplitOn(s[1..], sep), sep) == s[1..]
    ensures Join(SplitOn(s, sep), sep) == s
  {
    var rest := SplitOn(s[1..], sep);
    var parts := SplitOn(s, sep);
    assert s == [s[0]] + s[1..];
    if s[0] == sep {
      assert parts[1..] == rest;
    } else if |rest| > 1 {
      assert parts[1..] == rest[1..];
      assert Join(rest, sep) == rest[0] + [sep] + Join(rest[1..], sep);
    }
  }

  /** `s.split(sep)` has one more piece than `s` has separators. */
  lemma {:induction false} SplitOnCount(s: string, sep: char)
    ensures |SplitOn(s, sep)| == multiset(s)[sep] + 1
    decreases |s|
  {
    if s != [] {
      SplitOnCount(s[1..], sep);
      assert s == [s[0]] + s[1..];
      assert multiset(s) == multiset([s[0]]) + multiset(s[1..]);
    }
  }

  /** A string with exactly one separator is the piece before it, the separator, and the piece after it. */
  lemma SplitOnTwo(s: string, sep: char)
    requires |SplitOn(s, sep)| == 2
    ensures s == SplitOn(s, sep)[0] + [sep] + SplitOn(s, sep)[1]
  {
    var parts := SplitOn(s, sep);
    JoinSplitOn(s, sep);
    assert Join(parts[1..], sep) == parts[1];
  }

  /** `s.splitlines()`: the lines without their terminators, and no empty line after a final terminator. */
  function SplitLines(s: string): (lines: seq<string>)
    ensures |lines| == 0 <==> |s| == 0
    ensures forall k, c :: 0 <= k < |lines| && c in lines[k] ==> !IsLineBreak(c)
    decreases |s|
  {
    if s == [] then []
    else
      var i := RunEnd(s, NotLineBreak, 0);
      if i == |s| then [s]
      else
        var next := if s[i] == '\r' && i + 1 < |s| && s[i + 1] == '\n' then i + 2 else i + 1;
        [s[..i]] + SplitLines(s[next..])
  }

  /** The text of a file whose every line ends in `\n`. */
  function Terminated(lines: seq<string>): string
    decreases |lines|
  {
    if lines == [] then [] else lines[0] + ['\n'] + Terminated(lines[1..])
  }

  lemma RunEndStopsAtBreak(a: string, rest: string)
    requires forall c :: c in a ==> !IsLineBreak(c)
    ensures RunEnd(a + ['\n'] + rest, NotLineBreak, 0) == |a|
  {
    var s := a + ['\n'] + rest;
    assert forall k :: 0 <= k < |a| ==> s[k] == a[k];
    assert s[|a|] == '\n';
  }

  /** A line without breaks followed by `\n` is the first line splitlines() finds. */
  lemma SplitLinesStep(a: string, rest: string)
    requires forall c :: c in a ==> !IsLineBreak(c)
    ensures SplitLines(a + ['\n'] + rest) == [a] + SplitLines(rest)
  {
    var s := a + ['\n'] + rest;
    RunEndStopsAtBreak(a, rest);
    assert s[..|a|] == a;
    assert s[|a| + 1..] == rest;
  }

  /** splitlines() recovers the lines of a file written one `\n`-terminated line at a time. */
  lemma {:induction false} SplitLinesTerminated(lines: seq<string>)
    requires forall k, c :: 0 <= k < |lines| && c in lines[k] ==> !IsLineBreak(c)
    ensures SplitLines(Terminated(lines)) == lines
    decreases |lines|
  {
    if lines != [] {
      SplitLinesStep(lines[0], Terminated(lines[1..]));
      SplitLinesTerminated(lines[1..]);
      assert lines == [lines[0]] + lines[1..];
    }
  }
}
