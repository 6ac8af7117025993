/**
  * Day 1: the calibration value of a line is the two-digit number made of its
  * first and last ASCII digit (00 when it has none), and the answer is the
  * sum over the lines of the input.
  */
module Calibration {
  import opened Text

  /** `NOT_DIGITS.sub("", line)` with `NOT_DIGITS = [^0-9]+`: the digits of the line, in order. */
  function DigitsOnly(line: string): (digits: string)
    ensures AllDigits(digits)
    ensures |digits| <= |line|
    decreases |line|
  {
    if line == [] then []
    else (if IsDigit(line[0]) then [line[0]] else []) + DigitsOnly(line[1..])
  }

  /** `parse_line`: the first and the last digit, each defaulting to "0", read by int() as one numeral. */
  function ParseLine(line: string): (value: nat)
    ensures value <= 99
  {
    var digits := DigitsOnly(line);
    var first := if |digits| > 0 then digits[0] else '0';
    var last := if |digits| > 0 then digits[|digits| - 1] else '0';
    TwoDigitValue(first, last);
    DecimalValue([first, last])
  }

  /** `parse_file`: the sum of the calibration values of the lines. */
  function ParseFile(lines: seq<string>): (total: nat)
    ensures total <= 99 * |lines|
    decreases |lines|
  {
    if lines == [] then 0 else ParseLine(lines[0]) + ParseFile(lines[1..])
  }

  // ----------------------------------------------------------------------
  // Properties
  // ----------------------------------------------------------------------

  /** Dropping non-digits commutes with concatenation. */
  lemma {:induction false} DigitsOnlyAppend(a: string, b: string)
    ensures DigitsOnly(a + b) == DigitsOnly(a) + DigitsOnly(b)
    decreases |a|
  {
    if a != [] {
      assert (a + b)[1..] == a[1..] + b;
      DigitsOnlyAppend(a[1..], b);
    } else {
      assert a + b == b;
    }
  }

  /** A line has no digits to keep exactly when none of its characters is a digit. */
  lemma {:induction false} DigitsOnlyNone(line: string)
    ensures DigitsOnly(line) == [] <==> forall k :: 0 <= k < |line| ==> !IsDigit(line[k])
    decreases |line|
  {
    if line != [] {
      DigitsOnlyNone(line[1..]);
      assert forall k :: 1 <= k < |line| ==> line[k] == line[1..][k - 1];
    }
  }

  /** The two numerals that make up a value: the tens digit and the units digit. */
  lemma TwoDigitValue(first: char, last: char)
    requires IsDigit(first) && IsDigit(last)
    ensures DecimalValue([first, last]) == 10 * DigitValue(first) + DigitValue(last)
  {
    assert [first, last][..1] == [first];
    assert [first][..0] == [];
    assert DecimalValue([first]) == DigitValue(first);
  }

  /** A line without digits has calibration value 0. */
  lemma ParseLineNoDigits(line: string)
    requires forall k :: 0 <= k < |line| ==> !IsDigit(line[k])
    ensures ParseLine(line) == 0
  {
    DigitsOnlyNone(line);
    TwoDigitValue('0', '0');
  }

  /** The digits of a line start with its first digit. */
  lemma {:induction false} DigitsOnlyFirst(line: string, i: nat)
    requires i < |line| && IsDigit(line[i])
    requires forall k :: 0 <= k < i ==> !IsDigit(line[k])
    ensures DigitsOnly(line) == [line[i]] + DigitsOnly(line[i + 1..])
    decreases i
  {
    if i > 0 {
      var tail := line[1..];
      assert tail[i - 1] == line[i] && tail[i..] == line[i + 1..];
      assert forall k :: 0 <= k < i - 1 ==> tail[k] == line[k + 1];
      DigitsOnlyFirst(tail, i - 1);
    }
  }

  /** The digits of a line end with its last digit. */
  lemma {:induction false} DigitsOnlyLast(line: string, j: nat)
    requires j < |line| && IsDigit(line[j])
    requires forall k :: j < k < |line| ==> !IsDigit(line[k])
    ensures DigitsOnly(line) == DigitsOnly(line[..j]) + [line[j]]
    decreases j
  {
    var tail := line[1..];
    assert forall k :: 0 <= k < |tail| ==> tail[k] == line[k + 1];
    if j == 0 {
      DigitsOnlyNone(tail);
      assert line[..0] == [];
    } else {
      DigitsOnlyLast(tail, j - 1);
      assert line[..j][1..] == tail[..j - 1];
      var head := if IsDigit(line[0]) then [line[0]] else [];
      assert DigitsOnly(line[..j]) == head + DigitsOnly(tail[..j - 1]);
      assert head + (DigitsOnly(tail[..j - 1]) + [line[j]]) == (head + DigitsOnly(tail[..j - 1])) + [line[j]];
    }
  }

  /** The tens digit is the first digit of the line and the units digit the last. */
  lemma ParseLineFirstLast(line: string, i: nat, j: nat)
    requires i <= j < |line| && IsDigit(line[i]) && IsDigit(line[j])
    requires forall k :: 0 <= k < i ==> !IsDigit(line[k])
    requires forall k :: j < k < |line| ==> !IsDigit(line[k])
    ensures ParseLine(line) == 10 * DigitValue(line[i]) + DigitValue(line[j])
  {
    DigitsOnlyFirst(line, i);
    DigitsOnlyLast(line, j);
    var digits := DigitsOnly(line);
    assert digits[0] == line[i];
    assert digits[|digits| - 1] == line[j];
    TwoDigitValue(line[i], line[j]);
  }

  /** A line with exactly one digit d has calibration value 11 * d. */
  lemma ParseLineSingleDigit(line: string, i: nat)
    requires i < |line| && IsDigit(line[i])
    requires forall k :: 0 <= k < |line| && k != i ==> !IsDigit(line[k])
    ensures ParseLine(line) == 11 * DigitValue(line[i])
  {
    ParseLineFirstLast(line, i, i);
  }

  /** Inserting characters other than 0-9 anywhere does not change the value. */
  lemma ParseLineIgnoresNonDigits(a: string, noise: string, b: string)
    requires forall k :: 0 <= k < |noise| ==> !IsDigit(noise[k])
    ensures ParseLine(a + noise + b) == ParseLine(a + b)
  {
    DigitsOnlyAppend(a + noise, b);
    DigitsOnlyAppend(a, noise);
    DigitsOnlyNone(noise);
    DigitsOnlyAppend(a, b);
  }

  /** The sum over a file splits over any division of its lines. */
  lemma {:induction false} ParseFileAppend(a: seq<string>, b: seq<string>)
    ensures ParseFile(a + b) == ParseFile(a) + ParseFile(b)
    decreases |a|
  {
    if a != [] {
      assert (a + b)[1..] == a[1..] + b;
      ParseFileAppend(a[1..], b);
    } else {
      assert a + b == b;
    }
  }
}
