# Advent of Code 2023, days 1 to 4, in Dafny

This project models four small puzzle solvers that each turn a text input into
an integer. Each model is stated over strings and sequences of lines, with
Python's exceptions as explicit error results:

- **Day 1, calibration values** (`calibration.dfy`): a line's value is the
  two-digit number made of its first and last ASCII digit, or 0 when it has
  none. The answer is the sum over the lines.
- **Day 2, cube games** (`cube_game.dfy`):
  - a record `Game N: a colour, b colour; ...` is parsed into one list of
    counts per colour, built by a loop that appends each token's count to
    its colour's list;
  - per-colour maxima give the test `is_possible` and the product `power`;
  - part one sums the ids of the possible games, and part two sums the powers.
- **Day 3, engine schematic** (`schematic.dfy`):
  - `surroundings` lists the 3x3 block around a cell, clipped by an
    inclusive bounds test;
  - `from_pos` finds the maximal digit run through a cell;
  - `from_neighborhood` and `from_schematic` build sets of part numbers in
    loops;
  - `get_gear_ratios` appends one product for each `*` with exactly two
    adjacent numbers;
  - the two answers sum the part numbers and the gear ratios.
- **Day 4, scratch cards** (`scratch_cards.dfy`): a card `Card N: w... | y...`
  holds two sets of numbers. It scores 0 for no match and `2^(k-1)` for `k`
  matches, and the answer is the total score.

Two shared modules complete the project:

- `outcomes.dfy` holds the exception kinds, `Result` and `Option`, and the list
  comprehension that stops at the first exception.
- `text.dfy` holds the parts of Python's string handling that the solvers use:
  - `int()` and its inverse `str()`;
  - `str.split()`, `str.split(sep)` and `str.splitlines()`;
  - the ASCII character classes;
  - the maximal runs that the regular expression `\d+` matches, found left
    to right as `re.search` and `re.finditer` find them, and the maximal
    runs of non-whitespace that make up the words of `str.split()`.

The loops of the source become methods:

- `CubeGame.CollectCounts` and `CubeGame.FromLine`;
- `Schematic.FromNeighborhood`, `Schematic.FromSchematic` and
  `Schematic.GetGearRatios`;
- `Schematic.SumValues`, `Schematic.ProductOfValues`, `Schematic.PartOne` and
  `Schematic.PartTwo`.

Each method is proved equal to a function. The source's promises are lemmas
about those functions. The pure code of days 1 and 4 and the day 2
properties are functions and lemmas.

The solvers' error behaviour is kept, except for the digit limit of
integer conversion described under "Left out":

- **ValueError:** unpacking the wrong number of pieces, `int()` of a
  non-number, or `max()` of an empty list.
- **TypeError:** subscripting the None of a failed `re.search`, or a colour
  keyword that `Game` does not accept.
- **IndexError:** `lines[0]` of an empty schematic, or `rows[row]` one row
  past the end.

The last of these happens when a symbol sits on the last line at a column at
most one past the length of the first line. The bounds test of `surroundings`
is `0 <= x <= max_rows` with `max_rows = len(lines)`, so it admits the row one
past the end for every column up to `max_cols`, and `from_pos` then indexes
`rows[row]` there (03/advent03.py:17, 03/advent03.py:36, 03/advent03.py:48).
A symbol farther right on a longer last line has no cell below it that passes
the test, so it raises nothing.
The model keeps this behaviour and characterises it exactly
(`Schematic.SchematicPartsFails`, `Schematic.GearRatiosFails`); it does not
correct it.

Two consequences of the code are easy to miss:

- `max()` of an empty list raises ValueError; it is not taken as 0
  (02/advent02.py:33). So a game in which a colour never appears makes
  `is_possible` and `power` fail.
- The record `Game 1: 3 blue, 4 red; 1 red, 2 green, 6 blue; 2 green` has
  the tokens `4 red` and `1 red`, so its red list is `[4, 1]` and red has
  maximum 4. The game with red `[4, 1]`, green `[2, 2]` and blue `[3, 6]` has
  power 4 * 2 * 6 = 48 (`CubeGame.SampleGame`).

## Model

| member | source | states |
|---|---|---|
| Outcomes.AllOk | 02/advent02.py:58 | a list comprehension of results succeeds exactly when every element does, keeps one value per element in order, and otherwise raises the exception of the first element that failed |
| Outcomes.AllOkAppend | 02/advent02.py:58 | one more successful element appends its value to the list |
| Text.ParseInt | 02/advent02.py:27 | `int(w)` on a word succeeds exactly on an optional sign followed by ASCII digits; without `-` the value is non-negative, and for plain digits it is their decimal value |
| Text.DecimalRoundTrip | 01/advent01.py:14 | the decimal value of the numeral `str(n)` writes for a natural number n is n |
| Text.ParseIntShow | 04/advent04.py:30 | `int(str(n)) == n` for every integer n |
| Text.RunEnd | 03/advent03.py:8 | the greedy end of a run: every character before it is in the class and the one at it (if any) is not |
| Text.SpansFrom | 03/advent03.py:36 | every match `finditer` yields from position i starts at or after i and is a maximal run of the class |
| Text.SpansFromOrdered | 03/advent03.py:36-39 | the matches come left to right and do not overlap: each ends before the next starts |
| Text.SpansFromGap | 02/advent02.py:22 | no character of the class comes before the first match, and none at all when there is no match |
| Text.SpansFromCover | 03/advent03.py:37-39 | every character of the class at or after i lies inside one of the matches found from i |
| Text.SpansCover | 03/advent03.py:37-39 | every character of the class lies inside one of the matches of the whole string |
| Text.MaximalRunUnique | 03/advent03.py:39 | two maximal runs that share a position are the same run, so at most one match covers a column |
| Text.FirstNumberSpec | 02/advent02.py:22 | `NUMBER.search(s)` finds nothing exactly when s has no digit; otherwise the number is the value of a maximal digit run with no digit before it |
| Text.Words | 04/advent04.py:30 | the words of `split()` are non-empty, hold no whitespace and consist of characters of the string |
| Text.WordsAreRuns | 04/advent04.py:30 | the words of `split()` (`Words`) are the maximal runs of non-whitespace, one word per run, left to right, and every non-whitespace character lies in one of them |
| Text.SplitOn | 02/advent02.py:20 | `split(sep)` yields at least one piece, no piece holds the separator, and every character of a piece is in the string |
| Text.JoinSplitOn | 02/advent02.py:20 | joining the pieces of `split(sep)` with the separator gives the string back |
| Text.SplitOnCount | 04/advent04.py:26 | `split(sep)` has one more piece than the string has separators, so unpacking into two names succeeds exactly with one separator |
| Text.SplitOnTwo | 04/advent04.py:26 | with exactly two pieces, the string is the first piece, the separator and the second piece |
| Text.SplitLines | 03/advent03.py:35 | `splitlines()` yields no line exactly for the empty string, and no line holds a line break |
| Text.SplitLinesTerminated | 03/advent03.py:35 | `splitlines()` gives back the lines of a text written one `\n`-terminated line at a time |
| Calibration.DigitsOnly | 01/advent01.py:8 | removing the runs of non-digits leaves only digits and never lengthens the line |
| Calibration.ParseLine | 01/advent01.py:7-14 | the calibration value is between 0 and 99 |
| Calibration.DigitsOnlyAppend | 01/advent01.py:8 | removing non-digits commutes with concatenation |
| Calibration.DigitsOnlyNone | 01/advent01.py:8-11 | nothing is left exactly when the line has no ASCII digit |
| Calibration.DigitsOnlyFirst | 01/advent01.py:12 | what is left starts with the first digit of the line |
| Calibration.DigitsOnlyLast | 01/advent01.py:12 | what is left ends with the last digit of the line |
| Calibration.TwoDigitValue | 01/advent01.py:14 | `int` of two digits is ten times the first plus the second |
| Calibration.ParseLineNoDigits | 01/advent01.py:10-11 | a line without digits has value 0, both digits defaulting to `0` |
| Calibration.ParseLineFirstLast | 01/advent01.py:8-14 | the tens digit is the first digit of the line and the units digit the last |
| Calibration.ParseLineSingleDigit | 01/advent01.py:12-14 | a line with exactly one digit d has value 11 * d |
| Calibration.ParseLineIgnoresNonDigits | 01/advent01.py:4-8 | inserting characters other than 0-9 anywhere leaves the value unchanged |
| Calibration.ParseFile | 01/advent01.py:17-19 | the sum over the lines is at most 99 per line |
| Calibration.ParseFileAppend | 01/advent01.py:19 | the sum over a file splits over any division of its lines |
| CubeGame.ParseCubeCount | 02/advent02.py:26-27 | reading a token fails only with ValueError |
| CubeGame.ParseCubeCountSpec | 02/advent02.py:26-27 | a token is read exactly when it is two words of which the first is a numeral; the count is that numeral's value and the colour the second word |
| CubeGame.DrawTokensJoin | 02/advent02.py:24-25 | splitting the draws at `;` and each draw at `,` (`DrawTokens`) loses nothing: joining the tokens back with `,` and the draws with `;` gives the text, and no token holds either separator |
| CubeGame.ParseCubeCounts | 02/advent02.py:24-27 | the tokens are read exactly when each one is, one count per token in order; otherwise ValueError |
| CubeGame.TokenErrorFails | 02/advent02.py:26-27 | a bad token in any draw makes the whole record fail with ValueError |
| CubeGame.Tally | 02/advent02.py:23-27 | the dictionary's keys are exactly the colour words that occur, and each list holds that colour's counts in order of appearance |
| CubeGame.CollectStep | 02/advent02.py:27 | one more token appends its count to its own colour's list and changes no other list |
| CubeGame.CollectCounts | 02/advent02.py:23-27 | the nested loops build exactly that dictionary, or stop with ValueError at the first bad token |
| CubeGame.ParseGame | 02/advent02.py:19-29 | a line without exactly one `:` raises ValueError |
| CubeGame.FromLine | 02/advent02.py:19-29 | the imperative `from_line` returns exactly what `ParseGame` defines |
| CubeGame.ParseGameId | 02/advent02.py:20-22 | a parsed game's id is the first digit run of the text before its one `:`, and the line is that text, `:` and the draws |
| CubeGame.ColorsOfMembers | 02/advent02.py:27 | a colour word is a key exactly when some token names it |
| CubeGame.ColorsAllowed | 02/advent02.py:29 | every key is an accepted keyword exactly when every token names red, green or blue |
| CubeGame.ReadDrawsColors | 02/advent02.py:26-29 | the draws (`ReadDraws`) fail with ValueError for a bad token; otherwise they are accepted exactly when every colour is red, green or blue, and rejected with TypeError when one is not |
| CubeGame.ReadDrawsCounts | 02/advent02.py:23-29 | an accepted record's game holds, per colour, that colour's counts among the tokens |
| CubeGame.ParsedCounts | 02/advent02.py:20-29 | a parsed game holds, per colour, the counts of that colour among the tokens after `:` |
| CubeGame.CountsOfPartition | 02/advent02.py:27 | with only the three colours, each count lands in exactly one list |
| CubeGame.ParseGameKeepsEveryToken | 02/advent02.py:24-27 | the three lists together hold one count per token of the record |
| CubeGame.CountsOfFrom | 02/advent02.py:27 | every count in a colour's list comes from a token of that colour |
| CubeGame.ParseGameNonnegative | 02/advent02.py:26-27 | a record without a minus sign yields no negative count |
| CubeGame.MaxOf | 02/advent02.py:33 | `max` raises ValueError exactly for the empty list; otherwise it is an element and no element exceeds it |
| CubeGame.MaxRed | 02/advent02.py:31-33 | `max_red` is defined exactly when red appeared, is one of the red counts, and is at least every red count |
| CubeGame.MaxGreen | 02/advent02.py:35-37 | the same for green |
| CubeGame.MaxBlue | 02/advent02.py:39-41 | the same for blue |
| CubeGame.IsPossible | 02/advent02.py:43-48 | `is_possible` is defined exactly when all three colours appeared (else ValueError), and then holds exactly when every count is within its colour's limit |
| CubeGame.IsPossibleMonotone | 02/advent02.py:43-48 | a game possible with some limits is possible with any larger limits |
| CubeGame.Power | 02/advent02.py:50-52 | `power` is defined exactly when all three colours appeared, else ValueError |
| CubeGame.PowerNonnegative | 02/advent02.py:50-52 | the power of a game with non-negative counts is non-negative |
| CubeGame.PowerIsFewestCubes | 02/advent02.py:43-52 | the game is possible with its maxima as limits, and its power is at most the product of any limits with which it is possible |
| CubeGame.SampleGame | 02/advent02.py:31-60 | the game with red [4, 1], green [2, 2] and blue [3, 6], the lists the sample record's tokens give, has maxima 4, 2 and 6; it is possible with limits (4, 2, 6) and with part one's default limits (12, 13, 14), but not with (3, 2, 6); its power is 48 |
| CubeGame.ParseGames | 02/advent02.py:58 | the games are read exactly when every line is, one game per line in order; otherwise the exception of the first failing line |
| CubeGame.SumPossibleIds | 02/advent02.py:60 | the sum is defined exactly when every game has all three colours (else ValueError) and lies between 0 and the sum of all ids |
| CubeGame.SumPossibleIdsAllPossible | 02/advent02.py:60 | when every game is possible, the answer is the sum of all ids |
| CubeGame.SumPossibleIdsNonePossible | 02/advent02.py:60 | when no game is possible, the answer is 0 |
| CubeGame.SumPossibleIdsMonotone | 02/advent02.py:60 | larger limits never lower the answer |
| CubeGame.SumPowers | 02/advent02.py:67 | the sum of powers is defined exactly when every game has all three colours, else ValueError |
| CubeGame.SumPowersAppend | 02/advent02.py:67 | the sum of powers splits over any division of the games, and one game contributes its own power |
| CubeGame.SumPowersNonnegative | 02/advent02.py:67 | with non-negative counts the sum of powers is non-negative |
| CubeGame.PartOne | 02/advent02.py:56-60 | part one succeeds exactly when every line parses into a game with all three colours, and is then non-negative |
| CubeGame.PartTwo | 02/advent02.py:63-67 | part two succeeds exactly when every line parses into a game with all three colours |
| ScratchCards.Wins | 04/advent04.py:15-17 | `wins` is contained in both sides and holds every number on both: their intersection |
| ScratchCards.WinsSymmetric | 04/advent04.py:15-17 | swapping the two sides gives the same wins |
| ScratchCards.Points | 04/advent04.py:19-22 | the score is 0 exactly when there are no wins, and otherwise `2^(k-1)` for k wins |
| ScratchCards.ScoreMonotone | 04/advent04.py:19-22 | more wins never score less |
| ScratchCards.ScoreDoubles | 04/advent04.py:22 | every further win doubles the score |
| ScratchCards.PointsBound | 04/advent04.py:19-22 | a card scores at most `2^(n-1)` for n numbers of yours |
| ScratchCards.PointsMonotone | 04/advent04.py:19-22 | of two cards, the one with more wins scores at least as much |
| ScratchCards.SampleCardScoresEight | 04/advent04.py:15-22 | the card built from the sample line's two sets of numbers has wins {48, 83, 86, 17} and scores 8 |
| ScratchCards.ParseNumbers | 04/advent04.py:30-31 | the words are read exactly when each is a numeral (else ValueError), into at most as many numbers as words |
| ScratchCards.ParseNumbersMembers | 04/advent04.py:30-31 | a number is in the set exactly when some word reads as it, so duplicates collapse |
| ScratchCards.ParseCard | 04/advent04.py:24-33 | a line without exactly one `:`, or whose text after it does not hold exactly one bar, raises ValueError; a parsed line has one of each |
| ScratchCards.SplitCardLine | 04/advent04.py:26-27 | such a line is the id text, `:`, the winning text, the bar and your text, none of which holds `:` or the bar |
| ScratchCards.ParseCardLayout | 04/advent04.py:24-29 | a parsed card's line has that layout and its id is the first digit run of the id text |
| ScratchCards.ParseCardNumbers | 04/advent04.py:27-31 | the card read from the line's parts (`ReadCard`) holds as winning numbers the numbers read from the text between `:` and the bar, and as yours those read after the bar |
| ScratchCards.ParseCards | 04/advent04.py:38 | the cards are read exactly when every line is, one card per line in order; otherwise the exception of the first failing line |
| ScratchCards.PartOne | 04/advent04.py:36-39 | the answer is defined exactly when every line parses, and is then non-negative |
| ScratchCards.SumPointsAppend | 04/advent04.py:39 | the total (`SumPoints`) splits over any division of the cards |
| ScratchCards.SumPointsAtLeastEach | 04/advent04.py:39 | the total is at least the points of every single card |
| Schematic.Window | 03/advent03.py:14-16 | the block has 9 cells, exactly those within one row and one column, in row-major order |
| Schematic.Clip | 03/advent03.py:17 | the test keeps exactly the cells within the inclusive bounds, in their order |
| Schematic.Surroundings | 03/advent03.py:12-18 | at most 9 cells; a cell is listed exactly when it is within one row and column and passes `0 <= x <= max_rows`, `0 <= y <= max_cols`; row-major order, no duplicates, and the centre whenever it is in bounds |
| Schematic.LineIndex | 03/advent03.py:36 | `rows[row]` for `-n <= row < n` reads a valid index: `row` itself when it is not negative, and `row + n` counted from the end when it is |
| Schematic.FindRunSpec | 03/advent03.py:37-41 | the search loop (`FindRun`) returns a maximal digit run covering `col` with its value, or None when no remaining match covers `col` |
| Schematic.FromPos | 03/advent03.py:34-41 | `from_pos` raises IndexError exactly when `rows[row]` is out of range |
| Schematic.FromPosSpec | 03/advent03.py:34-41 | `from_pos` finds a number exactly when the character at `col` is a digit; the number carries the row, is the maximal run through `col` and has its decimal value |
| Schematic.SamePositionSameNumber | 03/advent03.py:30-31 | two numbers found in one row with the same span are equal, so hashing by position agrees with equality |
| Schematic.Collect | 03/advent03.py:64-67 | the loop's union succeeds exactly when every cell does, and otherwise fails with the error of some cell |
| Schematic.CollectMembers | 03/advent03.py:57 | a number is in the union exactly when it is in the set of some cell |
| Schematic.FoundAtMember | 03/advent03.py:65-67 | the set a cell adds holds exactly the number `from_pos` returns there |
| Schematic.Neighborhood | 03/advent03.py:61-68 | the neighbourhood fails only with IndexError |
| Schematic.FromNeighborhood | 03/advent03.py:61-68 | the loop over `surroundings` builds exactly the neighbourhood set, or stops with IndexError |
| Schematic.NeighborhoodMembers | 03/advent03.py:61-68 | a number is in the neighbourhood exactly when `from_pos` returns it at some in-bounds cell within one row and column |
| Schematic.NeighborhoodAdjacent | 03/advent03.py:61-68 | every number of the neighbourhood is in an adjacent row and touches the centre's column, diagonals included |
| Schematic.NeighborhoodKeyed | 03/advent03.py:30-31 | two numbers of a neighbourhood with the same row and span are the same number, so one touched at several cells appears once |
| Schematic.NeighborhoodFails | 03/advent03.py:63-65 | the neighbourhood fails exactly when a listed cell's row is at or past the number of lines |
| Schematic.NeighborhoodFailsOnLastRow | 03/advent03.py:17 | with `max_rows = len(lines)`, a cell of the grid has a failing neighbourhood exactly when it is on the last line and its column is at most `max_cols + 1` |
| Schematic.RowCells | 03/advent03.py:52-54 | the matches of a character class on one line, left to right |
| Schematic.GridCells | 03/advent03.py:51-54 | the matches of a class on every line, exactly the cells holding such a character, in row-major order |
| Schematic.SchematicParts | 03/advent03.py:44-58 | `from_schematic` fails only with IndexError |
| Schematic.FromSchematic | 03/advent03.py:44-58 | the nested loops build exactly the union of the neighbourhoods of all symbol cells, or stop with IndexError |
| Schematic.SchematicPartsKeyed | 03/advent03.py:44-58 | two numbers that `from_schematic` finds at the same row and span are equal, so a number next to several symbols is counted once, as the position hash of 03/advent03.py:30-31 promises |
| Schematic.SchematicPartsAdjacent | 03/advent03.py:44-58 | every number found is next to a symbol (diagonals included) |
| Schematic.SchematicPartsComplete | 03/advent03.py:44-58 | every digit next to a symbol (within the first line's length) lies in a number found |
| Schematic.CellsFail | 03/advent03.py:48-49 | the neighbourhoods of cells of the grid all succeed exactly when none is on the last line at most one column past the first line's length |
| Schematic.SchematicPartsFails | 03/advent03.py:48-49 | `from_schematic` raises IndexError exactly for an empty schematic or a symbol on the last line at most one column past the first line's length |
| Schematic.ValueSumRemove | 03/advent03.py:75 | the sum over a set (`ValueSum`) does not depend on the order: any member can be taken out first |
| Schematic.ValueProductRemove | 03/advent03.py:92 | the product over a set does not depend on the order |
| Schematic.PairProduct | 03/advent03.py:91-92 | the product of a set of two numbers is the product of their values |
| Schematic.TwoMembers | 03/advent03.py:91 | a set of size 2 is two different numbers |
| Schematic.SumValues | 03/advent03.py:75 | the loop over the set computes the sum of the values |
| Schematic.ProductOfValues | 03/advent03.py:92 | the loop over the set computes the product of the values (`ValueProduct`) |
| Schematic.PartOne | 03/advent03.py:71-75 | part one succeeds exactly when `from_schematic` does (else IndexError) and is the sum of the values of the numbers found |
| Schematic.Ratios | 03/advent03.py:85-93 | the ratios succeed exactly when every neighbourhood does, fail with the error of some cell otherwise, and are as many as the cells with exactly two numbers (`Qualifying`) |
| Schematic.RatiosComplete | 03/advent03.py:88-93 | every cell with exactly two numbers contributes the product of their values, at the index given by the number of such cells before it |
| Schematic.RatioSource | 03/advent03.py:91-93 | each ratio is the product of the two different numbers of a cell that has exactly two |
| Schematic.RatiosEmpty | 03/advent03.py:91 | there are no ratios exactly when no cell has exactly two numbers |
| Schematic.GearRatios | 03/advent03.py:78-95 | `get_gear_ratios` fails only with IndexError |
| Schematic.GetGearRatios | 03/advent03.py:78-95 | the nested loops build exactly that list, or stop with IndexError |
| Schematic.GearRatiosSpec | 03/advent03.py:78-95 | each ratio comes from a `*` whose neighbourhood is two different numbers, and is the product of their values; there are at most as many ratios as `*` cells |
| Schematic.GearRatiosCount | 03/advent03.py:85-93 | there is exactly one gear ratio per `*` with exactly two adjacent numbers |
| Schematic.GearRatiosComplete | 03/advent03.py:85-93 | every `*` with exactly two adjacent numbers yields the product of their values, at the index equal to the number of such `*` cells before it in row-major order |
| Schematic.GearRatiosEmpty | 03/advent03.py:91 | there are no ratios exactly when no `*` has exactly two adjacent numbers |
| Schematic.GearRatiosFails | 03/advent03.py:81-82 | `get_gear_ratios` raises IndexError exactly for an empty schematic or a `*` on the last line at most one column past the first line's length |
| Schematic.PartTwo | 03/advent03.py:98-102 | part two succeeds exactly when `get_gear_ratios` does (else IndexError) and is the sum of the ratios (`Sum`) |

## Left out

- Reading files, and the `__main__` blocks that print. Every `parse_file*`
  function is modelled on the text or lines it would read: a sequence of lines
  for days 1, 2 and 4, and the whole text for day 3.
- The regular expression engine. Each pattern is modelled by what it matches:
  `NUMBER` by a scan for maximal runs of digits (`Text.Spans`), `SYMBOL` and
  `GEAR` by the single cells of their character class (`Schematic.RowCells`),
  and the substitution of `NOT_DIGITS` by a filter that keeps the digits
  (`Calibration.DigitsOnly`).
- Text.ParseInt: reads numerals of any length. From Python 3.11 on, which the
  source needs for `typing.Self`, `int()` of a decimal string longer than
  4300 digits raises ValueError by default. A word that long in a card, a
  cube count or a schematic number raises ValueError in the source, where the
  model reads it; the "fails only with" and "exactly" statements of
  `ParseCubeCountSpec`, `ParseNumbers`, `Neighborhood`, `SchematicParts` and
  `GearRatios` hold for numerals of at most 4300 digits.
- Text.ParseIntShow: states `int(str(n)) == n` for every integer. Under the
  same default limit `str(n)` raises ValueError when n has more than 4300
  digits, so the round trip holds in Python only below that size.
- Non-ASCII digits. `\d` and `int()` also accept other Unicode decimal digits;
  the model's digit class is ASCII `0-9`, and inputs are taken to hold no
  other digits.
- `int()` accepting underscores between digits (`1_000`), and the surrounding
  whitespace that `int()` strips. Every word it reads here comes from
  `split()`, so it holds no whitespace.
- The second halves of days 1 and 4 (spelled-out digits, copies of cards).
  Neither appears in the source files.
- Default arguments. Those of `surroundings` and `from_neighborhood`
  (`max_rows=10, max_cols=10`) and the limits 12/13/14 of day 2's part one are
  explicit parameters. The day 2 limits are also the constants `DefaultRed`,
  `DefaultGreen` and `DefaultBlue`.
- Hashing of `PartNumber`. Sets of part numbers compare all four fields.
  Python's hash uses the position alone, and equality compares all fields.
  Within one schematic the value is determined by the position
  (`Schematic.SamePositionSameNumber`, `Schematic.NeighborhoodKeyed`,
  `Schematic.SchematicPartsKeyed`), so the
  sets agree.
- Iteration order of Python sets. `sum` and `prod` over a set are ghost folds
  proved independent of the order (`ValueSumRemove`, `ValueProductRemove`);
  the methods take the members in an arbitrary order.
- Schematic.SchematicPartsComplete: covers digits up to column
  `len(lines[0])` only. That is the bound of `max_cols`, so a digit farther
  right on a longer line is never looked at.
- Calibration.ParseFile: states only the bound 99 per line. The sum itself is
  related to its parts by `ParseFileAppend`.
