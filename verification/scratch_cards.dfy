/**
  * Day 4: a scratch card lists winning numbers and the numbers you have; it
  * scores 1 point for its first match and doubles for every further one. The
  * answer is the total score of the cards of the input.
  */
module ScratchCards {
  import opened Outcomes
  import opened Text

  /** A card: its id and its two sides as sets (a number listed twice on one side counts once). */
  datatype Card = Card(id: nat, winning: set<int>, yours: set<int>)

  /** `wins`: the numbers you have that are also winning numbers. */
  function Wins(card: Card): (w: set<int>)
    ensures w <= card.yours && w <= card.winning
    ensures forall n :: n in card.yours && n in card.winning ==> n in w
  {
    set n | n in card.yours && n in card.winning
  }

  /** `2**k`. */
  function Pow2(k: nat): (p: nat)
    ensures p >= 1
  {
    if k == 0 then 1 else 2 * Pow2(k - 1)
  }

  /** The score of `k` matches: 0 for none, else `2**(k-1)`. */
  function Score(k: nat): nat {
    if k == 0 then 0 else Pow2(k - 1)
  }

  /** `points`. */
  function Points(card: Card): (p: nat)
    ensures p == 0 <==> Wins(card) == {}
    ensures Wins(card) != {} ==> p == Pow2(|Wins(card)| - 1)
  {
    Score(|Wins(card)|)
  }

  /** `set(int(num) for num in words)`: ValueError at the first word that is not a number. */
  function ParseNumbers(words: seq<string>): (r: Result<set<int>>)
    ensures r.Ok? <==> forall k :: 0 <= k < |words| ==> IsNumeral(words[k])
    ensures r.Err? ==> r == Err(ValueError)
    ensures r.Ok? ==> |r.value| <= |words|
    decreases |words|
  {
    if words == [] then Ok({})
    else
      match ParseInt(words[0])
      case Err(e) => Err(e)
      case Ok(n) =>
        match ParseNumbers(words[1..])
        case Err(e) => Err(e)
        case Ok(rest) =>
          assert forall k :: 0 <= k < |words| - 1 ==> words[1..][k] == words[k + 1];
          Ok({n} + rest)
  }

  /** The numbers read are exactly the values of the words. */
  lemma {:induction false} ParseNumbersMembers(words: seq<string>, n: int)
    requires ParseNumbers(words).Ok?
    ensures n in ParseNumbers(words).value <==> exists k :: 0 <= k < |words| && ParseInt(words[k]) == Ok(n)
    decreases |words|
  {
    if words != [] {
      var tail := words[1..];
      ParseNumbersMembers(tail, n);
      assert forall k :: 0 <= k < |tail| ==> tail[k] == words[k + 1];
      if exists k :: 0 <= k < |words| && ParseInt(words[k]) == Ok(n) {
        var k :| 0 <= k < |words| && ParseInt(words[k]) == Ok(n);
        if k > 0 {
          assert ParseInt(tail[k - 1]) == Ok(n);
        }
      }
    }
  }

  /**
    * `Card.from_line`: one `:` splits off the id text, whose first digit run
    * is the id; one `|` splits the rest into the winning numbers and yours.
    */
  function ParseCard(line: string): (r: Result<Card>)
    ensures multiset(line)[':'] != 1 ==> r == Err(ValueError)
    ensures |SplitOn(line, ':')| == 2 && multiset(SplitOn(line, ':')[1])['|'] != 1 ==> r == Err(ValueError)
    ensures r.Ok? ==> multiset(line)[':'] == 1 && |SplitOn(line, ':')| == 2
    ensures r.Ok? ==> multiset(SplitOn(line, ':')[1])['|'] == 1 && |SplitOn(SplitOn(line, ':')[1], '|')| == 2
  {
    SplitOnCount(line, ':');
    var halves := SplitOn(line, ':');
    if |halves| != 2 then Err(ValueError)
    else
      SplitOnCount(halves[1], '|');
      var sides := SplitOn(halves[1], '|');
      if |sides| != 2 then Err(ValueError)
      else ReadCard(halves[0], sides[0], sides[1])
  }

  /** The id is the first digit run of the text before `:`; the two sides are lists of numbers. */
  function ReadCard(idText: string, winningText: string, yourText: string): Result<Card> {
    match FirstNumber(idText)
    case None => Err(TypeError)
    case Some(id) =>
      match ParseNumbers(Words(winningText))
      case Err(e) => Err(e)
      case Ok(winning) =>
        match ParseNumbers(Words(yourText))
        case Err(e) => Err(e)
        case Ok(yours) => Ok(Card(id, winning, yours))
  }

  /** The cards of the lines, in order, or the error of the first line that does not parse. */
  function ParseCards(lines: seq<string>): (r: Result<seq<Card>>)
    ensures r.Ok? <==> forall k :: 0 <= k < |lines| ==> ParseCard(lines[k]).Ok?
    ensures r.Ok? ==> |r.value| == |lines| && forall k :: 0 <= k < |lines| ==> ParseCard(lines[k]) == Ok(r.value[k])
    ensures r.Err? ==> exists k :: 0 <= k < |lines| && ParseCard(lines[k]) == Err(r.exc)
                         && forall j :: 0 <= j < k ==> ParseCard(lines[j]).Ok?
  {
    var rs := seq(|lines|, k requires 0 <= k < |lines| => ParseCard(lines[k]));
    assert forall k :: 0 <= k < |lines| ==> rs[k] == ParseCard(lines[k]);
    AllOk(rs)
  }

  /** The sum of the points of the cards. */
  function SumPoints(cards: seq<Card>): nat
    decreases |cards|
  {
    if cards == [] then 0 else Points(cards[0]) + SumPoints(cards[1..])
  }

  /** `parse_file_part_one`: the total score of the cards of the lines. */
  function PartOne(lines: seq<string>): (r: Result<int>)
    ensures r.Ok? <==> forall k :: 0 <= k < |lines| ==> ParseCard(lines[k]).Ok?
    ensures r.Ok? ==> r.value >= 0
  {
    match ParseCards(lines)
    case Err(e) => Err(e)
    case Ok(cards) => Ok(SumPoints(cards))
  }

  // ----------------------------------------------------------------------
  // Properties
  // ----------------------------------------------------------------------

  /** Swapping the two sides of a card gives the same matches. */
  lemma WinsSymmetric(card: Card)
    ensures Wins(Card(card.id, card.yours, card.winning)) == Wins(card)
  {
  }

  lemma {:induction false} Pow2Monotone(a: nat, b: nat)
    requires a <= b
    ensures Pow2(a) <= Pow2(b)
    decreases b
  {
    if a < b {
      Pow2Monotone(a, b - 1);
    }
  }

  /** More matches never score less. */
  lemma ScoreMonotone(a: nat, b: nat)
    requires a <= b
    ensures Score(a) <= Score(b)
  {
    if a > 0 {
      Pow2Monotone(a - 1, b - 1);
    }
  }

  /** Every further match doubles the score. */
  lemma ScoreDoubles(k: nat)
    requires k >= 1
    ensures Score(k + 1) == 2 * Score(k)
  {
  }

  lemma SubsetCardinality(a: set<int>, b: set<int>)
    requires a <= b
    ensures |a| <= |b|
  {
    assert b == a + (b - a);
    assert a * (b - a) == {};
  }

  /** A card scores at most what it would if every number you have won. */
  lemma PointsBound(card: Card)
    requires card.yours != {}
    ensures Points(card) <= Pow2(|card.yours| - 1)
  {
    SubsetCardinality(Wins(card), card.yours);
    ScoreMonotone(|Wins(card)|, |card.yours|);
  }

  /** Of two cards, the one with more matches scores at least as much. */
  lemma PointsMonotone(c1: Card, c2: Card)
    requires |Wins(c1)| <= |Wins(c2)|
    ensures Points(c1) <= Points(c2)
  {
    ScoreMonotone(|Wins(c1)|, |Wins(c2)|);
  }

  /**
    * The card with winning numbers {41, 48, 83, 86, 17} and yours
    * {83, 86, 6, 31, 17, 9, 48, 53}, the sets of the sample line
    * `Card 1: 41 48 83 86 17 | 83 86 6 31 17 9 48 53`, has four matches and
    * scores 8.
    */
  lemma SampleCardScoresEight()
    ensures var card := Card(1, {41, 48, 83, 86, 17}, {83, 86, 6, 31, 17, 9, 48, 53});
            Wins(card) == {48, 83, 86, 17} && Points(card) == 8
  {
    var card := Card(1, {41, 48, 83, 86, 17}, {83, 86, 6, 31, 17, 9, 48, 53});
    assert Wins(card) == {48, 83, 86, 17};
    assert |{48, 83, 86, 17}| == 4;
  }

  /** A string with one `:` and, after it, one `|`, is the three pieces around them. */
  lemma SplitCardLine(line: string)
    requires |SplitOn(line, ':')| == 2 && |SplitOn(SplitOn(line, ':')[1], '|')| == 2
    ensures var halves := SplitOn(line, ':');
            var sides := SplitOn(halves[1], '|');
            line == halves[0] + [':'] + sides[0] + ['|'] + sides[1]
            && ':' !in halves[0] && ':' !in sides[0] && ':' !in sides[1]
            && '|' !in sides[0] && '|' !in sides[1]
  {
    var halves := SplitOn(line, ':');
    var sides := SplitOn(halves[1], '|');
    SplitOnTwo(line, ':');
    SplitOnTwo(halves[1], '|');
    assert ':' !in halves[1];
    var a, b, c := halves[0] + [':'], sides[0] + ['|'], sides[1];
    assert a + (b + c) == a + b + c;
  }

  /** A parsed card is read from the two sides of the line around its one `:` and one `|`. */
  lemma ParseCardLayout(line: string)
    requires ParseCard(line).Ok?
    ensures var halves := SplitOn(line, ':');
            var sides := SplitOn(halves[1], '|');
            line == halves[0] + [':'] + sides[0] + ['|'] + sides[1]
            && ':' !in halves[0] && ':' !in sides[0] && ':' !in sides[1]
            && '|' !in sides[0] && '|' !in sides[1]
            && Some(ParseCard(line).value.id) == FirstNumber(halves[0])
  {
    var halves := SplitOn(line, ':');
    var sides := SplitOn(halves[1], '|');
    assert ParseCard(line) == ReadCard(halves[0], sides[0], sides[1]);
    SplitCardLine(line);
  }

  /** A card read from its three texts holds the numbers of its two sides, each as `ParseNumbers` reads it. */
  lemma ReadCardSides(idText: string, winningText: string, yourText: string)
    requires ReadCard(idText, winningText, yourText).Ok?
    ensures ParseNumbers(Words(winningText)).Ok? && ParseNumbers(Words(yourText)).Ok?
    ensures ReadCard(idText, winningText, yourText).value.winning == ParseNumbers(Words(winningText)).value
    ensures ReadCard(idText, winningText, yourText).value.yours == ParseNumbers(Words(yourText)).value
  {
  }

  /**
    * The winning numbers are the numbers written between `:` and `|`, yours
    * those after `|` (so, by `ParseNumbersMembers`, n is on a side exactly
    * when some word there reads as n).
    */
  lemma ParseCardNumbers(line: string)
    requires ParseCard(line).Ok?
    ensures var sides := SplitOn(SplitOn(line, ':')[1], '|');
            var card := ParseCard(line).value;
            ParseNumbers(Words(sides[0])) == Ok(card.winning)
            && ParseNumbers(Words(sides[1])) == Ok(card.yours)
  {
    var halves := SplitOn(line, ':');
    var sides := SplitOn(halves[1], '|');
    assert ParseCard(line) == ReadCard(halves[0], sides[0], sides[1]);
    ReadCardSides(halves[0], sides[0], sides[1]);
  }

  /** The total splits over any division of the cards. */
  lemma {:induction false} SumPointsAppend(a: seq<Card>, b: seq<Card>)
    ensures SumPoints(a + b) == SumPoints(a) + SumPoints(b)
    decreases |a|
  {
    if a == [] {
      assert a + b == b;
    } else {
      assert (a + b)[1..] == a[1..] + b;
      SumPointsAppend(a[1..], b);
    }
  }

  /** Every card adds its points: the total is at least the points of any one card. */
  lemma {:induction false} SumPointsAtLeastEach(cards: seq<Card>, k: nat)
    requires k < |cards|
    ensures Points(cards[k]) <= SumPoints(cards)
    decreases |cards|
  {
    if k > 0 {
      SumPointsAtLeastEach(cards[1..], k - 1);
    }
  }
}
