/**
  * Day 2: a game record `Game <id>: <n> <colour>, ...; ...` lists the cubes of
  * each colour shown in a sequence of draws. Part one sums the ids of the
  * games possible with a bag of 12 red, 13 green and 14 blue cubes; part two
  * sums the games' powers, the products of the per-colour maxima.
  */
module CubeGame {
  import opened Outcomes
  import opened Text

  /** A game: its id and, per colour, the counts shown, in the order of the record. */
  datatype Game = Game(id: nat, red: seq<int>, green: seq<int>, blue: seq<int>)

  /** One `<n> <colour>` token of a draw, as read: the colour is any word. */
  datatype CubeCount = CubeCount(count: int, color: string)

  /** The keyword arguments `Game` accepts besides `id`. */
  predicate IsColor(name: string) {
    name == "red" || name == "green" || name == "blue"
  }

  /** The limits part one uses by default. */
  const DefaultRed := 12
  const DefaultGreen := 13
  const DefaultBlue := 14

  // ----------------------------------------------------------------------
  // Parsing a game record
  // ----------------------------------------------------------------------

  /** `num_str, color = token.strip().split()` followed by `int(num_str)`. */
  function ParseCubeCount(token: string): (r: Result<CubeCount>)
    ensures r.Err? ==> r == Err(ValueError)
  {
    var words := Words(token);
    if |words| != 2 then Err(ValueError)
    else
      match ParseInt(words[0])
      case Err(e) => Err(e)
      case Ok(n) => Ok(CubeCount(n, words[1]))
  }

  /**
    * A token is read exactly when it is two words of which the first is a
    * numeral: the count is that numeral's value and the colour the second word.
    */
  lemma ParseCubeCountSpec(token: string)
    ensures var words := Words(token);
            var r := ParseCubeCount(token);
            (r.Ok? <==> |words| == 2 && IsNumeral(words[0]))
            && (r.Ok? ==> ParseInt(words[0]) == Ok(r.value.count) && r.value.color == words[1])
  {
  }

  /** The tokens of each draw: the `,`-separated pieces of each `;`-separated piece. */
  function DrawTokens(draws: string): seq<seq<string>> {
    var displays := SplitOn(draws, ';');
    seq(|displays|, i requires 0 <= i < |displays| => SplitOn(displays[i], ','))
  }

  /**
    * Splitting the draws loses nothing: joining each draw's tokens with `,` and
    * then the draws with `;` gives the text back, and no token holds either
    * separator.
    */
  lemma DrawTokensJoin(draws: string)
    ensures var dts := DrawTokens(draws);
            |dts| > 0 && (forall i :: 0 <= i < |dts| ==> |dts[i]| > 0)
            && Join(seq(|dts|, i requires 0 <= i < |dts| && |dts[i]| > 0 => Join(dts[i], ',')), ';') == draws
            && (forall i, t :: 0 <= i < |dts| && t in dts[i] ==> ';' !in t && ',' !in t)
  {
    var displays := SplitOn(draws, ';');
    var dts := DrawTokens(draws);
    forall i | 0 <= i < |dts|
      ensures Join(dts[i], ',') == displays[i]
    {
      JoinSplitOn(displays[i], ',');
    }
    assert seq(|dts|, i requires 0 <= i < |dts| && |dts[i]| > 0 => Join(dts[i], ',')) == displays;
    JoinSplitOn(draws, ';');
  }

  /** The concatenation of a sequence of sequences. */
  function Flatten(xss: seq<seq<string>>): seq<string>
    decreases |xss|
  {
    if xss == [] then [] else Flatten(xss[..|xss| - 1]) + xss[|xss| - 1]
  }

  /** All tokens of the draws, in the order they are written. */
  function Tokens(draws: string): seq<string> {
    Flatten(DrawTokens(draws))
  }

  /** The cube counts of the tokens, or ValueError for the first token that is not `<n> <word>`. */
  function ParseCubeCounts(tokens: seq<string>): (r: Result<seq<CubeCount>>)
    ensures r.Ok? <==> forall k :: 0 <= k < |tokens| ==> ParseCubeCount(tokens[k]).Ok?
    ensures r.Err? ==> r == Err(ValueError)
    ensures r.Ok? ==> |r.value| == |tokens|
    ensures r.Ok? ==> forall k :: 0 <= k < |tokens| ==> ParseCubeCount(tokens[k]) == Ok(r.value[k])
  {
    var rs := seq(|tokens|, k requires 0 <= k < |tokens| => ParseCubeCount(tokens[k]));
    assert forall k :: 0 <= k < |tokens| ==> rs[k] == ParseCubeCount(tokens[k]);
    assert forall k :: 0 <= k < |rs| && rs[k].Err? ==> rs[k] == Err(ValueError);
    AllOk(rs)
  }

  /** The counts shown for one colour, in order: the list `data[color]` collects. */
  function CountsOf(cs: seq<CubeCount>, color: string): seq<int>
    decreases |cs|
  {
    if cs == [] then []
    else
      var n := |cs| - 1;
      CountsOf(cs[..n], color) + (if cs[n].color == color then [cs[n].count] else [])
  }

  /** The colour words that occur: the keys of `data`. */
  function ColorsOf(cs: seq<CubeCount>): set<string>
    decreases |cs|
  {
    if cs == [] then {} else ColorsOf(cs[..|cs| - 1]) + {cs[|cs| - 1].color}
  }

  /**
    * What `Game.from_line` returns: ValueError unless the line has exactly one
    * `:`, TypeError if the text before it has no digit, ValueError for a bad
    * token, TypeError for a colour word `Game` does not accept.
    */
  function ParseGame(line: string): (r: Result<Game>)
    ensures multiset(line)[':'] != 1 ==> r == Err(ValueError)
    ensures r.Ok? ==> multiset(line)[':'] == 1
  {
    SplitOnCount(line, ':');
    var halves := SplitOn(line, ':');
    if |halves| != 2 then Err(ValueError)
    else
      match FirstNumber(halves[0])
      case None => Err(TypeError)
      case Some(id) => ReadDraws(id, halves[1])
  }

  /** The game with the given id whose draws are written in `draws`: `Game(id=..., **data)`. */
  function ReadDraws(id: nat, draws: string): Result<Game> {
    match TallyDraws(draws)
    case Err(e) => Err(e)
    case Ok(data) =>
      if data.Keys <= {"red", "green", "blue"} then
        Ok(Game(id, Lookup(data, "red"), Lookup(data, "green"), Lookup(data, "blue")))
      else
        Err(TypeError)
  }

  /** The list a dictionary holds for a key, or the empty list. */
  function Lookup(data: map<string, seq<int>>, key: string): seq<int> {
    if key in data then data[key] else []
  }

  /** A colour word that does not occur has no counts. */
  lemma {:induction false} CountsOfAbsent(cs: seq<CubeCount>, color: string)
    requires color !in ColorsOf(cs)
    ensures CountsOf(cs, color) == []
    decreases |cs|
  {
    if cs != [] {
      CountsOfAbsent(cs[..|cs| - 1], color);
    }
  }

  /** The dictionary the loops of `from_line` build: each colour word that occurs, with its counts in order. */
  function Tally(cs: seq<CubeCount>): (data: map<string, seq<int>>)
    ensures data.Keys == ColorsOf(cs)
    ensures forall color :: Lookup(data, color) == CountsOf(cs, color)
  {
    forall color | color !in ColorsOf(cs)
      ensures CountsOf(cs, color) == []
    {
      CountsOfAbsent(cs, color);
    }
    map color | color in ColorsOf(cs) :: CountsOf(cs, color)
  }

  /** The dictionary of the counts written in `draws`, or ValueError for a bad token. */
  function TallyDraws(draws: string): Result<map<string, seq<int>>> {
    match ParseCubeCounts(Tokens(draws))
    case Err(e) => Err(e)
    case Ok(cs) => Ok(Tally(cs))
  }

  /**
    * The loops of `Game.from_line`: for each `;`-separated draw and each of its
    * `,`-separated tokens, the count is appended to the list of its colour in
    * the dictionary.
    */
  method CollectCounts(draws: string) returns (r: Result<map<string, seq<int>>>)
    ensures r == TallyDraws(draws)
  {
    ghost var dts := DrawTokens(draws);
    var displays := SplitOn(draws, ';');
    var data: map<string, seq<int>> := map[];
    ghost var done: seq<string> := [];
    ghost var cs: seq<CubeCount> := [];
    var i := 0;
    while i < |displays|
      invariant 0 <= i <= |displays| == |dts|
      invariant done == Flatten(dts[..i])
      invariant ParseCubeCounts(done) == Ok(cs)
      invariant data == Tally(cs)
    {
      var tokens := SplitOn(displays[i], ',');
      assert tokens == dts[i];
      var j := 0;
      while j < |tokens|
        invariant 0 <= j <= |tokens|
        invariant done == Flatten(dts[..i]) + tokens[..j]
        invariant ParseCubeCounts(done) == Ok(cs)
        invariant data == Tally(cs)
      {
        var count := ParseCubeCount(tokens[j]);
        if count.Err? {
          TokenErrorFails(dts, i, j);
          return Err(ValueError);
        }
        var c := count.value;
        CollectStep(cs, c);
        ParseStep(done, cs, tokens[j], c);
        data := data[c.color := Lookup(data, c.color) + [c.count]];
        cs := cs + [c];
        TakeOneMore(Flatten(dts[..i]), tokens, j);
        done := done + [tokens[j]];
        j := j + 1;
      }
      FlattenStep(dts, i);
      assert tokens[..j] == tokens;
      i := i + 1;
    }
    assert dts[..i] == dts;
    r := Ok(data);
  }

  /**
    * `Game.from_line`: one `:` splits off the id text, whose first digit run is
    * the id; the dictionary of counts is handed to the constructor, which
    * accepts only the keywords red, green and blue.
    */
  method FromLine(line: string) returns (r: Result<Game>)
    ensures r == ParseGame(line)
  {
    var halves := SplitOn(line, ':');
    if |halves| != 2 {
      return Err(ValueError);
    }
    var id := FirstNumber(halves[0]);
    if id.None? {
      return Err(TypeError);
    }
    var data := CollectCounts(halves[1]);
    if data.Err? {
      return Err(data.exc);
    }
    if !(data.value.Keys <= {"red", "green", "blue"}) {
      return Err(TypeError);
    }
    r := Ok(Game(id.value, Lookup(data.value, "red"), Lookup(data.value, "green"), Lookup(data.value, "blue")));
  }

  /** Reading one more token appends its count to its colour's list and to nothing else. */
  lemma CollectStep(cs: seq<CubeCount>, c: CubeCount)
    ensures Tally(cs + [c]) == Tally(cs)[c.color := Lookup(Tally(cs), c.color) + [c.count]]
  {
    var cs' := cs + [c];
    assert cs'[..|cs|] == cs;
    var t, t' := Tally(cs), Tally(cs');
    var u := t[c.color := Lookup(t, c.color) + [c.count]];
    assert t'.Keys == u.Keys;
    forall color | color in u
      ensures t'[color] == u[color]
    {
      assert CountsOf(cs', color) == CountsOf(cs, color) + (if c.color == color then [c.count] else []);
      assert Lookup(t', color) == t'[color];
    }
  }

  /** One more well-formed token extends the parsed counts by its count. */
  lemma ParseStep(done: seq<string>, cs: seq<CubeCount>, token: string, c: CubeCount)
    requires ParseCubeCounts(done) == Ok(cs)
    requires ParseCubeCount(token) == Ok(c)
    ensures ParseCubeCounts(done + [token]) == Ok(cs + [c])
  {
    var all := done + [token];
    var rs := seq(|done|, k requires 0 <= k < |done| => ParseCubeCount(done[k]));
    assert seq(|all|, k requires 0 <= k < |all| => ParseCubeCount(all[k])) == rs + [Ok(c)];
    AllOkAppend(rs, c);
  }

  /** Taking one more token of a draw appends it to the tokens read so far. */
  lemma TakeOneMore(before: seq<string>, tokens: seq<string>, j: nat)
    requires j < |tokens|
    ensures before + tokens[..j] + [tokens[j]] == before + tokens[..j + 1]
  {
    assert tokens[..j + 1] == tokens[..j] + [tokens[j]];
  }

  /** The tokens of the first `i + 1` draws are those of the first `i` and then those of draw `i`. */
  lemma FlattenStep(xss: seq<seq<string>>, i: nat)
    requires i < |xss|
    ensures Flatten(xss[..i + 1]) == Flatten(xss[..i]) + xss[i]
  {
    assert xss[..i + 1][..i] == xss[..i];
  }

  /** The tokens of the first `i` draws come first among all tokens. */
  lemma {:induction false} FlattenPrefix(xss: seq<seq<string>>, i: nat)
    requires i <= |xss|
    ensures Flatten(xss[..i]) <= Flatten(xss)
    decreases |xss|
  {
    if i < |xss| {
      var n := |xss| - 1;
      assert xss[..n][..i] == xss[..i];
      FlattenPrefix(xss[..n], i);
    } else {
      assert xss[..i] == xss;
    }
  }

  /** A bad token in draw `i` makes the whole record fail with ValueError. */
  lemma TokenErrorFails(dts: seq<seq<string>>, i: nat, j: nat)
    requires i < |dts| && j < |dts[i]|
    requires ParseCubeCount(dts[i][j]).Err?
    ensures ParseCubeCounts(Flatten(dts)) == Err(ValueError)
  {
    var before := Flatten(dts[..i]);
    assert dts[..i + 1][..i] == dts[..i];
    assert Flatten(dts[..i + 1]) == before + dts[i];
    FlattenPrefix(dts, i + 1);
    var all := Flatten(dts);
    assert all[|before| + j] == (before + dts[i])[|before| + j] == dts[i][j];
  }

  // ----------------------------------------------------------------------
  // Maxima, possibility and power
  // ----------------------------------------------------------------------

  /** `max(counts)`: ValueError for an empty list, else its largest element. */
  function MaxOf(counts: seq<int>): (r: Result<int>)
    ensures r.Ok? <==> |counts| > 0
    ensures r.Err? ==> r == Err(ValueError)
    ensures r.Ok? ==> r.value in counts && forall x :: x in counts ==> x <= r.value
    decreases |counts|
  {
    if |counts| == 0 then Err(ValueError)
    else if |counts| == 1 then Ok(counts[0])
    else
      var m := MaxOf(counts[1..]).value;
      assert forall x :: x in counts ==> x == counts[0] || x in counts[1..];
      Ok(if counts[0] >= m then counts[0] else m)
  }

  /** `max_red`. */
  function MaxRed(g: Game): (r: Result<int>)
    ensures r.Ok? <==> |g.red| > 0
    ensures r.Ok? ==> r.value in g.red && forall x :: x in g.red ==> x <= r.value
  {
    MaxOf(g.red)
  }

  /** `max_green`. */
  function MaxGreen(g: Game): (r: Result<int>)
    ensures r.Ok? <==> |g.green| > 0
    ensures r.Ok? ==> r.value in g.green && forall x :: x in g.green ==> x <= r.value
  {
    MaxOf(g.green)
  }

  /** `max_blue`. */
  function MaxBlue(g: Game): (r: Result<int>)
    ensures r.Ok? <==> |g.blue| > 0
    ensures r.Ok? ==> r.value in g.blue && forall x :: x in g.blue ==> x <= r.value
  {
    MaxOf(g.blue)
  }

  /** Every colour was shown at least once: what the maxima need. */
  predicate HasAllColors(g: Game) {
    |g.red| > 0 && |g.green| > 0 && |g.blue| > 0
  }

  /** Every count of the game is at most the limit of its colour. */
  predicate WithinLimits(g: Game, red: int, green: int, blue: int) {
    (forall x :: x in g.red ==> x <= red)
    && (forall x :: x in g.green ==> x <= green)
    && (forall x :: x in g.blue ==> x <= blue)
  }

  /** `is_possible`: all three maxima are taken first, so a colour never shown raises ValueError. */
  function IsPossible(g: Game, red: int, green: int, blue: int): (r: Result<bool>)
    ensures r.Ok? <==> HasAllColors(g)
    ensures r.Err? ==> r == Err(ValueError)
    ensures r.Ok? ==> (r.value <==> WithinLimits(g, red, green, blue))
  {
    match MaxRed(g)
    case Err(e) => Err(e)
    case Ok(mr) =>
      match MaxGreen(g)
      case Err(e) => Err(e)
      case Ok(mg) =>
        match MaxBlue(g)
        case Err(e) => Err(e)
        case Ok(mb) => Ok(mr <= red && mg <= green && mb <= blue)
  }

  /** `power`: the product of the three maxima. */
  function Power(g: Game): (r: Result<int>)
    ensures r.Ok? <==> HasAllColors(g)
    ensures r.Err? ==> r == Err(ValueError)
  {
    match MaxRed(g)
    case Err(e) => Err(e)
    case Ok(mr) =>
      match MaxGreen(g)
      case Err(e) => Err(e)
      case Ok(mg) =>
        match MaxBlue(g)
        case Err(e) => Err(e)
        case Ok(mb) => Ok(mr * mg * mb)
  }

  /** A game possible with some limits stays possible with larger ones. */
  lemma IsPossibleMonotone(g: Game, red: int, green: int, blue: int, red': int, green': int, blue': int)
    requires red <= red' && green <= green' && blue <= blue'
    requires IsPossible(g, red, green, blue) == Ok(true)
    ensures IsPossible(g, red', green', blue') == Ok(true)
  {
  }

  /** No count of the game is negative. */
  predicate NonnegativeCounts(g: Game) {
    (forall x :: x in g.red ==> x >= 0) && (forall x :: x in g.green ==> x >= 0) && (forall x :: x in g.blue ==> x >= 0)
  }

  /** The power of a game with non-negative counts is non-negative. */
  lemma PowerNonnegative(g: Game)
    requires NonnegativeCounts(g) && HasAllColors(g)
    ensures Power(g).value >= 0
  {
    var mr, mg, mb := MaxRed(g).value, MaxGreen(g).value, MaxBlue(g).value;
    assert mr >= 0 && mg >= 0 && mb >= 0;
    assert mr * mg >= 0;
    assert Power(g).value == (mr * mg) * mb;
  }

  /**
    * The maxima are the fewest cubes that make the game possible: the game is
    * possible with the maxima as limits, and the power is at most the product
    * of any limits with which it is possible.
    */
  lemma PowerIsFewestCubes(g: Game, red: int, green: int, blue: int)
    requires NonnegativeCounts(g)
    requires IsPossible(g, red, green, blue) == Ok(true)
    ensures IsPossible(g, MaxRed(g).value, MaxGreen(g).value, MaxBlue(g).value) == Ok(true)
    ensures Power(g).value <= red * green * blue
  {
    var mr, mg, mb := MaxRed(g).value, MaxGreen(g).value, MaxBlue(g).value;
    assert 0 <= mr <= red && 0 <= mg <= green && 0 <= mb <= blue;
    assert mr * mg <= red * mg by {
      assert (red - mr) * mg >= 0;
    }
    assert red * mg <= red * green by {
      assert red * (green - mg) >= 0;
    }
    assert (mr * mg) * mb <= (red * green) * mb by {
      assert (red * green - mr * mg) * mb >= 0;
    }
    assert (red * green) * mb <= (red * green) * blue by {
      assert (red * green) * (blue - mb) >= 0;
    }
    assert Power(g).value == (mr * mg) * mb;
  }

  /**
    * The game with red counts `[4, 1]`, green `[2, 2]` and blue `[3, 6]`: the
    * lists the tokens of `Game 1: 3 blue, 4 red; 1 red, 2 green, 6 blue; 2 green`
    * give when read in order.
    */
  lemma SampleGame()
    ensures var g := Game(1, [4, 1], [2, 2], [3, 6]);
            MaxRed(g) == Ok(4) && MaxGreen(g) == Ok(2) && MaxBlue(g) == Ok(6)
            && IsPossible(g, 4, 2, 6) == Ok(true) && IsPossible(g, 3, 2, 6) == Ok(false)
            && IsPossible(g, DefaultRed, DefaultGreen, DefaultBlue) == Ok(true)
            && Power(g) == Ok(48)
  {
    var g := Game(1, [4, 1], [2, 2], [3, 6]);
    assert [4, 1][1..] == [1];
    assert [2, 2][1..] == [2];
    assert [3, 6][1..] == [6];
  }

  // ----------------------------------------------------------------------
  // Properties of parsing
  // ----------------------------------------------------------------------

  /** Each count lands in exactly one colour's list. */
  lemma {:induction false} CountsOfPartition(cs: seq<CubeCount>)
    requires ColorsOf(cs) <= {"red", "green", "blue"}
    ensures |CountsOf(cs, "red")| + |CountsOf(cs, "green")| + |CountsOf(cs, "blue")| == |cs|
    decreases |cs|
  {
    if cs != [] {
      var n := |cs| - 1;
      assert ColorsOf(cs[..n]) <= ColorsOf(cs);
      CountsOfPartition(cs[..n]);
    }
  }

  /** A parsed game holds, per colour, the counts of that colour among the parsed tokens. */
  lemma ParsedCounts(line: string) returns (cs: seq<CubeCount>)
    requires ParseGame(line).Ok?
    ensures ParseCubeCounts(Tokens(SplitOn(line, ':')[1])) == Ok(cs)
    ensures ColorsOf(cs) <= {"red", "green", "blue"}
    ensures var g := ParseGame(line).value;
            g.red == CountsOf(cs, "red") && g.green == CountsOf(cs, "green") && g.blue == CountsOf(cs, "blue")
  {
    var halves := SplitOn(line, ':');
    var id := FirstNumber(halves[0]).value;
    assert ParseGame(line) == ReadDraws(id, halves[1]);
    cs := ReadDrawsCounts(id, halves[1]);
  }

  /** The game read from the draws holds, per colour, the counts of that colour. */
  lemma ReadDrawsCounts(id: nat, draws: string) returns (cs: seq<CubeCount>)
    requires ReadDraws(id, draws).Ok?
    ensures ParseCubeCounts(Tokens(draws)) == Ok(cs)
    ensures ColorsOf(cs) <= {"red", "green", "blue"}
    ensures ReadDraws(id, draws) == Ok(Game(id, CountsOf(cs, "red"), CountsOf(cs, "green"), CountsOf(cs, "blue")))
  {
    cs := ParseCubeCounts(Tokens(draws)).value;
    assert TallyDraws(draws) == Ok(Tally(cs));
    TallyColors(cs);
  }

  /** The lists handed to the constructor are the counts of each colour. */
  lemma TallyColors(cs: seq<CubeCount>)
    ensures Lookup(Tally(cs), "red") == CountsOf(cs, "red")
    ensures Lookup(Tally(cs), "green") == CountsOf(cs, "green")
    ensures Lookup(Tally(cs), "blue") == CountsOf(cs, "blue")
  {
  }

  /** The colour words that occur are exactly those of the counts. */
  lemma {:induction false} ColorsOfMembers(cs: seq<CubeCount>, color: string)
    ensures color in ColorsOf(cs) <==> exists k :: 0 <= k < |cs| && cs[k].color == color
    decreases |cs|
  {
    if cs != [] {
      var n := |cs| - 1;
      ColorsOfMembers(cs[..n], color);
      if color in ColorsOf(cs[..n]) {
        var k :| 0 <= k < n && cs[..n][k].color == color;
        assert cs[k].color == color;
      }
      if exists k :: 0 <= k < |cs| && cs[k].color == color {
        var k :| 0 <= k < |cs| && cs[k].color == color;
        if k < n {
          assert cs[..n][k].color == color;
        }
      }
    }
  }

  /**
    * The draws of a record are rejected with ValueError when a token is not
    * `<n> <word>`, and otherwise with TypeError exactly when some token names
    * a colour other than red, green and blue.
    */
  lemma ReadDrawsColors(id: nat, draws: string)
    ensures ParseCubeCounts(Tokens(draws)).Err? ==> ReadDraws(id, draws) == Err(ValueError)
    ensures var counts := ParseCubeCounts(Tokens(draws));
            counts.Ok? ==>
              (ReadDraws(id, draws).Ok? <==> forall k :: 0 <= k < |counts.value| ==> IsColor(counts.value[k].color))
              && (ReadDraws(id, draws).Err? ==> ReadDraws(id, draws) == Err(TypeError))
  {
    var counts := ParseCubeCounts(Tokens(draws));
    if counts.Ok? {
      var cs := counts.value;
      assert TallyDraws(draws) == Ok(Tally(cs));
      ColorsAllowed(cs);
    }
  }

  /** The colour words are all accepted keywords exactly when every count names red, green or blue. */
  lemma ColorsAllowed(cs: seq<CubeCount>)
    ensures ColorsOf(cs) <= {"red", "green", "blue"} <==> forall k :: 0 <= k < |cs| ==> IsColor(cs[k].color)
  {
    if ColorsOf(cs) <= {"red", "green", "blue"} {
      forall k | 0 <= k < |cs|
        ensures IsColor(cs[k].color)
      {
        ColorsOfMembers(cs, cs[k].color);
      }
    } else {
      var color :| color in ColorsOf(cs) && color !in {"red", "green", "blue"};
      ColorsOfMembers(cs, color);
    }
  }

  /** A parsed game's id is the first digit run of the text before its one `:`, and the draws follow it. */
  lemma ParseGameId(line: string)
    requires ParseGame(line).Ok?
    ensures var halves := SplitOn(line, ':');
            |halves| == 2 && line == halves[0] + [':'] + halves[1]
            && ':' !in halves[0] && ':' !in halves[1]
            && FirstNumber(halves[0]) == Some(ParseGame(line).value.id)
  {
    var halves := SplitOn(line, ':');
    SplitOnCount(line, ':');
    SplitOnTwo(line, ':');
    var id := FirstNumber(halves[0]).value;
    assert ParseGame(line) == ReadDraws(id, halves[1]);
    var cs := ReadDrawsCounts(id, halves[1]);
  }

  /** A parsed game keeps every token of its record: the three lists hold one count per token. */
  lemma ParseGameKeepsEveryToken(line: string)
    requires ParseGame(line).Ok?
    ensures var g := ParseGame(line).value;
            |g.red| + |g.green| + |g.blue| == |Tokens(SplitOn(line, ':')[1])|
  {
    var cs := ParsedCounts(line);
    CountsOfPartition(cs);
  }

  /** A count in a colour's list comes from a token of that colour. */
  lemma {:induction false} CountsOfFrom(cs: seq<CubeCount>, color: string, x: int)
    requires x in CountsOf(cs, color)
    ensures exists k :: 0 <= k < |cs| && cs[k] == CubeCount(x, color)
    decreases |cs|
  {
    var n := |cs| - 1;
    if x in CountsOf(cs[..n], color) {
      CountsOfFrom(cs[..n], color, x);
      var k :| 0 <= k < n && cs[..n][k] == CubeCount(x, color);
      assert cs[k] == CubeCount(x, color);
    } else {
      assert cs[n] == CubeCount(x, color);
    }
  }

  /** Every token of the record comes from one of its draws. */
  lemma {:induction false} FlattenMember(xss: seq<seq<string>>, t: string)
    requires t in Flatten(xss)
    ensures exists i :: 0 <= i < |xss| && t in xss[i]
    decreases |xss|
  {
    var n := |xss| - 1;
    if t in Flatten(xss[..n]) {
      FlattenMember(xss[..n], t);
      var i :| 0 <= i < n && t in xss[..n][i];
      assert xss[i] == xss[..n][i];
    } else {
      assert t in xss[n];
    }
  }

  /** A record without a minus sign yields no negative count. */
  lemma ParseGameNonnegative(line: string)
    requires '-' !in line
    requires ParseGame(line).Ok?
    ensures NonnegativeCounts(ParseGame(line).value)
  {
    var draws := SplitOn(line, ':')[1];
    assert '-' !in draws;
    var tokens := Tokens(draws);
    var cs := ParsedCounts(line);
    forall k | 0 <= k < |cs|
      ensures cs[k].count >= 0
    {
      FlattenMember(DrawTokens(draws), tokens[k]);
      var i :| 0 <= i < |DrawTokens(draws)| && tokens[k] in DrawTokens(draws)[i];
      assert '-' !in SplitOn(draws, ';')[i];
      assert '-' !in tokens[k];
      ParseCubeCountSpec(tokens[k]);
      var w := Words(tokens[k])[0];
      assert w[0] in w;
    }
    forall color, x | x in CountsOf(cs, color)
      ensures x >= 0
    {
      CountsOfFrom(cs, color, x);
    }
  }

  // ----------------------------------------------------------------------
  // The answers of part one and part two
  // ----------------------------------------------------------------------

  /** `[Game.from_line(line) for line in file]`: the games, or the error of the first bad line. */
  function ParseGames(lines: seq<string>): (r: Result<seq<Game>>)
    ensures r.Ok? <==> forall k :: 0 <= k < |lines| ==> ParseGame(lines[k]).Ok?
    ensures r.Ok? ==> |r.value| == |lines| && forall k :: 0 <= k < |lines| ==> ParseGame(lines[k]) == Ok(r.value[k])
    ensures r.Err? ==> exists k :: 0 <= k < |lines| && ParseGame(lines[k]) == Err(r.exc)
                         && forall j :: 0 <= j < k ==> ParseGame(lines[j]).Ok?
  {
    var rs := seq(|lines|, k requires 0 <= k < |lines| => ParseGame(lines[k]));
    assert forall k :: 0 <= k < |lines| ==> rs[k] == ParseGame(lines[k]);
    AllOk(rs)
  }

  /** The sum of all ids. */
  function SumIds(games: seq<Game>): nat
    decreases |games|
  {
    if games == [] then 0 else games[0].id + SumIds(games[1..])
  }

  /** `sum(game.id for game in games if game.is_possible(red, green, blue))`. */
  function SumPossibleIds(games: seq<Game>, red: int, green: int, blue: int): (r: Result<int>)
    ensures r.Ok? <==> forall k :: 0 <= k < |games| ==> HasAllColors(games[k])
    ensures r.Err? ==> r == Err(ValueError)
    ensures r.Ok? ==> 0 <= r.value <= SumIds(games)
    decreases |games|
  {
    if games == [] then Ok(0)
    else
      match IsPossible(games[0], red, green, blue)
      case Err(e) => Err(e)
      case Ok(possible) =>
        match SumPossibleIds(games[1..], red, green, blue)
        case Err(e) => Err(e)
        case Ok(rest) =>
          assert forall k :: 0 <= k < |games| - 1 ==> games[1..][k] == games[k + 1];
          Ok((if possible then games[0].id else 0) + rest)
  }

  /** `sum(game.power for game in games)`. */
  function SumPowers(games: seq<Game>): (r: Result<int>)
    ensures r.Ok? <==> forall k :: 0 <= k < |games| ==> HasAllColors(games[k])
    ensures r.Err? ==> r == Err(ValueError)
    decreases |games|
  {
    if games == [] then Ok(0)
    else
      match Power(games[0])
      case Err(e) => Err(e)
      case Ok(p) =>
        match SumPowers(games[1..])
        case Err(e) => Err(e)
        case Ok(rest) =>
          assert forall k :: 0 <= k < |games| - 1 ==> games[1..][k] == games[k + 1];
          Ok(p + rest)
  }

  /** `parse_file_part_one`. */
  function PartOne(lines: seq<string>, red: int, green: int, blue: int): (r: Result<int>)
    ensures r.Ok? ==> r.value >= 0
    ensures r.Ok? <==> ParseGames(lines).Ok? && forall k :: 0 <= k < |lines| ==> HasAllColors(ParseGames(lines).value[k])
  {
    match ParseGames(lines)
    case Err(e) => Err(e)
    case Ok(games) => SumPossibleIds(games, red, green, blue)
  }

  /** `parse_file_part_two`. */
  function PartTwo(lines: seq<string>): (r: Result<int>)
    ensures r.Ok? <==> ParseGames(lines).Ok? && forall k :: 0 <= k < |lines| ==> HasAllColors(ParseGames(lines).value[k])
  {
    match ParseGames(lines)
    case Err(e) => Err(e)
    case Ok(games) => SumPowers(games)
  }

  /** When every game is possible, part one is the sum of all ids. */
  lemma {:induction false} SumPossibleIdsAllPossible(games: seq<Game>, red: int, green: int, blue: int)
    requires forall k :: 0 <= k < |games| ==> IsPossible(games[k], red, green, blue) == Ok(true)
    ensures SumPossibleIds(games, red, green, blue) == Ok(SumIds(games))
    decreases |games|
  {
    if games != [] {
      assert forall k :: 0 <= k < |games| - 1 ==> games[1..][k] == games[k + 1];
      SumPossibleIdsAllPossible(games[1..], red, green, blue);
    }
  }

  /** When no game is possible, part one is 0. */
  lemma {:induction false} SumPossibleIdsNonePossible(games: seq<Game>, red: int, green: int, blue: int)
    requires forall k :: 0 <= k < |games| ==> IsPossible(games[k], red, green, blue) == Ok(false)
    ensures SumPossibleIds(games, red, green, blue) == Ok(0)
    decreases |games|
  {
    if games != [] {
      assert forall k :: 0 <= k < |games| - 1 ==> games[1..][k] == games[k + 1];
      SumPossibleIdsNonePossible(games[1..], red, green, blue);
    }
  }

  /** Larger limits never lower the answer of part one. */
  lemma {:induction false} SumPossibleIdsMonotone(games: seq<Game>, red: int, green: int, blue: int,
                                                  red': int, green': int, blue': int)
    requires red <= red' && green <= green' && blue <= blue'
    requires SumPossibleIds(games, red, green, blue).Ok?
    ensures SumPossibleIds(games, red', green', blue').Ok?
    ensures SumPossibleIds(games, red, green, blue).value <= SumPossibleIds(games, red', green', blue').value
    decreases |games|
  {
    if games != [] {
      assert forall k :: 0 <= k < |games| - 1 ==> games[1..][k] == games[k + 1];
      SumPossibleIdsMonotone(games[1..], red, green, blue, red', green', blue');
      if IsPossible(games[0], red, green, blue) == Ok(true) {
        IsPossibleMonotone(games[0], red, green, blue, red', green', blue');
      }
    }
  }

  /** The sum of powers splits over any division of the games; one game contributes its power. */
  lemma {:induction false} SumPowersAppend(a: seq<Game>, b: seq<Game>)
    requires SumPowers(a).Ok? && SumPowers(b).Ok?
    ensures SumPowers(a + b) == Ok(SumPowers(a).value + SumPowers(b).value)
    ensures |a| == 1 ==> SumPowers(a) == Power(a[0])
    decreases |a|
  {
    if a == [] {
      assert a + b == b;
    } else {
      assert (a + b)[0] == a[0] && (a + b)[1..] == a[1..] + b;
      SumPowersAppend(a[1..], b);
      if |a| == 1 {
        assert a[1..] == [];
      }
    }
  }

  /** With non-negative counts everywhere, part two is non-negative. */
  lemma {:induction false} SumPowersNonnegative(games: seq<Game>)
    requires forall k :: 0 <= k < |games| ==> NonnegativeCounts(games[k]) && HasAllColors(games[k])
    ensures SumPowers(games).Ok? && SumPowers(games).value >= 0
    decreases |games|
  {
    if games != [] {
      assert forall k :: 0 <= k < |games| - 1 ==> games[1..][k] == games[k + 1];
      PowerNonnegative(games[0]);
      SumPowersNonnegative(games[1..]);
    }
  }
}
