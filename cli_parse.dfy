/**
 * The move-text parser of the command line: a rank token to a Rank, and an input line to the
 * command or the Move it names. Characters are those of the C locale: isspace, isdigit, toupper
 * and tolower only look at ASCII.
 */
module CliParse {
  import opened Wrappers
  import opened Ranks
  import opened GameStates

  // ---------------------------------------------------------------------------------------------
  // Characters

  /** std::isspace: space, tab, newline, vertical tab, form feed, carriage return. */
  predicate IsSpace(c: char) {
    c == ' ' || '\t' <= c <= '\r'
  }

  /** std::isdigit */
  predicate IsDigit(c: char) {
    '0' <= c <= '9'
  }

  /** The " \t" set that find_first_not_of and find_last_not_of skip. */
  predicate IsBlank(c: char) {
    c == ' ' || c == '\t'
  }

  /** std::toupper */
  function UpperChar(c: char): (u: char)
    ensures 'a' <= c <= 'z' ==> u as int == c as int - 32
    ensures !('a' <= c <= 'z') ==> u == c
  {
    if 'a' <= c <= 'z' then (c as int - 32) as char else c
  }

  /** std::tolower */
  function LowerChar(c: char): (l: char)
    ensures 'A' <= c <= 'Z' ==> l as int == c as int + 32
    ensures !('A' <= c <= 'Z') ==> l == c
  {
    if 'A' <= c <= 'Z' then (c as int + 32) as char else c
  }

  function UpperStr(s: string): (u: string)
    ensures |u| == |s| && forall i :: 0 <= i < |s| ==> u[i] == UpperChar(s[i])
  {
    seq(|s|, i requires 0 <= i < |s| => UpperChar(s[i]))
  }

  function LowerStr(s: string): (l: string)
    ensures |l| == |s| && forall i :: 0 <= i < |s| ==> l[i] == LowerChar(s[i])
  {
    seq(|s|, i requires 0 <= i < |s| => LowerChar(s[i]))
  }

  // ---------------------------------------------------------------------------------------------
  // Rank tokens

  /** The token with every whitespace character dropped and every letter upper-cased. */
  function Normalize(token: string): (n: string)
    ensures |n| <= |token|
    ensures forall i :: 0 <= i < |n| ==> !IsSpace(n[i]) && !('a' <= n[i] <= 'z')
  {
    if token == [] then []
    else
      var c := token[|token| - 1];
      Normalize(token[..|token| - 1]) + (if IsSpace(c) then [] else [UpperChar(c)])
  }

  predicate AllDigits(s: string) {
    forall i :: 0 <= i < |s| ==> IsDigit(s[i])
  }

  /** The decimal value of a string of digits. */
  function DigitsValue(s: string): (v: nat)
    requires AllDigits(s)
  {
    if s == [] then 0 else DigitsValue(s[..|s| - 1]) * 10 + (s[|s| - 1] as int - '0' as int)
  }

  const INT_MAX: int := 0x7fff_ffff

  /** std::stoi on a non-empty string of digits: its value, or out_of_range above INT_MAX. */
  function Stoi(s: string): (v: Option<int>)
    requires s != [] && AllDigits(s)
    ensures v.Some? <==> DigitsValue(s) <= INT_MAX
    ensures v.Some? ==> v.value == DigitsValue(s)
  {
    var value := DigitsValue(s);
    if value > INT_MAX then None else Some(value)
  }

  /** The name test of iteration i: the upper-cased rank_to_str of int_to_rank(i) is the normalized token. */
  predicate NameMatches(n: string, i: int)
    requires 1 <= i <= NUM_RANKS
  {
    UpperStr(RankToStr(OrdinalRank(i))) == n
  }

  /** The number test of iteration i: the token is all digits and stoi gives i. */
  predicate NumberMatches(n: string, i: int) {
    n != [] && AllDigits(n) && Stoi(n) == Some(i)
  }

  /** The scan over i = from..NUM_RANKS: the first rank whose name or number the token is. */
  function MatchFrom(n: string, from: int): (r: Option<Rank>)
    requires 1 <= from <= NUM_RANKS + 1
    ensures r.Some? ==> r.value != Invalid
    decreases NUM_RANKS + 1 - from
  {
    if from > NUM_RANKS then None
    else if NameMatches(n, from) || NumberMatches(n, from) then Some(OrdinalRank(from))
    else MatchFrom(n, from + 1)
  }

  /** try_parse_rank_token: nothing for an empty token, otherwise the scan over the ten ranks. */
  function ParseRankToken(token: string): (r: Option<Rank>)
    ensures r.Some? ==> r.value != Invalid
  {
    if token == [] then None else MatchFrom(Normalize(token), 1)
  }

  /** Rank names are already upper case. */
  lemma NamesAreUpper(r: Rank)
    ensures UpperStr(RankToStr(r)) == RankToStr(r)
  {
  }

  /** A token is the name of at most one rank's iteration, and its name and number agree. */
  lemma MatchesAreUnique(n: string, i: int, j: int)
    requires 1 <= i <= NUM_RANKS && 1 <= j <= NUM_RANKS
    requires NameMatches(n, i) || NumberMatches(n, i)
    requires NameMatches(n, j) || NumberMatches(n, j)
    ensures i == j
  {
    NamesAreUpper(OrdinalRank(i));
    NamesAreUpper(OrdinalRank(j));
    if NameMatches(n, i) && NameMatches(n, j) {
      RankToStrInjective(OrdinalRank(i), OrdinalRank(j));
    } else if NameMatches(n, i) {
      SingleDigitName(n, i);
    } else if NameMatches(n, j) {
      SingleDigitName(n, j);
    }
  }

  /** A rank name made of digits is the number of its own iteration. */
  lemma SingleDigitName(n: string, i: int)
    requires 1 <= i <= NUM_RANKS && n == RankToStr(OrdinalRank(i)) && n != [] && AllDigits(n)
    ensures Stoi(n) == Some(i)
  {
    assert n[..|n| - 1] == [];
    assert DigitsValue(n) == n[0] as int - '0' as int;
    assert 2 <= i <= 7;
  }

  /** The scan from `from` returns the rank of the one matching iteration at or after it. */
  lemma {:induction false} MatchFromFinds(n: string, from: int, j: int)
    requires 1 <= from <= j <= NUM_RANKS
    requires NameMatches(n, j) || NumberMatches(n, j)
    ensures MatchFrom(n, from) == Some(OrdinalRank(j))
    decreases j - from
  {
    if from < j {
      if NameMatches(n, from) || NumberMatches(n, from) {
        MatchesAreUnique(n, from, j);
      }
      MatchFromFinds(n, from + 1, j);
    }
  }

  /** When the scan from `from` returns a rank, some iteration at or after it matched that rank. */
  lemma {:induction false} MatchFromFound(n: string, from: int) returns (j: int)
    requires 1 <= from <= NUM_RANKS + 1 && MatchFrom(n, from).Some?
    ensures from <= j <= NUM_RANKS && (NameMatches(n, j) || NumberMatches(n, j))
    ensures MatchFrom(n, from) == Some(OrdinalRank(j))
    decreases NUM_RANKS + 1 - from
  {
    if NameMatches(n, from) || NumberMatches(n, from) {
      j := from;
    } else {
      j := MatchFromFound(n, from + 1);
    }
  }

  /**
   * What try_parse_rank_token accepts: a non-empty token whose normalized form is a rank's name,
   * or is all digits with that rank's position 1..10 as its value. The rank is then unique.
   */
  lemma ParseRankTokenMeaning(token: string, r: Rank)
    ensures ParseRankToken(token) == Some(r) <==>
      token != [] && r != Invalid &&
      (Normalize(token) == RankToStr(r) ||
       (Normalize(token) != [] && AllDigits(Normalize(token)) && DigitsValue(Normalize(token)) == Ordinal(r)))
  {
    var n := Normalize(token);
    if ParseRankToken(token) == Some(r) {
      var j := MatchFromFound(n, 1);
      NamesAreUpper(r);
    }
    if token != [] && r != Invalid && (n == RankToStr(r) || (n != [] && AllDigits(n) && DigitsValue(n) == Ordinal(r))) {
      NamesAreUpper(r);
      OrdinalInjective(r, OrdinalRank(Ordinal(r)));
      MatchFromFinds(n, 1, Ordinal(r));
    }
  }

  /** Normalizing distributes over concatenation. */
  lemma {:induction false} NormalizeAppend(a: string, b: string)
    ensures Normalize(a + b) == Normalize(a) + Normalize(b)
  {
    if b == [] {
      assert a + b == a;
    } else {
      var init := b[..|b| - 1];
      NormalizeAppend(a, init);
      assert (a + b)[..|a + b| - 1] == a + init;
    }
  }

  /** A token with no whitespace and no lower-case letter is its own normal form. */
  lemma {:induction false} NormalizeKeeps(t: string)
    requires forall i :: 0 <= i < |t| ==> !IsSpace(t[i]) && !('a' <= t[i] <= 'z')
    ensures Normalize(t) == t
  {
    if t != [] {
      NormalizeKeeps(t[..|t| - 1]);
    }
  }

  /** A token made of whitespace only normalizes to nothing. */
  lemma {:induction false} NormalizeSpaces(t: string)
    requires forall i :: 0 <= i < |t| ==> IsSpace(t[i])
    ensures Normalize(t) == []
  {
    if t != [] {
      NormalizeSpaces(t[..|t| - 1]);
    }
  }

  /** No iteration matches the empty normalized token. */
  lemma {:induction false} MatchFromEmpty(from: int)
    requires 1 <= from <= NUM_RANKS + 1
    ensures MatchFrom([], from) == None
    decreases NUM_RANKS + 1 - from
  {
    if from <= NUM_RANKS {
      MatchFromEmpty(from + 1);
    }
  }

  /** A whitespace character anywhere in a token changes nothing, even when it is the whole token. */
  lemma WhitespaceIgnored(a: string, c: char, b: string)
    requires IsSpace(c)
    ensures ParseRankToken(a + [c] + b) == ParseRankToken(a + b)
  {
    NormalizeDropsSpace(a, c, b);
    if a + b == [] {
      MatchFromEmpty(1);
    }
  }

  lemma NormalizeDropsSpace(a: string, c: char, b: string)
    requires IsSpace(c)
    ensures Normalize(a + [c] + b) == Normalize(a + b)
  {
    NormalizeAppend(a + [c], b);
    NormalizeAppend(a, [c]);
    NormalizeAppend(a, b);
    assert [c][..0] == [];
    assert Normalize([c]) == [];
  }

  /** An empty or all-whitespace token names no rank. */
  lemma BlankTokenRejected(t: string)
    requires forall i :: 0 <= i < |t| ==> IsSpace(t[i])
    ensures ParseRankToken(t) == None
  {
    NormalizeSpaces(t);
    MatchFromEmpty(1);
  }

  /** rank_to_str round-trips through the parser, in upper and in lower case. */
  lemma RankNameRoundTrip(r: Rank)
    requires r != Invalid
    ensures ParseRankToken(RankToStr(r)) == Some(r)
    ensures ParseRankToken(LowerStr(RankToStr(r))) == Some(r)
  {
    var name := RankToStr(r);
    var lower := LowerStr(name);
    assert name[..0] == [] && lower[..0] == [];
    assert Normalize(lower) == [UpperChar(lower[0])];
    ParseRankTokenMeaning(name, r);
    ParseRankTokenMeaning(lower, r);
  }

  /** An all-digit token whose value is 1..10 names the rank at that position, leading zeros and all. */
  lemma NumeralToken(t: string)
    requires t != [] && AllDigits(t) && 1 <= DigitsValue(t) <= NUM_RANKS
    ensures ParseRankToken(t) == Some(OrdinalRank(DigitsValue(t)))
  {
    NormalizeKeeps(t);
    ParseRankTokenMeaning(t, OrdinalRank(DigitsValue(t)));
  }

  /** A single digit 1..9 names the rank at that position: "1" is Ace, "8" is Jack and "9" is Queen. */
  lemma SingleDigitNumeral(d: char)
    requires '1' <= d <= '9'
    ensures ParseRankToken([d]) == Some(OrdinalRank(d as int - '0' as int))
    ensures d == '8' ==> ParseRankToken([d]) == Some(Jack)
    ensures d == '9' ==> ParseRankToken([d]) == Some(Queen)
  {
    OneDigitValue([d]);
    NumeralToken([d]);
  }

  /** "10" is King. */
  lemma TenNumeral()
    ensures ParseRankToken("10") == Some(King)
  {
    TwoDigitValue("10");
    NumeralToken("10");
  }

  /** A leading zero is accepted: "07" is Seven. */
  lemma LeadingZeroNumeral()
    ensures ParseRankToken("07") == Some(Seven)
  {
    TwoDigitValue("07");
    NumeralToken("07");
  }

  lemma OneDigitValue(t: string)
    requires |t| == 1 && AllDigits(t)
    ensures DigitsValue(t) == t[0] as int - '0' as int
  {
    assert t[..0] == [];
  }

  lemma TwoDigitValue(t: string)
    requires |t| == 2 && AllDigits(t)
    ensures DigitsValue(t) == (t[0] as int - '0' as int) * 10 + (t[1] as int - '0' as int)
  {
    OneDigitValue(t[..1]);
  }

  /** The first loop of try_parse_rank_token: drop whitespace, upper-case the rest. */
  method NormalizeToken(token: string) returns (normalized: string)
    ensures normalized == Normalize(token)
  {
    normalized := "";
    for k := 0 to |token|
      invariant normalized == Normalize(token[..k])
    {
      assert token[..k + 1][..k] == token[..k];
      var ch := token[k];
      if !IsSpace(ch) {
        normalized := normalized + [UpperChar(ch)];
      }
    }
    assert token[..|token|] == token;
  }

  /** The rs_upper loop: a rank name upper-cased character by character. */
  method UpperName(rs: string) returns (rsUpper: string)
    ensures rsUpper == UpperStr(rs)
  {
    rsUpper := "";
    for k := 0 to |rs|
      invariant rsUpper == UpperStr(rs[..k])
    {
      rsUpper := rsUpper + [UpperChar(rs[k])];
    }
    assert rs[..|rs|] == rs;
  }

  /** The `numeric` loop: non-empty, and no character fails isdigit; it stops at the first that does. */
  method IsNumeric(normalized: string) returns (numeric: bool)
    ensures numeric <==> normalized != [] && AllDigits(normalized)
  {
    numeric := normalized != [];
    for k := 0 to |normalized|
      invariant numeric == (normalized != [] && AllDigits(normalized[..k]))
    {
      if !IsDigit(normalized[k]) {
        numeric := false;
        break;
      }
    }
  }

  /** try_parse_rank_token, as written: normalize, then the ten iterations with their name and number tests. */
  method TryParseRankToken(token: string) returns (r: Option<Rank>)
    ensures r == ParseRankToken(token)
  {
    if token == [] {
      return None;
    }
    var normalized := NormalizeToken(token);
    for i := 1 to NUM_RANKS + 1
      invariant MatchFrom(normalized, i) == ParseRankToken(token)
    {
      var rank := IntToRank(i).value;
      var rsUpper := UpperName(RankToStr(rank));
      if rsUpper == normalized {
        return Some(rank);
      }
      var numeric := IsNumeric(normalized);
      if numeric {
        var value := Stoi(normalized);
        if value == Some(i) {
          return Some(rank);
        }
      }
    }
    return None;
  }

  // ---------------------------------------------------------------------------------------------
  // Input lines

  /** The bots a line can pick, with the Monte Carlo iteration counts they are built with. */
  datatype BotLevel = Child | Robot | Man | Cheat {
    function McIters(): (n: nat)
      ensures n >= 1
    {
      match this
      case Child => 1
      case Robot => 10
      case Man => 1000
      case Cheat => 10000
    }
  }

  /** InputData: what a line asked for. Every field defaults to absent or false. */
  datatype InputData = InputData(
    bot: Option<BotLevel>,
    move: Option<Move>,
    playBot: bool,
    playHuman: bool,
    botStats: bool,
    help: bool,
    quit: bool,
    err: bool)

  /** InputData {} */
  const NO_INPUT: InputData := InputData(None, None, false, false, false, false, false, false)

  /** InputData { .err = true } */
  const ERR_INPUT: InputData := NO_INPUT.(err := true)

  /** A line asks for exactly one thing: an error, a command, a bot or a move. */
  predicate OneOutcome(d: InputData) {
    !d.botStats &&
    (if d.err then 1 else 0) + (if d.help then 1 else 0) + (if d.quit then 1 else 0) +
    (if d.playBot then 1 else 0) + (if d.playHuman then 1 else 0) +
    (if d.bot.Some? then 1 else 0) + (if d.move.Some? then 1 else 0) == 1
  }

  /** find_first_not_of(" \t", i): the first non-blank position at or after i. */
  function FirstNotBlankFrom(s: string, i: nat): (p: Option<nat>)
    requires i <= |s|
    ensures p.Some? ==> i <= p.value < |s| && !IsBlank(s[p.value])
    decreases |s| - i
  {
    if i == |s| then None else if !IsBlank(s[i]) then Some(i) else FirstNotBlankFrom(s, i + 1)
  }

  /** find_last_not_of(" \t") over the first j characters: the last non-blank position before j. */
  function LastNotBlankBefore(s: string, j: nat): (p: Option<nat>)
    requires j <= |s|
    ensures p.Some? ==> p.value < j && !IsBlank(s[p.value])
  {
    if j == 0 then None else if !IsBlank(s[j - 1]) then Some(j - 1) else LastNotBlankBefore(s, j - 1)
  }

  /** The search finds nothing exactly when only blanks follow, and skips only blanks. */
  lemma {:induction false} FirstNotBlankMeaning(s: string, i: nat)
    requires i <= |s|
    ensures FirstNotBlankFrom(s, i).None? <==> forall k :: i <= k < |s| ==> IsBlank(s[k])
    ensures FirstNotBlankFrom(s, i).Some? ==> forall k :: i <= k < FirstNotBlankFrom(s, i).value ==> IsBlank(s[k])
    decreases |s| - i
  {
    if i < |s| && IsBlank(s[i]) {
      FirstNotBlankMeaning(s, i + 1);
    }
  }

  /** The backward search finds nothing exactly when only blanks precede, and skips only blanks. */
  lemma {:induction false} LastNotBlankMeaning(s: string, j: nat)
    requires j <= |s|
    ensures LastNotBlankBefore(s, j).None? <==> forall k :: 0 <= k < j ==> IsBlank(s[k])
    ensures LastNotBlankBefore(s, j).Some? ==> forall k :: LastNotBlankBefore(s, j).value < k < j ==> IsBlank(s[k])
  {
    if j > 0 && IsBlank(s[j - 1]) {
      LastNotBlankMeaning(s, j - 1);
    }
  }

  /** Both searches fail together, and when they succeed the first position comes no later than the last. */
  lemma SearchesAgree(s: string)
    ensures FirstNotBlankFrom(s, 0).None? <==> LastNotBlankBefore(s, |s|).None?
    ensures FirstNotBlankFrom(s, 0).Some? ==> FirstNotBlankFrom(s, 0).value <= LastNotBlankBefore(s, |s|).value
  {
    FirstNotBlankMeaning(s, 0);
    LastNotBlankMeaning(s, |s|);
  }

  /** The line without its leading and trailing spaces and tabs; nothing when it is all blanks. */
  function Trim(s: string): (t: Option<string>)
    ensures t.Some? ==> t.value != [] && !IsBlank(t.value[0]) && !IsBlank(t.value[|t.value| - 1])
  {
    SearchesAgree(s);
    match LastNotBlankBefore(s, |s|)
    case None => None
    case Some(e) =>
      var b := FirstNotBlankFrom(s, 0).value;
      Some(s[b..e + 1])
  }

  /** Trimming fails exactly on a line of blanks. */
  lemma TrimMeaning(s: string)
    ensures Trim(s).None? <==> forall k :: 0 <= k < |s| ==> IsBlank(s[k])
  {
    LastNotBlankMeaning(s, |s|);
  }

  /** find(c): the first position holding c. */
  function FindFrom(s: string, c: char, i: nat): (p: Option<nat>)
    requires i <= |s|
    ensures p.None? <==> forall k :: i <= k < |s| ==> s[k] != c
    ensures p.Some? ==> i <= p.value < |s| && s[p.value] == c && forall k :: i <= k < p.value ==> s[k] != c
    decreases |s| - i
  {
    if i == |s| then None else if s[i] == c then Some(i) else FindFrom(s, c, i + 1)
  }

  /** The eight fixed commands, compared after trimming and lower-casing. */
  function Command(input: string): (c: Option<InputData>)
    ensures c.Some? ==> OneOutcome(c.value) && !c.value.err && c.value.move.None?
  {
    if input == "help" then Some(NO_INPUT.(help := true))
    else if input == "quit" then Some(NO_INPUT.(quit := true))
    else if input == "play bot" then Some(NO_INPUT.(playBot := true))
    else if input == "play human" then Some(NO_INPUT.(playHuman := true))
    else if input == "play child" then Some(NO_INPUT.(bot := Some(Child)))
    else if input == "play robot" then Some(NO_INPUT.(bot := Some(Robot)))
    else if input == "play man" then Some(NO_INPUT.(bot := Some(Man)))
    else if input == "play cheat" then Some(NO_INPUT.(bot := Some(Cheat)))
    else None
  }

  /** The text around '+' signs: the pieces between them, in order. */
  function Split(s: string): (ps: seq<string>)
    ensures |ps| >= 1
    ensures forall k :: 0 <= k < |ps| ==> '+' !in ps[k]
  {
    if s == [] then [[]]
    else
      var ps := Split(s[..|s| - 1]);
      var c := s[|s| - 1];
      if c == '+' then ps + [[]] else ps[..|ps| - 1] + [ps[|ps| - 1] + [c]]
  }

  /** Pieces joined back with '+' between them. */
  function Join(ps: seq<string>): string
    requires |ps| >= 1
  {
    if |ps| == 1 then ps[0] else Join(ps[..|ps| - 1]) + "+" + ps[|ps| - 1]
  }

  /** Split cuts exactly at the '+' signs: joining the pieces gives the text back. */
  lemma {:induction false} SplitJoin(s: string)
    ensures Join(Split(s)) == s
  {
    if s != [] {
      var init, c := s[..|s| - 1], s[|s| - 1];
      var ps := Split(init);
      SplitJoin(init);
      if c == '+' {
        assert (ps + [[]])[..|ps|] == ps;
      } else {
        var qs := ps[..|ps| - 1] + [ps[|ps| - 1] + [c]];
        if |ps| > 1 {
          assert qs[..|qs| - 1] == ps[..|ps| - 1];
        }
      }
      assert init + [c] == s;
    }
  }

  /** finish_token: a blank token fails; otherwise its trimmed text must parse as a rank. */
  function TokenRank(tok: string): Option<Rank> {
    match Trim(tok)
    case None => None
    case Some(t) => ParseRankToken(t)
  }

  /** Every token parsed, in order, or nothing as soon as one fails. */
  function ParseAll(toks: seq<string>): (rs: Option<seq<Rank>>)
    ensures rs.Some? ==> |rs.value| == |toks|
  {
    if toks == [] then Some([])
    else
      match ParseAll(toks[..|toks| - 1])
      case None => None
      case Some(rs) =>
        match TokenRank(toks[|toks| - 1])
        case None => None
        case Some(r) => Some(rs + [r])
  }

  /** ParseAll succeeds exactly when every token names a rank, and then lists those ranks in order. */
  lemma {:induction false} ParseAllMeaning(toks: seq<string>)
    ensures ParseAll(toks).Some? <==> forall k :: 0 <= k < |toks| ==> TokenRank(toks[k]).Some?
    ensures ParseAll(toks).Some? ==> forall k :: 0 <= k < |toks| ==> TokenRank(toks[k]) == Some(ParseAll(toks).value[k])
  {
    if toks != [] {
      var init, last := toks[..|toks| - 1], toks[|toks| - 1];
      ParseAllMeaning(init);
      var head, tail := ParseAll(init), TokenRank(last);
      if head.Some? && tail.Some? {
        var rs := head.value + [tail.value];
        assert ParseAll(toks) == Some(rs);
        forall k | 0 <= k < |toks|
          ensures TokenRank(toks[k]) == Some(rs[k])
        {
          if k < |init| {
            assert toks[k] == init[k];
          }
        }
      } else if head.None? {
        var k :| 0 <= k < |init| && TokenRank(init[k]).None?;
        assert toks[k] == init[k];
      }
    }
  }

  /**
   * The tokens the loop over the right-hand side finishes: the piece before each '+', and the
   * piece after the last '+' only when it is not empty.
   */
  function TargetTokens(rhs: string): seq<string> {
    var ps := Split(rhs);
    if ps[|ps| - 1] == [] then ps[..|ps| - 1] else ps
  }

  function TargetRanks(rhs: string): Option<seq<Rank>> {
    ParseAll(TargetTokens(rhs))
  }

  /** The OR of the ranks' masks. */
  function MaskOf(rs: seq<Rank>): RankMask {
    if rs == [] then {} else MaskOf(rs[..|rs| - 1]) + rs[|rs| - 1].Bit()
  }

  /** The OR holds every rank's bit and nothing else. */
  lemma {:induction false} MaskOfMeaning(rs: seq<Rank>)
    ensures forall k :: 0 <= k < |rs| ==> rs[k].Bit() <= MaskOf(rs)
    ensures forall x :: x in MaskOf(rs) ==> exists k :: 0 <= k < |rs| && x in rs[k].Bit()
  {
    if rs != [] {
      var init := rs[..|rs| - 1];
      MaskOfMeaning(init);
      assert forall k :: 0 <= k < |init| ==> rs[k] == init[k];
    }
  }

  /** The text before the first '=' and the text after it; all of it and nothing without one. */
  function SplitAtEq(input: string): (string, string) {
    match FindFrom(input, '=', 0)
    case Some(p) => (input[..p], input[p + 1..])
    case None => (input, "")
  }

  /** The targets of a move line: none for an empty right-hand side, else the OR of its tokens' ranks. */
  function TargetsMask(rhs: string): Option<RankMask> {
    if rhs == [] then Some({})
    else
      match TargetRanks(rhs)
      case None => None
      case Some(rs) => Some(MaskOf(rs))
  }

  /** A move line: the rank before the first '=', and the '+'-separated targets after it. */
  function ParseMoveText(input: string): (d: InputData)
    ensures d == ERR_INPUT || (d.move.Some? && d == NO_INPUT.(move := d.move))
    ensures d.move.Some? ==> HoldsARank(d.move.value)
  {
    var (lhs, rhs) := SplitAtEq(input);
    match ParseRankToken(lhs)
    case None => ERR_INPUT
    case Some(played) =>
      match TargetsMask(rhs)
      case None => ERR_INPUT
      case Some(targets) =>
        TargetsBelowKing(rhs);
        PlayedBitHoldsARank(targets, played);
        NO_INPUT.(move := Some(Move(targets + played.Bit())))
  }

  /** Adding a real rank's bit to targets below King gives a move that holds a rank. */
  lemma PlayedBitHoldsARank(targets: RankMask, played: Rank)
    requires played != Invalid && targets * HIGH_BITS == {}
    ensures HoldsARank(Move(targets + played.Bit()))
  {
    assert Ordinal(played) - 1 !in HIGH_BITS;
  }

  /** A move that holds some bit and none above King: its played rank is a real rank
      (PlayableMask). */
  predicate HoldsARank(m: Move) {
    m.targetsMask != {} && m.targetsMask * HIGH_BITS == {}
  }

  /** read_input after the line is read: trim, lower-case, then a command or a move. */
  function ParseLine(line: string): (d: InputData)
    ensures OneOutcome(d)
    ensures d.move.Some? ==> HoldsARank(d.move.value)
  {
    match Trim(line)
    case None => ERR_INPUT
    case Some(t) =>
      var input := LowerStr(t);
      match Command(input)
      case Some(c) => c
      case None => ParseMoveText(input)
  }

  // ---------------------------------------------------------------------------------------------
  // The loop over the right-hand side

  /** The pieces already closed by a '+'. */
  function Finished(s: string): seq<string> {
    var ps := Split(s);
    ps[..|ps| - 1]
  }

  /** The piece still being collected: the text after the last '+'. */
  function Pending(s: string): string {
    var ps := Split(s);
    ps[|ps| - 1]
  }

  /** One more character either closes the pending piece (a '+') or extends it. */
  lemma SplitStep(s: string, i: int)
    requires 0 <= i < |s|
    ensures s[i] == '+' ==> Finished(s[..i + 1]) == Finished(s[..i]) + [Pending(s[..i])] && Pending(s[..i + 1]) == []
    ensures s[i] != '+' ==> Finished(s[..i + 1]) == Finished(s[..i]) && Pending(s[..i + 1]) == Pending(s[..i]) + [s[i]]
  {
    assert s[..i + 1][..i] == s[..i];
    var ps := Split(s[..i]);
    if s[i] == '+' {
      assert (ps + [[]])[..|ps|] == ps;
    }
  }

  /** Closed pieces are never reopened: those of a prefix are a prefix of those of the whole. */
  lemma {:induction false} FinishedGrows(s: string, i: int, j: int)
    requires 0 <= i <= j <= |s|
    ensures Finished(s[..i]) <= Finished(s[..j])
    decreases j - i
  {
    if i < j {
      FinishedGrows(s, i, j - 1);
      SplitStep(s, j - 1);
    }
  }

  /** A failing token fails every longer list that starts with it. */
  lemma {:induction false} ParseAllPrefixFails(xs: seq<string>, ys: seq<string>)
    requires ParseAll(xs) == None
    ensures ParseAll(xs + ys) == None
  {
    if ys == [] {
      assert xs + ys == xs;
    } else {
      ParseAllPrefixFails(xs, ys[..|ys| - 1]);
      assert (xs + ys)[..|xs + ys| - 1] == xs + ys[..|ys| - 1];
    }
  }

  /** The list of tokens that ends in `last` fails exactly when the list before it does or `last` does. */
  lemma ParseAllSnoc(xs: seq<string>, last: string)
    ensures ParseAll(xs + [last]) ==
      match ParseAll(xs)
      case None => None
      case Some(rs) => if TokenRank(last).None? then None else Some(rs + [TokenRank(last).value])
  {
    assert (xs + [last])[..|xs|] == xs;
  }

  /** An error in a closed piece of a prefix is an error of the whole right-hand side. */
  lemma PrefixFails(rhs: string, j: int)
    requires 0 <= j <= |rhs| && ParseAll(Finished(rhs[..j])) == None
    ensures TargetRanks(rhs) == None
  {
    assert rhs[..|rhs|] == rhs;
    FinishedGrows(rhs, j, |rhs|);
    var pre := Finished(rhs[..j]);
    var toks := TargetTokens(rhs);
    assert toks[..|pre|] == pre;
    ParseAllPrefixFails(pre, toks[|pre|..]);
    assert pre + toks[|pre|..] == toks;
  }

  /** finish_token: the token trimmed of spaces and tabs, nothing if blank, else parsed as a rank. */
  method FinishToken(tok: string) returns (t: Option<Rank>)
    ensures t == TokenRank(tok)
  {
    var b := FirstNotBlankFrom(tok, 0);
    var e := LastNotBlankBefore(tok, |tok|);
    SearchesAgree(tok);
    if b.None? {
      return None;
    }
    assert Trim(tok) == Some(tok[b.value..e.value + 1]);
    t := TryParseRankToken(tok[b.value..e.value + 1]);
  }

  /** The loop over the text after '=': finish a token at every '+', and the last one if it is not empty. */
  method CollectTargets(rhs: string) returns (ranks: Option<seq<Rank>>)
    ensures ranks == TargetRanks(rhs)
  {
    var targetRanks: seq<Rank> := [];
    var token := "";
    for i := 0 to |rhs|
      invariant token == Pending(rhs[..i])
      invariant ParseAll(Finished(rhs[..i])) == Some(targetRanks)
    {
      SplitStep(rhs, i);
      var ch := rhs[i];
      if ch == '+' {
        var t := FinishToken(token);
        ParseAllSnoc(Finished(rhs[..i]), token);
        if t.None? {
          PrefixFails(rhs, i + 1);
          return None;
        }
        targetRanks := targetRanks + [t.value];
        token := "";
      } else {
        token := token + [ch];
      }
    }
    assert rhs[..|rhs|] == rhs;
    if token != [] {
      var t := FinishToken(token);
      ParseAllSnoc(Finished(rhs), token);
      if t.None? {
        return None;
      }
      targetRanks := targetRanks + [t.value];
    }
    return Some(targetRanks);
  }

  /** The loop that ORs each target rank's mask into targets_mask, which starts empty. */
  method OrMasks(rs: seq<Rank>) returns (mask: RankMask)
    ensures mask == MaskOf(rs)
  {
    mask := {};
    for k := 0 to |rs|
      invariant mask == MaskOf(rs[..k])
    {
      assert rs[..k + 1][..k] == rs[..k];
      mask := mask + rs[k].Bit();
    }
    assert rs[..|rs|] == rs;
  }

  /** The right-hand side of a move line, when there is one: collect the target ranks, then OR them. */
  method ParseTargets(rhs: string) returns (targets: Option<RankMask>)
    ensures targets == TargetsMask(rhs)
  {
    var targetsMask: RankMask := {};
    if rhs != [] {
      var targetRanks := CollectTargets(rhs);
      if targetRanks.None? {
        return None;
      }
      targetsMask := OrMasks(targetRanks.value);
    }
    return Some(targetsMask);
  }

  /** The move branch of read_input: split at the first '=', parse the played rank, then OR in the targets. */
  method ParseMoveLine(input: string) returns (d: InputData)
    ensures d == ParseMoveText(input)
  {
    var eqPos := FindFrom(input, '=', 0);
    var lhs, rhs;
    if eqPos.Some? {
      lhs, rhs := input[..eqPos.value], input[eqPos.value + 1..];
    } else {
      lhs, rhs := input, "";
    }
    assert (lhs, rhs) == SplitAtEq(input);
    var opt := TryParseRankToken(lhs);
    if opt.None? {
      return ERR_INPUT;
    }
    var playedRank := opt.value;
    var targetsMask := ParseTargets(rhs);
    if targetsMask.None? {
      return ERR_INPUT;
    }
    return NO_INPUT.(move := Some(Move(targetsMask.value + playedRank.Bit())));
  }

  /** The std::ranges::transform with tolower, one character at a time over the string. */
  method LowerCase(s: string) returns (input: string)
    ensures input == LowerStr(s)
  {
    input := s;
    for k := 0 to |input|
      invariant |input| == |s|
      invariant forall m :: 0 <= m < k ==> input[m] == LowerChar(s[m])
      invariant forall m :: k <= m < |input| ==> input[m] == s[m]
    {
      input := input[k := LowerChar(input[k])];
    }
  }

  /** read_input from the point the line has been read: trim, lower-case in place, commands, then a move. */
  method ReadInput(line: string) returns (d: InputData)
    ensures d == ParseLine(line)
  {
    var start := FirstNotBlankFrom(line, 0);
    var end := LastNotBlankBefore(line, |line|);
    SearchesAgree(line);
    if end.None? {
      return ERR_INPUT;
    }
    assert Trim(line) == Some(line[start.value..end.value + 1]);
    var input := LowerCase(line[start.value..end.value + 1]);
    if input == "help" { return NO_INPUT.(help := true); }
    if input == "quit" { return NO_INPUT.(quit := true); }
    if input == "play bot" { return NO_INPUT.(playBot := true); }
    if input == "play human" { return NO_INPUT.(playHuman := true); }
    if input == "play child" { return NO_INPUT.(bot := Some(Child)); }
    if input == "play robot" { return NO_INPUT.(bot := Some(Robot)); }
    if input == "play man" { return NO_INPUT.(bot := Some(Man)); }
    if input == "play cheat" { return NO_INPUT.(bot := Some(Cheat)); }
    d := ParseMoveLine(input);
  }

  // ---------------------------------------------------------------------------------------------
  // Properties of whole lines

  /** A search result moved by d positions. */
  function Shift(p: Option<nat>, d: nat): Option<nat> {
    match p
    case None => None
    case Some(v) => Some(v + d)
  }

  /** Leading blanks are skipped by the forward search. */
  lemma {:induction false} FirstSkipsLeading(p: string, l: string, i: nat)
    requires i <= |p| && forall k :: 0 <= k < |p| ==> IsBlank(p[k])
    ensures FirstNotBlankFrom(p + l, i) == FirstNotBlankFrom(p + l, |p|)
    decreases |p| - i
  {
    if i < |p| {
      assert (p + l)[i] == p[i];
      FirstSkipsLeading(p, l, i + 1);
    }
  }

  /** Past the leading part, the forward search sees the rest of the line, shifted. */
  lemma {:induction false} FirstShifts(p: string, l: string, j: nat)
    requires j <= |l|
    ensures FirstNotBlankFrom(p + l, |p| + j) == Shift(FirstNotBlankFrom(l, j), |p|)
    decreases |l| - j
  {
    if j < |l| {
      assert (p + l)[|p| + j] == l[j];
      FirstShifts(p, l, j + 1);
    }
  }

  /** The backward search finds nothing among leading blanks. */
  lemma {:induction false} LastInLeading(p: string, l: string, j: nat)
    requires j <= |p| && forall k :: 0 <= k < |p| ==> IsBlank(p[k])
    ensures LastNotBlankBefore(p + l, j) == None
  {
    if j > 0 {
      assert (p + l)[j - 1] == p[j - 1];
      LastInLeading(p, l, j - 1);
    }
  }

  /** Past the leading part, the backward search sees the rest of the line, shifted. */
  lemma {:induction false} LastShifts(p: string, l: string, j: nat)
    requires j <= |l| && forall k :: 0 <= k < |p| ==> IsBlank(p[k])
    ensures LastNotBlankBefore(p + l, |p| + j) == Shift(LastNotBlankBefore(l, j), |p|)
  {
    if j == 0 {
      LastInLeading(p, l, |p|);
    } else {
      assert (p + l)[|p| + j - 1] == l[j - 1];
      LastShifts(p, l, j - 1);
    }
  }

  /** Within the line, the forward search ignores what follows, unless it runs off the end. */
  lemma {:induction false} FirstKeeps(l: string, q: string, j: nat)
    requires j <= |l|
    ensures FirstNotBlankFrom(l, j).Some? ==> FirstNotBlankFrom(l + q, j) == FirstNotBlankFrom(l, j)
    ensures FirstNotBlankFrom(l, j).None? ==> FirstNotBlankFrom(l + q, j) == FirstNotBlankFrom(l + q, |l|)
    decreases |l| - j
  {
    if j < |l| {
      assert (l + q)[j] == l[j];
      FirstKeeps(l, q, j + 1);
    }
  }

  /** The forward search finds nothing among trailing blanks. */
  lemma {:induction false} FirstInTrailing(l: string, q: string, i: nat)
    requires |l| <= i <= |l| + |q| && forall k :: 0 <= k < |q| ==> IsBlank(q[k])
    ensures FirstNotBlankFrom(l + q, i) == None
    decreases |l| + |q| - i
  {
    if i < |l| + |q| {
      assert (l + q)[i] == q[i - |l|];
      FirstInTrailing(l, q, i + 1);
    }
  }

  /** Trailing blanks are skipped by the backward search. */
  lemma {:induction false} LastSkipsTrailing(l: string, q: string, j: nat)
    requires |l| <= j <= |l| + |q| && forall k :: 0 <= k < |q| ==> IsBlank(q[k])
    ensures LastNotBlankBefore(l + q, j) == LastNotBlankBefore(l + q, |l|)
  {
    if j > |l| {
      assert (l + q)[j - 1] == q[j - 1 - |l|];
      LastSkipsTrailing(l, q, j - 1);
    }
  }

  /** Within the line, the backward search ignores what follows. */
  lemma {:induction false} LastKeeps(l: string, q: string, j: nat)
    requires j <= |l|
    ensures LastNotBlankBefore(l + q, j) == LastNotBlankBefore(l, j)
  {
    if j > 0 {
      assert (l + q)[j - 1] == l[j - 1];
      LastKeeps(l, q, j - 1);
    }
  }

  /** Leading spaces and tabs do not change what trimming keeps. */
  lemma TrimLeading(p: string, l: string)
    requires forall k :: 0 <= k < |p| ==> IsBlank(p[k])
    ensures Trim(p + l) == Trim(l)
  {
    FirstSkipsLeading(p, l, 0);
    FirstShifts(p, l, 0);
    LastShifts(p, l, |l|);
    SearchesAgree(l);
    if Trim(l).Some? {
      ShiftedSlice(p, l, FirstNotBlankFrom(l, 0).value, LastNotBlankBefore(l, |l|).value);
    }
  }

  /** A slice of the rest of a line, seen after a prefix. */
  lemma ShiftedSlice(p: string, l: string, b: nat, e: nat)
    requires b <= e < |l|
    ensures (p + l)[|p| + b..|p| + e + 1] == l[b..e + 1]
  {
  }

  /** Trailing spaces and tabs do not change what trimming keeps. */
  lemma TrimTrailing(l: string, q: string)
    requires forall k :: 0 <= k < |q| ==> IsBlank(q[k])
    ensures Trim(l + q) == Trim(l)
  {
    FirstKeeps(l, q, 0);
    FirstInTrailing(l, q, |l|);
    LastSkipsTrailing(l, q, |l| + |q|);
    LastKeeps(l, q, |l|);
    SearchesAgree(l);
    if Trim(l).Some? {
      var b, e := FirstNotBlankFrom(l, 0).value, LastNotBlankBefore(l, |l|).value;
      assert (l + q)[b..e + 1] == l[b..e + 1];
    }
  }

  /** Leading and trailing spaces and tabs do not change what trimming keeps. */
  lemma TrimPadding(p: string, l: string, q: string)
    requires forall k :: 0 <= k < |p| ==> IsBlank(p[k])
    requires forall k :: 0 <= k < |q| ==> IsBlank(q[k])
    ensures Trim(p + l + q) == Trim(l)
  {
    TrimTrailing(l, q);
    TrimLeading(p, l + q);
    assert p + l + q == p + (l + q);
  }

  /** Spaces and tabs around a line are ignored. */
  lemma ParseLineIgnoresPadding(p: string, line: string, q: string)
    requires forall k :: 0 <= k < |p| ==> IsBlank(p[k])
    requires forall k :: 0 <= k < |q| ==> IsBlank(q[k])
    ensures ParseLine(p + line + q) == ParseLine(line)
  {
    TrimPadding(p, line, q);
  }

  /** Lower-casing keeps blanks where they are, so the forward search does not see it. */
  lemma {:induction false} FirstIgnoresCase(s: string, i: nat)
    requires i <= |s|
    ensures FirstNotBlankFrom(LowerStr(s), i) == FirstNotBlankFrom(s, i)
    decreases |s| - i
  {
    if i < |s| {
      FirstIgnoresCase(s, i + 1);
    }
  }

  /** Nor does the backward search. */
  lemma {:induction false} LastIgnoresCase(s: string, j: nat)
    requires j <= |s|
    ensures LastNotBlankBefore(LowerStr(s), j) == LastNotBlankBefore(s, j)
  {
    if j > 0 {
      LastIgnoresCase(s, j - 1);
    }
  }

  /** Trimming and lower-casing commute. */
  lemma TrimLower(s: string)
    ensures Trim(LowerStr(s)).None? <==> Trim(s).None?
    ensures Trim(s).Some? ==> Trim(LowerStr(s)) == Some(LowerStr(Trim(s).value))
  {
    FirstIgnoresCase(s, 0);
    LastIgnoresCase(s, |s|);
    SearchesAgree(s);
    if Trim(s).Some? {
      LowerSlice(s, FirstNotBlankFrom(s, 0).value, LastNotBlankBefore(s, |s|).value);
    }
  }

  /** Lower-casing a slice is slicing the lower-cased line. */
  lemma LowerSlice(s: string, b: nat, e: nat)
    requires b <= e < |s|
    ensures LowerStr(s)[b..e + 1] == LowerStr(s[b..e + 1])
  {
  }

  /** Lines that agree up to letter case are read the same: commands and rank names are case-insensitive. */
  lemma ParseLineIgnoresCase(a: string, b: string)
    requires LowerStr(a) == LowerStr(b)
    ensures ParseLine(a) == ParseLine(b)
  {
    TrimLower(a);
    TrimLower(b);
  }

  /** A piece after a final '+' that is empty adds no token: "5+" reads as "5". */
  lemma TrailingPlusIgnored(rhs: string)
    requires Pending(rhs) != []
    ensures TargetRanks(rhs + "+") == TargetRanks(rhs)
  {
    SplitStep(rhs + "+", |rhs|);
    assert (rhs + "+")[..|rhs|] == rhs && (rhs + "+")[..|rhs| + 1] == rhs + "+";
  }

  /** A '+' that closes an empty or blank piece is an error, wherever it stands: "+5" and "5++2" fail. */
  lemma BlankTokenBeforePlus(a: string, b: string)
    requires Trim(Pending(a)).None?
    ensures TargetRanks(a + "+" + b) == None
  {
    var s := a + "+" + b;
    assert s[..|a|] == a;
    SplitStep(s, |a|);
    ParseAllSnoc(Finished(a), Pending(a));
    PrefixFails(s, |a| + 1);
  }

  /** The first '=' splits a move line: a left side free of '=' is the played token, the rest the targets. */
  lemma SplitAtFirstEq(lhs: string, rhs: string)
    requires '=' !in lhs
    ensures SplitAtEq(lhs + "=" + rhs) == (lhs, rhs)
  {
    var s := lhs + "=" + rhs;
    assert s[|lhs|] == '=';
    assert forall k :: 0 <= k < |lhs| ==> s[k] == lhs[k];
    assert s[..|lhs|] == lhs && s[|lhs| + 1..] == rhs;
  }

  /** A mask with a rank's bit and nothing above King plays some rank. */
  lemma PlayableMask(m: Move)
    requires HoldsARank(m)
    ensures m.PlayedRank().Ok? && m.PlayedRank().value != Invalid
  {
    var i :| i in m.targetsMask;
  }

  /** Every bit of the OR is a rank's bit, so none lies above King. */
  lemma {:induction false} MaskOfBelowKing(rs: seq<Rank>)
    ensures MaskOf(rs) * HIGH_BITS == {}
  {
    if rs != [] {
      MaskOfBelowKing(rs[..|rs| - 1]);
      var r := rs[|rs| - 1];
      assert r.Bit() * HIGH_BITS == {};
    }
  }

  /** Every bit of the OR lies below a bound that each rank's position stays under. */
  lemma {:induction false} MaskOfBelow(rs: seq<Rank>, bound: int)
    requires forall k :: 0 <= k < |rs| ==> Ordinal(rs[k]) < bound
    ensures forall i :: i in MaskOf(rs) ==> i < bound - 1
  {
    if rs != [] {
      MaskOfBelow(rs[..|rs| - 1], bound);
    }
  }

  /** The targets of a right-hand side have no bit above King. */
  lemma TargetsBelowKing(rhs: string)
    requires TargetsMask(rhs).Some?
    ensures TargetsMask(rhs).value * HIGH_BITS == {}
  {
    if rhs != [] {
      MaskOfBelowKing(TargetRanks(rhs).value);
    }
  }



  /** A move line with '=' reads the played token on its left and the targets on its right. */
  lemma MoveLineParts(lhs: string, rhs: string, played: Rank, targets: RankMask)
    requires '=' !in lhs
    requires ParseRankToken(lhs) == Some(played) && TargetsMask(rhs) == Some(targets)
    ensures ParseMoveText(lhs + "=" + rhs) == NO_INPUT.(move := Some(Move(targets + played.Bit())))
  {
    SplitAtFirstEq(lhs, rhs);
  }

  /** When every target ranks below the played rank, the move plays that rank. */
  lemma TargetsBelowPlayed(played: Rank, rs: seq<Rank>)
    requires played != Invalid
    requires forall k :: 0 <= k < |rs| ==> Less(rs[k], played)
    ensures Move(MaskOf(rs) + played.Bit()).PlayedRank() == Ok(played)
  {
    MaskOfBelow(rs, Ordinal(played));
    UnionSwap(MaskOf(rs), played.Bit());
    PlayedRankOfTopBit(played, MaskOf(rs));
  }

  /** Union of masks, the source's bitwise OR, does not depend on the order. */
  lemma UnionSwap(a: RankMask, b: RankMask)
    ensures a + b == b + a
  {
  }

  // ---------------------------------------------------------------------------------------------
  // A line the parser accepts although its move does not play the rank before '='

  /** Every command is at least four characters long. */
  lemma ShortTextIsNoCommand(input: string)
    requires |input| < 4
    ensures Command(input) == None
  {
  }

  /** A single non-blank character is its own trimmed line. */
  lemma TrimOneChar(d: char)
    requires !IsBlank(d)
    ensures Trim([d]) == Some([d])
  {
    assert [d][0..1] == [d];
  }

  /** A right-hand side without '+' is one piece. */
  lemma SplitOneChar(d: char)
    requires d != '+'
    ensures Split([d]) == [[d]]
  {
    assert [d][..0] == [];
    var ps := Split([]);
    assert ps == [[]];
    assert ps[0] + [d] == [d];
    assert ps[..0] == [];
    assert ps[..0] + [ps[0] + [d]] == [[d]];
  }

  /** One token that parses gives one rank. */
  lemma ParseAllOne(tok: string, r: Rank)
    requires TokenRank(tok) == Some(r)
    ensures ParseAll([tok]) == Some([r])
  {
    assert [tok][..0] == [];
    assert ParseAll([]) == Some([]);
    assert [] + [r] == [r];
  }

  /** The OR of one rank is its bit. */
  lemma MaskOfOne(r: Rank)
    ensures MaskOf([r]) == r.Bit()
  {
    assert [r][..0] == [];
    assert MaskOf([]) == {};
  }

  /** A right-hand side that is one digit 1..9 names one target. */
  lemma OneDigitTargets(d: char)
    requires '1' <= d <= '9'
    ensures TargetsMask([d]) == Some(OrdinalRank(d as int - '0' as int).Bit())
  {
    var r := OrdinalRank(d as int - '0' as int);
    SplitOneChar(d);
    TrimOneChar(d);
    SingleDigitNumeral(d);
    ParseAllOne([d], r);
    MaskOfOne(r);
  }

  /** The rank a digit 1..9 names as a numeral. */
  function DigitRank(d: char): (r: Rank)
    requires '1' <= d <= '9'
    ensures Ordinal(r) == d as int - '0' as int
  {
    OrdinalRank(d as int - '0' as int)
  }

  /** A line of a digit, '=' and a digit is trimmed and lower-cased to itself and is no command. */
  lemma DigitEqDigitText(a: char, b: char)
    requires '1' <= a <= '9' && '1' <= b <= '9'
    ensures ParseLine([a, '=', b]) == ParseMoveText([a, '=', b])
  {
    var s := [a, '=', b];
    assert FirstNotBlankFrom(s, 0) == Some(0);
    assert LastNotBlankBefore(s, 3) == Some(2);
    assert s[0..3] == s;
    assert LowerStr(s) == s;
    ShortTextIsNoCommand(s);
  }

  /** The two sides of a digit, '=' and a digit: the first digit's rank, ORed with the second's. */
  lemma DigitEqDigitParts(a: char, b: char)
    requires '1' <= a <= '9' && '1' <= b <= '9'
    ensures ParseMoveText([a, '=', b]) == NO_INPUT.(move := Some(Move(DigitRank(b).Bit() + DigitRank(a).Bit())))
  {
    SingleDigitNumeral(a);
    OneDigitTargets(b);
    assert [a] + "=" + [b] == [a, '=', b];
    MoveLineParts([a], [b], DigitRank(a), DigitRank(b).Bit());
  }

  /**
   * The parser does not keep the played card on top: a line such as "3=5" is accepted, and the
   * move it gives plays the larger rank, Five, not the Three written before '='.
   */
  lemma LaterDigitIsPlayed(a: char, b: char)
    requires '1' <= a < b <= '9'
    ensures ParseLine([a, '=', b]) == NO_INPUT.(move := Some(Move(DigitRank(b).Bit() + DigitRank(a).Bit())))
    ensures Move(DigitRank(b).Bit() + DigitRank(a).Bit()).PlayedRank() == Ok(DigitRank(b))
  {
    DigitEqDigitText(a, b);
    DigitEqDigitParts(a, b);
    PlayedRankOfTopBit(DigitRank(b), DigitRank(a).Bit());
  }

}
