/**
 * The Winamax pattern catalogue.
 *
 * Each pattern is described by the grammar of what it captures (the
 * `Valid()` predicate of its match record). The patterns whose captures
 * drive control flow in a way worth checking are implemented as scanners
 * with Python `re` semantics: the hand id, the tournament level, the four
 * street blocks and the level list of a tournament summary. The results of
 * the remaining patterns enter the parsers as match records.
 */
module Winamax {
  import opened Wrappers
  import opened Text

  // ---------------------------------------------------------------------
  // Character classes and capture grammars
  // ---------------------------------------------------------------------

  /** `[\w\s.\-&]`: a character a player name may hold. */
  predicate IsNameChar(c: char)
  {
    IsWordChar(c) || IsSpace(c) || c == '.' || c == '-' || c == '&'
  }

  /** `[\w\s.\-&]{3,12}`: a player name as the player, posting, hero, action and winner patterns capture it. */
  predicate IsName(s: string)
  {
    3 <= |s| <= 12 && forall k :: 0 <= k < |s| ==> IsNameChar(s[k])
  }

  /** `\d+` */
  predicate IsNumber(s: string)
  {
    s != [] && AllDigits(s)
  }

  /** `[\d.,]+` */
  predicate IsAmount(s: string)
  {
    s != [] && forall k :: 0 <= k < |s| ==> IsDigit(s[k]) || s[k] == '.' || s[k] == ','
  }

  /** `calls|bets|raises|folds|checks` */
  predicate IsMove(s: string)
  {
    s == "calls" || s == "bets" || s == "raises" || s == "folds" || s == "checks"
  }

  /** `small blind|big blind|ante` */
  predicate IsBlindType(s: string)
  {
    s == "small blind" || s == "big blind" || s == "ante"
  }

  /** `pot|main pot|side pot \d+` */
  predicate IsPotType(s: string)
  {
    s == "pot" || s == "main pot" || (|s| > 9 && s[..9] == "side pot " && AllDigits(s[9..]))
  }

  /** `\w\w` */
  predicate IsCard(s: string)
  {
    |s| == 2 && IsWordChar(s[0]) && IsWordChar(s[1])
  }

  /** `[\d\-]`: a character of a hand id. */
  predicate IsHandIdChar(c: char)
  {
    IsDigit(c) || c == '-'
  }

  /** `[&\w\s.€-]`: a character of a street body. */
  predicate IsStreetChar(c: char)
  {
    IsWordChar(c) || IsSpace(c) || c == '&' || c == '.' || c == '€' || c == '-'
  }

  /** `[\w\s]`: a character between the brackets of a board. */
  predicate IsBoardChar(c: char)
  {
    IsWordChar(c) || IsSpace(c)
  }

  /** `[\dkM\,]`: a character of a field of the level list. */
  predicate IsLevelChar(c: char)
  {
    IsDigit(c) || c == 'k' || c == 'M' || c == ','
  }

  /** `\d{4}/\d{2}/\d{2} \d{2}:\d{2}:\d{2}`: the timestamp the datetime pattern captures. */
  predicate IsTimestamp(s: string)
  {
    |s| == 19 && s[4] == '/' && s[7] == '/' && s[10] == ' ' && s[13] == ':' && s[16] == ':'
    && forall k :: 0 <= k < 19 && k !in {4, 7, 10, 13, 16} ==> IsDigit(s[k])
  }

  // ---------------------------------------------------------------------
  // Match records of the patterns that are not scanned here
  // ---------------------------------------------------------------------

  /** One `findall` row of the player pattern; `bounty` is "" when the optional group did not take part. */
  datatype PlayerMatch = PlayerMatch(seat: string, name: string, stack: string, bounty: string)
  {
    predicate Valid()
    {
      IsNumber(seat) && IsName(name) && IsNumber(stack)
      && forall k :: 0 <= k < |bounty| ==> IsDigit(bounty[k]) || bounty[k] == '.'
    }
  }

  /** One row of the blinds pattern; its name group starts with the line break. */
  datatype PostingMatch = PostingMatch(name: string, blindType: string, amount: string)
  {
    predicate Valid()
    {
      |name| >= 1 && name[0] == '\n' && IsName(name[1..]) && IsBlindType(blindType) && IsAmount(amount)
    }
  }

  /** One row of the action pattern; `amount` is "" when the optional value did not take part. */
  datatype ActionMatch = ActionMatch(name: string, move: string, amount: string)
  {
    predicate Valid()
    {
      IsName(name) && IsMove(move) && AllDigits(amount)
    }
  }

  /** One row of the winners pattern. */
  datatype WinnerMatch = WinnerMatch(name: string, amount: string, potType: string)
  {
    predicate Valid()
    {
      IsName(name) && IsNumber(amount) && IsPotType(potType)
    }
  }

  /** One row of the showdown pattern: a name on one line, then the two cards shown. */
  datatype ShowdownMatch = ShowdownMatch(name: string, card1: string, card2: string)
  {
    predicate Valid()
    {
      name != [] && '\n' !in name && IsCard(card1) && IsCard(card2)
    }
  }

  /** The groups of the dealt-to pattern. */
  datatype HeroMatch = HeroMatch(name: string, card1: string, card2: string)
  {
    predicate Valid()
    {
      IsName(name) && IsCard(card1) && IsCard(card2)
    }
  }

  /** The groups of the knockout buy-in pattern. */
  datatype KnockoutBuyInMatch = KnockoutBuyInMatch(contribution: string, bounty: string, rake: string)
  {
    predicate Valid()
    {
      IsAmount(contribution) && IsAmount(bounty) && IsAmount(rake)
    }
  }

  /** The groups of the normal buy-in pattern. */
  datatype NormalBuyInMatch = NormalBuyInMatch(contribution: string, rake: string)
  {
    predicate Valid()
    {
      IsAmount(contribution) && IsAmount(rake)
    }
  }

  /** The groups of the tournament blinds pattern `(ante/sb/bb)`. */
  datatype TournamentBlindsMatch = TournamentBlindsMatch(ante: string, small: string, big: string)
  {
    predicate Valid()
    {
      IsNumber(ante) && IsNumber(small) && IsNumber(big)
    }
  }

  /** The groups of the cash blinds pattern `(sb/bb)`, whose amounts may carry "€". */
  datatype CashBlindsMatch = CashBlindsMatch(small: string, big: string)
  {
    predicate Valid()
    {
      small != [] && big != []
      && (forall k :: 0 <= k < |small| ==> IsDigit(small[k]) || small[k] == '€' || small[k] == '.')
      && (forall k :: 0 <= k < |big| ==> IsDigit(big[k]) || big[k] == '€' || big[k] == '.')
    }
  }

  /** The groups of the tournament table pattern: name, tournament id, table number. */
  datatype TableMatch = TableMatch(name: string, tournamentId: string, tableNumber: string)
  {
    predicate Valid()
    {
      name != [] && IsNumber(tournamentId) && IsNumber(tableNumber)
    }
  }

  /** The groups of the flop pattern. */
  datatype FlopMatch = FlopMatch(card1: string, card2: string, card3: string)
  {
    predicate Valid()
    {
      IsCard(card1) && IsCard(card2) && IsCard(card3)
    }
  }

  // ---------------------------------------------------------------------
  // Buy-in texts
  // ---------------------------------------------------------------------

  /** The text the knockout buy-in pattern matches, for its three amounts. */
  function KnockoutText(contribution: string, bounty: string, rake: string): string
  {
    "buyIn: " + contribution + "€ + " + bounty + "€ + " + rake + "€"
  }

  /** The text the normal buy-in pattern matches, for its amounts and its three whitespace runs. */
  function NormalText(w1: string, contribution: string, w2: string, w3: string, rake: string): string
  {
    "buyIn:" + w1 + contribution + "€" + w2 + "+" + w3 + rake + "€"
  }

  /**
   * Every knockout buy-in text starts with a normal buy-in text whose two
   * amounts are the contribution and the bounty: the normal pattern matches
   * knockout hands too (reading the bounty as the rake), which is why the
   * knockout form has to be tried first.
   */
  lemma KnockoutAlsoNormal(contribution: string, bounty: string, rake: string)
    ensures var n := NormalText(" ", contribution, " ", " ", bounty);
      |n| <= |KnockoutText(contribution, bounty, rake)|
      && KnockoutText(contribution, bounty, rake)[..|n|] == n
  {
    var n := NormalText(" ", contribution, " ", " ", bounty);
    assert KnockoutText(contribution, bounty, rake) == n + " + " + rake + "€";
  }

  // ---------------------------------------------------------------------
  // Scanning primitives
  // ---------------------------------------------------------------------

  /** Length of the longest run of `cls` characters starting at `i`: a greedy `+` or `*`. */
  function RunLength(s: string, i: nat, cls: char -> bool): (n: nat)
    requires i <= |s|
    ensures i + n <= |s|
    ensures forall k :: i <= k < i + n ==> cls(s[k])
    ensures i + n < |s| ==> !cls(s[i + n])
    decreases |s| - i
  {
    if i < |s| && cls(s[i]) then 1 + RunLength(s, i + 1, cls) else 0
  }

  /** A run is as long as the stretch of `cls` characters that a non-`cls` character or the end closes. */
  lemma {:induction false} RunUntil(s: string, i: nat, j: nat, cls: char -> bool)
    requires i <= j <= |s|
    requires forall k :: i <= k < j ==> cls(s[k])
    requires j == |s| || !cls(s[j])
    ensures RunLength(s, i, cls) == j - i
    decreases j - i
  {
    if i < j {
      RunUntil(s, i + 1, j, cls);
    }
  }

  // ---------------------------------------------------------------------
  // A literal followed by a run: `HandId: #([\d\-]+)` and `level: (\d+)`
  // ---------------------------------------------------------------------

  /** `lit` occurs at `i` and is followed by at least one `cls` character. */
  predicate LeadsRun(s: string, i: nat, lit: string, cls: char -> bool)
  {
    OccursAt(s, i, lit) && i + |lit| < |s| && cls(s[i + |lit|])
  }

  /** The first position from `from` on where `lit` followed by a `cls` character occurs: `re.search` tries start positions left to right. */
  function FirstLead(s: string, lit: string, cls: char -> bool, from: nat): (r: Option<nat>)
    requires from <= |s|
    ensures r.Some? ==> from <= r.value < |s| && LeadsRun(s, r.value, lit, cls)
    ensures r.Some? ==> forall j: nat :: from <= j < r.value ==> !LeadsRun(s, j, lit, cls)
    ensures r.None? ==> forall j: nat :: from <= j < |s| ==> !LeadsRun(s, j, lit, cls)
    decreases |s| - from
  {
    if from == |s| then None
    else if LeadsRun(s, from, lit, cls) then Some(from)
    else FirstLead(s, lit, cls, from + 1)
  }

  /** `re.search(lit + "(cls+)", s).group(1)`, or None when the pattern does not match. */
  function SearchAfter(s: string, lit: string, cls: char -> bool): (r: Option<string>)
    ensures r.Some? ==> r.value != [] && forall k :: 0 <= k < |r.value| ==> cls(r.value[k])
    ensures r.None? <==> forall i: nat :: i < |s| ==> !LeadsRun(s, i, lit, cls)
  {
    var lead := FirstLead(s, lit, cls, 0);
    if lead.None? then None
    else
      var j := lead.value + |lit|;
      Some(s[j..j + RunLength(s, j, cls)])
  }

  /**
   * In `p + lit + c + t`, where no match starts inside `p`, the capture is the
   * whole run `c`: it starts right after the literal and stops at the first
   * character outside the class.
   */
  lemma SearchAfterFinds(p: string, lit: string, c: string, t: string, cls: char -> bool)
    requires c != [] && forall k :: 0 <= k < |c| ==> cls(c[k])
    requires t == [] || !cls(t[0])
    requires forall j: nat :: j < |p| ==> !LeadsRun(p + lit + c + t, j, lit, cls)
    ensures SearchAfter(p + lit + c + t, lit, cls) == Some(c)
  {
    var s := p + lit + c + t;
    var i := |p|;
    var j := i + |lit|;
    assert s[i..j] == lit;
    assert s[j] == c[0];
    assert LeadsRun(s, i, lit, cls);
    forall k | j <= k < j + |c|
      ensures cls(s[k])
    {
      assert s[k] == c[k - j];
    }
    if j + |c| < |s| {
      assert s[j + |c|] == t[0];
    }
    RunUntil(s, j, j + |c|, cls);
    assert s[j..j + |c|] == c;
  }

  /** The hand id pattern `HandId: #([\d\-]+)`. */
  function SearchHandId(s: string): (r: Option<string>)
    ensures r.Some? ==> r.value != [] && forall k :: 0 <= k < |r.value| ==> IsHandIdChar(r.value[k])
    ensures r.None? <==> forall i: nat :: i < |s| ==> !LeadsRun(s, i, "HandId: #", IsHandIdChar)
  {
    SearchAfter(s, "HandId: #", IsHandIdChar)
  }

  /** The level pattern `level: (\d+)`. */
  function SearchLevel(s: string): (r: Option<string>)
    ensures r.Some? ==> IsNumber(r.value)
    ensures r.None? <==> forall i: nat :: i < |s| ==> !LeadsRun(s, i, "level: ", IsDigit)
  {
    SearchAfter(s, "level: ", IsDigit)
  }

  // ---------------------------------------------------------------------
  // Street blocks: `\*\*\*\sNAME\s\*\*\*` [`\s` boards] then `([&\w\s.€-]+)`
  // ---------------------------------------------------------------------

  datatype Street = Preflop | Flop | Turn | River

  /** The order of the street patterns, and of the keys of the actions record. */
  const Streets: seq<Street> := [Preflop, Flop, Turn, River]

  function StreetName(st: Street): string
  {
    match st
    case Preflop => "PRE-FLOP"
    case Flop => "FLOP"
    case Turn => "TURN"
    case River => "RIVER"
  }

  /** The pieces a street header is made of, matched one after the other. */
  datatype Piece = Stars | Space | Name(word: string) | Board

  /**
   * `\*\*\*\sNAME\s\*\*\*`, followed for the flop by `\s\[[\w\s]+\]` and for
   * the turn and the river by `\s\[[\w\s]+\]\[[\w\s]+\]`.
   */
  function HeaderPieces(st: Street): (ps: seq<Piece>)
    ensures |ps| >= 5
  {
    var common := [Stars, Space, Name(StreetName(st)), Space, Stars];
    match st
    case Preflop => common
    case Flop => common + [Space, Board]
    case Turn => common + [Space, Board, Board]
    case River => common + [Space, Board, Board]
  }

  /** Three stars `\*\*\*` at `i`. */
  predicate StarsAt(s: string, i: nat)
  {
    i + 3 <= |s| && s[i] == '*' && s[i + 1] == '*' && s[i + 2] == '*'
  }

  /** Where piece `p` ends when it starts at `i`, or None when it does not match there. */
  function PieceEnd(s: string, i: nat, p: Piece): (r: Option<nat>)
    requires i <= |s|
    ensures r.Some? ==> i < r.value <= |s|
  {
    match p
    case Stars => if StarsAt(s, i) then Some(i + 3) else None
    case Space => if i < |s| && IsSpace(s[i]) then Some(i + 1) else None
    case Name(w) => if w != [] && OccursAt(s, i, w) then Some(i + |w|) else None
    case Board =>
      if i < |s| && s[i] == '[' then
        var k := RunLength(s, i + 1, IsBoardChar);
        if k > 0 && i + 1 + k < |s| && s[i + 1 + k] == ']' then Some(i + 2 + k) else None
      else None
  }

  /** Where the pieces `ps`, matched one after the other from `i`, end. */
  function PiecesEnd(s: string, i: nat, ps: seq<Piece>): (r: Option<nat>)
    requires i <= |s|
    ensures r.Some? ==> i <= r.value <= |s|
    ensures r.Some? && ps != [] ==> i < r.value
    decreases |ps|
  {
    if ps == [] then Some(i)
    else
      var e := PieceEnd(s, i, ps[0]);
      if e.None? then None else PiecesEnd(s, e.value, ps[1..])
  }

  /** The end of the header of street `st` when it starts at `i`. */
  function HeaderEnd(s: string, i: nat, st: Street): (r: Option<nat>)
    requires i <= |s|
    ensures r.Some? ==> i < r.value <= |s|
  {
    PiecesEnd(s, i, HeaderPieces(st))
  }

  /** The street pattern matches at `i`: a header followed by at least one body character. */
  predicate StreetAt(s: string, i: nat, st: Street)
  {
    i <= |s| && HeaderEnd(s, i, st).Some? && HeaderEnd(s, i, st).value < |s| && IsStreetChar(s[HeaderEnd(s, i, st).value])
  }

  /** The first position in `from..to` where `at` holds: how `re.search` tries the start positions in turn. */
  function FirstWhere(at: nat -> bool, from: nat, to: nat): (r: Option<nat>)
    requires from <= to
    ensures r.Some? ==> from <= r.value < to && at(r.value)
    ensures r.Some? ==> (forall j: nat :: from <= j < r.value ==> !at(j))
    ensures r.None? ==> (forall j: nat :: from <= j < to ==> !at(j))
    decreases (to as int) - (from as int)
  {
    if from == to then None
    else if at(from) then Some(from)
    else FirstWhere(at, from + 1, to)
  }

  /** The first position where the pattern of street `st` matches. */
  function FirstStreet(s: string, st: Street): (r: Option<nat>)
    ensures r.Some? ==> r.value < |s|
  {
    FirstWhere(StreetMatcher(s, st), 0, |s|)
  }

  /** The street pattern as a test on start positions. */
  function StreetMatcher(s: string, st: Street): nat -> bool
  {
    (i: nat) => StreetAt(s, i, st)
  }

  /** The search finds a match and none before it, or finds none because there is none. */
  lemma FirstStreetFacts(s: string, st: Street)
    ensures var r := FirstStreet(s, st);
      r.Some? ==> StreetAt(s, r.value, st) && forall j: nat :: j < r.value ==> !StreetAt(s, j, st)
    ensures FirstStreet(s, st).None? ==> forall j: nat :: j < |s| ==> !StreetAt(s, j, st)
  {
    var at := StreetMatcher(s, st);
    assert forall j: nat :: at(j) == StreetAt(s, j, st);
  }

  /** Where the body captured by `re.search` of the street pattern starts: after the first header. */
  function StreetStart(s: string, st: Street): (r: Option<nat>)
    ensures r.Some? ==> r.value <= |s|
  {
    var first := FirstStreet(s, st);
    if first.None? then None else HeaderEnd(s, first.value, st)
  }

  /** The body has no start exactly when no header matches anywhere, and otherwise starts on a street character. */
  lemma StartFacts(s: string, st: Street)
    ensures StreetStart(s, st).None? <==> forall i: nat :: i < |s| ==> !StreetAt(s, i, st)
    ensures StreetStart(s, st).Some? ==> StreetStart(s, st).value < |s| && IsStreetChar(s[StreetStart(s, st).value])
  {
    FirstStreetFacts(s, st);
  }

  /** Start and end of the body that `re.search` of the street pattern captures. */
  function StreetSpan(s: string, st: Street): Option<(nat, nat)>
  {
    var start := StreetStart(s, st);
    if start.None? then None
    else
      var b := start.value;
      Some((b, b + RunLength(s, b, IsStreetChar)))
  }

  /**
   * The span is absent exactly when no header matches; otherwise it is a
   * non-empty stretch of street characters that the end of the text or a
   * non-street character closes.
   */
  lemma SpanFacts(s: string, st: Street)
    ensures StreetSpan(s, st).None? <==> forall i: nat :: i < |s| ==> !StreetAt(s, i, st)
    ensures StreetSpan(s, st).Some? ==> SpanOfStreetChars(s, StreetSpan(s, st).value.0, StreetSpan(s, st).value.1)
  {
    StartFacts(s, st);
    var start := StreetStart(s, st);
    if start.Some? {
      var b := start.value;
      RunOfStreetChars(s, b);
      assert StreetSpan(s, st) == Some((b, b + RunLength(s, b, IsStreetChar)));
    }
  }

  /** The run of street characters from a street character. */
  lemma RunOfStreetChars(s: string, b: nat)
    requires b < |s| && IsStreetChar(s[b])
    ensures SpanOfStreetChars(s, b, b + RunLength(s, b, IsStreetChar))
  {
    var n := RunLength(s, b, IsStreetChar);
    assert n > 0;
  }

  /** `s[b..e]` is a non-empty stretch of street characters closed by the end of `s` or a non-street character. */
  predicate SpanOfStreetChars(s: string, b: nat, e: nat)
  {
    b < e <= |s| && (forall k :: b <= k < e ==> IsStreetChar(s[k])) && (e == |s| || !IsStreetChar(s[e]))
  }

  /** The body of street `st`, or None when its header is absent. */
  function StreetBody(s: string, st: Street): (r: Option<string>)
    ensures r.Some? ==> r.value != [] && '*' !in r.value
  {
    var found := StreetSpan(s, st);
    SpanFacts(s, st);
    if found.None? then None
    else
      var span := found.value;
      NoStarInBody(s, span.0, span.1);
      Some(s[span.0..span.1])
  }

  /** The body is absent exactly when no header, followed by a street character, matches anywhere. */
  lemma BodyAbsent(s: string, st: Street)
    ensures StreetBody(s, st).None? <==> forall i: nat :: i < |s| ==> !StreetAt(s, i, st)
  {
    SpanFacts(s, st);
  }

  /** A stretch of street characters holds no star. */
  lemma NoStarInBody(s: string, b: nat, e: nat)
    requires b <= e <= |s| && forall k :: b <= k < e ==> IsStreetChar(s[k])
    ensures '*' !in s[b..e]
  {
    forall k | 0 <= k < e - b
      ensures s[b..e][k] != '*'
    {
      assert IsStreetChar(s[b + k]);
    }
  }

  /** A street body stops at the next `***`: no star sequence starting at or after the body's start lies inside it. */
  lemma BodyEndsAtStars(s: string, st: Street, j: nat)
    requires StreetSpan(s, st).Some?
    requires StreetSpan(s, st).value.0 <= j && OccursAt(s, j, "***")
    ensures StreetSpan(s, st).value.1 <= j
  {
    SpanFacts(s, st);
    assert s[j..j + 3][0] == s[j];
  }

  /** The text `*** PRE-FLOP ***` at `i` is a complete pre-flop header. */
  lemma PreflopHeader(s: string, i: nat)
    requires i + 16 <= |s| && s[i..i + 16] == "*** PRE-FLOP ***"
    ensures HeaderEnd(s, i, Preflop) == Some(i + 16)
  {
    PreflopChars(s, i);
    var ps := HeaderPieces(Preflop);
    assert ps == [Stars, Space, Name("PRE-FLOP"), Space, Stars];
    assert ps[0..] == ps;
    PiecesStep(s, i, ps, 0, i + 3);
    PiecesStep(s, i + 3, ps, 1, i + 4);
    PiecesStep(s, i + 4, ps, 2, i + 12);
    PiecesStep(s, i + 12, ps, 3, i + 13);
    PiecesStep(s, i + 13, ps, 4, i + 16);
    assert ps[5..] == [];
  }

  /** The characters of `*** PRE-FLOP ***`, piece by piece. */
  lemma PreflopChars(s: string, i: nat)
    requires i + 16 <= |s| && s[i..i + 16] == "*** PRE-FLOP ***"
    ensures StarsAt(s, i) && IsSpace(s[i + 3]) && OccursAt(s, i + 4, "PRE-FLOP")
    ensures IsSpace(s[i + 12]) && StarsAt(s, i + 13)
  {
    var h := s[i..i + 16];
    forall k | 0 <= k < 16
      ensures s[i + k] == h[k]
    {
    }
    forall k | 0 <= k < 8
      ensures s[i + 4..i + 12][k] == "PRE-FLOP"[k]
    {
      assert s[i + 4 + k] == h[4 + k];
    }
  }

  /** Matching the pieces from the `k`-th on is matching the `k`-th, then the rest. */
  lemma PiecesStep(s: string, i: nat, ps: seq<Piece>, k: nat, e: nat)
    requires i <= |s| && k < |ps| && PieceEnd(s, i, ps[k]) == Some(e)
    ensures PiecesEnd(s, i, ps[k..]) == PiecesEnd(s, e, ps[k + 1..])
  {
    assert ps[k..][1..] == ps[k + 1..];
  }

  /** Where the pieces of `p + h + body + t` stand. */
  lemma FourPieces(p: string, h: string, body: string, t: string)
    ensures var s := p + h + body + t;
      s[|p|..|p| + |h|] == h && s[|p| + |h|..|p| + |h| + |body|] == body
      && (forall k :: 0 <= k < |body| ==> s[|p| + |h| + k] == body[k])
      && (t != [] ==> s[|p| + |h| + |body|] == t[0])
  {
  }

  /**
   * A pre-flop header written `*** PRE-FLOP ***`, with no earlier match,
   * yields as body the whole stretch of street characters that follows it.
   */
  lemma PreflopBody(p: string, body: string, t: string)
    requires body != [] && forall k :: 0 <= k < |body| ==> IsStreetChar(body[k])
    requires t == [] || !IsStreetChar(t[0])
    requires forall j: nat :: j < |p| ==> !StreetAt(p + "*** PRE-FLOP ***" + body + t, j, Preflop)
    ensures StreetBody(p + "*** PRE-FLOP ***" + body + t, Preflop).Some?
    ensures StreetBody(p + "*** PRE-FLOP ***" + body + t, Preflop).value == body
  {
    var s := p + "*** PRE-FLOP ***" + body + t;
    var b := |p| + 16;
    FourPieces(p, "*** PRE-FLOP ***", body, t);
    PreflopHeader(s, |p|);
    FirstStreetIs(s, Preflop, |p|);
    BodyAt(s, |p|, Preflop, b, b + |body|);
  }

  /** The body found after the first header is the longest stretch of street characters that follows it. */
  lemma BodyAt(s: string, i: nat, st: Street, b: nat, e: nat)
    requires i <= |s| && HeaderEnd(s, i, st) == Some(b)
    requires b < e <= |s| && forall k :: b <= k < e ==> IsStreetChar(s[k])
    requires e == |s| || !IsStreetChar(s[e])
    requires FirstStreet(s, st) == Some(i)
    ensures StreetSpan(s, st).Some? && StreetSpan(s, st).value == (b, e)
    ensures StreetBody(s, st).Some? && StreetBody(s, st).value == s[b..e]
  {
    RunUntil(s, b, e, IsStreetChar);
    StartAt(s, i, st, b);
    SpanAt(s, st, b, e);
  }

  /** The body starts where the first header ends. */
  lemma StartAt(s: string, i: nat, st: Street, b: nat)
    requires i <= |s| && HeaderEnd(s, i, st) == Some(b) && FirstStreet(s, st) == Some(i)
    ensures StreetStart(s, st) == Some(b)
  {
  }

  /** The span is fixed by its start and the length of the run there. */
  lemma SpanAt(s: string, st: Street, b: nat, e: nat)
    requires StreetStart(s, st) == Some(b)
    requires b <= e <= |s| && RunLength(s, b, IsStreetChar) == e - b
    ensures StreetSpan(s, st) == Some((b, e))
  {
    var start := StreetStart(s, st);
    assert start.value == b;
  }

  /** The search settles on the first position where the street pattern matches. */
  lemma FirstStreetIs(s: string, st: Street, i: nat)
    requires i < |s| && StreetAt(s, i, st)
    requires forall j: nat :: j < i ==> !StreetAt(s, j, st)
    ensures FirstStreet(s, st) == Some(i)
  {
    FirstStreetFacts(s, st);
  }

  // ---------------------------------------------------------------------
  // The level list: `\,?([\dkM\,]+)-([\dkM\,]+):([\dkM\,]+)`
  // ---------------------------------------------------------------------

  /** One row of the level-list pattern; fields 0, 1 and 2 of the tuple. */
  datatype LevelMatch = LevelMatch(small: string, big: string, ante: string)
  {
    predicate Valid()
    {
      IsLevelField(small) && IsLevelField(big) && IsLevelField(ante)
    }
  }

  predicate IsLevelField(f: string)
  {
    f != [] && forall k :: 0 <= k < |f| ==> IsLevelChar(f[k])
  }

  /** Length of the longest run of level characters starting at `i`. */
  function LevelRun(s: string, i: nat): (n: nat)
    requires i <= |s|
    ensures i + n <= |s|
    ensures forall k :: i <= k < i + n ==> IsLevelChar(s[k])
    ensures i + n < |s| ==> !IsLevelChar(s[i + n])
    decreases |s| - i
  {
    if i < |s| && IsLevelChar(s[i]) then 1 + LevelRun(s, i + 1) else 0
  }

  lemma {:induction false} LevelRunUntil(s: string, i: nat, j: nat)
    requires i <= j <= |s|
    requires forall k :: i <= k < j ==> IsLevelChar(s[k])
    requires j == |s| || !IsLevelChar(s[j])
    ensures LevelRun(s, i) == j - i
    decreases j - i
  {
    if i < j {
      LevelRunUntil(s, i + 1, j);
    }
  }

  /** The text of a level entry: the optional comma, then the three fields separated by "-" and ":". */
  function LevelText(comma: bool, m: LevelMatch): string
  {
    (if comma then "," else "") + m.small + "-" + m.big + ":" + m.ante
  }

  /**
   * The level-list pattern tried at `i`, with the match and its end. The
   * leading comma is taken when a field character follows it; otherwise the
   * first field starts at the comma itself, which is where backtracking
   * out of `\,?` leads. The fields are greedy and cannot contain "-" or ":",
   * so only the longest runs can be followed by the separators.
   */
  function LevelAt(s: string, i: nat): (r: Option<(LevelMatch, nat)>)
    requires i <= |s|
    ensures r.Some? ==> r.value.0.Valid() && i < r.value.1 <= |s|
  {
    var r1 := LevelRun(s, i);
    var m := i + r1;
    if r1 > 0 && m < |s| && s[m] == '-' then
      var r2 := LevelRun(s, m + 1);
      var q := m + 2 + r2;
      if r2 > 0 && q - 1 < |s| && s[q - 1] == ':' then
        var r3 := LevelRun(s, q);
        if r3 > 0 then
          var comma := r1 > 1 && s[i] == ',';
          var g := if comma then i + 1 else i;
          Some((LevelMatch(s[g..m], s[m + 1..q - 1], s[q..q + r3]), q + r3))
        else None
      else None
    else None
  }

  /** The slice `s[i..e]` spelled out as a level text. */
  lemma LevelTextAt(s: string, i: nat, comma: bool, g: nat, m: nat, q: nat, e: nat)
    requires i <= g < m < q - 1 < q < e <= |s|
    requires g == if comma then i + 1 else i
    requires comma ==> s[i] == ','
    requires s[m] == '-' && s[q - 1] == ':'
    ensures s[i..e] == LevelText(comma, LevelMatch(s[g..m], s[m + 1..q - 1], s[q..e]))
  {
    var t := LevelText(comma, LevelMatch(s[g..m], s[m + 1..q - 1], s[q..e]));
    assert |t| == e - i;
    forall k | 0 <= k < e - i
      ensures s[i..e][k] == t[k]
    {
      var lead := if comma then "," else "";
      assert t == lead + s[g..m] + "-" + s[m + 1..q - 1] + ":" + s[q..e];
    }
  }

  /** What the level-list pattern matches is an optional comma and three fields joined by "-" and ":". */
  lemma LevelAtText(s: string, i: nat)
    requires i <= |s| && LevelAt(s, i).Some?
    ensures exists comma: bool :: s[i..LevelAt(s, i).value.1] == LevelText(comma, LevelAt(s, i).value.0)
  {
    var r1 := LevelRun(s, i);
    var m := i + r1;
    var r2 := LevelRun(s, m + 1);
    var q := m + 2 + r2;
    var r3 := LevelRun(s, q);
    var comma := r1 > 1 && s[i] == ',';
    var g := if comma then i + 1 else i;
    var x := LevelMatch(s[g..m], s[m + 1..q - 1], s[q..q + r3]);
    assert LevelAt(s, i) == Some((x, q + r3));
    LevelTextAt(s, i, comma, g, m, q, q + r3);
    assert s[i..q + r3] == LevelText(comma, x);
  }

  /** The first position from `from` on where the level-list pattern matches. */
  function NextLevel(s: string, from: nat): (r: Option<nat>)
    requires from <= |s|
    ensures r.Some? ==> from <= r.value < |s| && LevelAt(s, r.value).Some?
    ensures r.Some? ==> forall j :: from <= j < r.value ==> LevelAt(s, j).None?
    ensures r.None? ==> forall j :: from <= j < |s| ==> LevelAt(s, j).None?
  {
    var at := LevelMatcher(s);
    assert forall j: nat :: at(j) == (j <= |s| && LevelAt(s, j).Some?);
    FirstWhere(at, from, |s|)
  }

  /** The level-list pattern as a test on start positions. */
  function LevelMatcher(s: string): nat -> bool
  {
    (i: nat) => i <= |s| && LevelAt(s, i).Some?
  }

  /** `re.findall` of the level-list pattern from `from` on: each search resumes where the previous match ended. */
  function LevelsFrom(s: string, from: nat): (r: seq<LevelMatch>)
    requires from <= |s|
    ensures forall k :: 0 <= k < |r| ==> r[k].Valid()
    decreases |s| - from
  {
    var next := NextLevel(s, from);
    if next.None? then []
    else
      var hit := LevelAt(s, next.value).value;
      [hit.0] + LevelsFrom(s, hit.1)
  }

  /** `re.findall(LEVEL_BLINDS_PATTERN, s)`. */
  function LevelList(s: string): (r: seq<LevelMatch>)
    ensures forall k :: 0 <= k < |r| ==> r[k].Valid()
  {
    LevelsFrom(s, 0)
  }

  /** A level field without commas: `[\dkM]+`. */
  predicate IsPlainField(f: string)
  {
    f != [] && forall k :: 0 <= k < |f| ==> IsDigit(f[k]) || f[k] == 'k' || f[k] == 'M'
  }

  /** The run of level characters from `j` ends at `m`, and what stands there is not the "-" the pattern needs next. */
  lemma NoLevelAt(s: string, j: nat, m: nat)
    requires j <= m <= |s| && forall k :: j <= k < m ==> IsLevelChar(s[k])
    requires m < |s| ==> !IsLevelChar(s[m]) && (j == m || s[m] != '-')
    ensures LevelAt(s, j).None?
  {
    LevelRunUntil(s, j, m);
  }

  /** The level-list pattern at `i`, when the runs and separators stand at `m`, `q - 1` and `e`. */
  lemma LevelAtIs(s: string, i: nat, m: nat, q: nat, e: nat)
    requires i < m && m + 2 < q && q < e <= |s|
    requires forall k :: i <= k < m ==> IsLevelChar(s[k])
    requires s[m] == '-' && s[q - 1] == ':'
    requires forall k :: m + 1 <= k < q - 1 ==> IsLevelChar(s[k])
    requires forall k :: q <= k < e ==> IsLevelChar(s[k])
    requires e == |s| || !IsLevelChar(s[e])
    requires s[i] != ','
    ensures LevelAt(s, i).Some? && LevelAt(s, i).value.1 == e
    ensures LevelAt(s, i).value.0 == LevelMatch(s[i..m], s[m + 1..q - 1], s[q..e])
  {
    LevelRunUntil(s, i, m);
    LevelRunUntil(s, m + 1, q - 1);
    LevelRunUntil(s, q, e);
    LevelAtRuns(s, i, m, q, e);
  }

  /** The level-list pattern at `i`, once the three runs are known to end at `m`, `q - 1` and `e`. */
  lemma LevelAtRuns(s: string, i: nat, m: nat, q: nat, e: nat)
    requires i < m && m + 2 < q && q < e <= |s|
    requires LevelRun(s, i) == m - i && LevelRun(s, m + 1) == q - 1 - (m + 1) && LevelRun(s, q) == e - q
    requires s[m] == '-' && s[q - 1] == ':' && s[i] != ','
    ensures LevelAt(s, i) == Some((LevelMatch(s[i..m], s[m + 1..q - 1], s[q..e]), e))
  {
  }

  /** Where the pieces of `a + "-" + b + ":" + c` stand. */
  lemma EntryPieces(a: string, b: string, c: string)
    ensures var s := a + "-" + b + ":" + c;
      (forall k :: 0 <= k < |a| ==> s[k] == a[k]) && s[|a|] == '-'
      && (forall k :: 0 <= k < |b| ==> s[|a| + 1 + k] == b[k]) && s[|a| + 1 + |b|] == ':'
      && (forall k :: 0 <= k < |c| ==> s[|a| + 2 + |b| + k] == c[k])
      && s[..|a|] == a && s[|a| + 1..|a| + 1 + |b|] == b && s[|a| + 2 + |b|..] == c
  {
  }

  /** A string that is one entry from start to end reads back as that entry alone. */
  lemma OneEntry(s: string, m: nat, q: nat, a: string, b: string, c: string)
    requires 0 < m && m + 2 < q < |s|
    requires s[..m] == a && s[m + 1..q - 1] == b && s[q..] == c
    requires forall k :: 0 <= k < m ==> IsLevelChar(s[k])
    requires s[m] == '-' && s[q - 1] == ':'
    requires forall k :: m + 1 <= k < q - 1 ==> IsLevelChar(s[k])
    requires forall k :: q <= k < |s| ==> IsLevelChar(s[k])
    requires s[0] != ','
    ensures LevelList(s) == [LevelMatch(a, b, c)]
  {
    LevelAtIs(s, 0, m, q, |s|);
    assert NextLevel(s, 0) == Some(0);
    assert LevelsFrom(s, 0) == [LevelAt(s, 0).value.0] + LevelsFrom(s, |s|);
    assert LevelsFrom(s, |s|) == [];
    assert s[0..m] == s[..m] && s[q..|s|] == s[q..];
  }

  /** A single entry `a-b:c` with plain fields reads back as exactly that entry. */
  lemma LevelListSingle(a: string, b: string, c: string)
    requires IsPlainField(a) && IsPlainField(b) && IsPlainField(c)
    ensures LevelList(a + "-" + b + ":" + c) == [LevelMatch(a, b, c)]
  {
    EntryPieces(a, b, c);
    OneEntry(a + "-" + b + ":" + c, |a|, |a| + 2 + |b|, a, b, c);
  }

  /** A string holding one entry that ends at `end`, followed by text where no entry can start. */
  lemma EntryThenNothing(s: string, m: nat, q: nat, end: nat, a: string, b: string, c: string)
    requires 0 < m && m + 2 < q < end <= |s|
    requires s[..m] == a && s[m + 1..q - 1] == b && s[q..end] == c
    requires forall k :: 0 <= k < m ==> IsLevelChar(s[k])
    requires s[m] == '-' && s[q - 1] == ':'
    requires forall k :: m + 1 <= k < q - 1 ==> IsLevelChar(s[k])
    requires forall k :: q <= k < end ==> IsLevelChar(s[k])
    requires end == |s| || !IsLevelChar(s[end])
    requires s[0] != ','
    requires forall j :: end <= j < |s| ==> LevelAt(s, j).None?
    ensures LevelList(s) == [LevelMatch(a, b, c)]
  {
    LevelAtIs(s, 0, m, q, end);
    assert NextLevel(s, 0) == Some(0);
    assert LevelsFrom(s, 0) == [LevelAt(s, 0).value.0] + LevelsFrom(s, end);
    assert NextLevel(s, end).None?;
    assert LevelsFrom(s, end) == [];
    assert s[0..m] == s[..m];
  }

  /** In `-e:f`, with plain `e` and `f`, no level entry starts anywhere. */
  lemma NoEntryInTail(s: string, end: nat, colon: nat)
    requires end < colon < |s| && s[end] == '-' && s[colon] == ':'
    requires forall k :: end + 1 <= k < colon ==> IsLevelChar(s[k])
    requires forall k :: colon + 1 <= k < |s| ==> IsLevelChar(s[k])
    ensures forall j :: end <= j < |s| ==> LevelAt(s, j).None?
  {
    forall j | end <= j < |s|
      ensures LevelAt(s, j).None?
    {
      if j == end {
        NoLevelAt(s, j, j);
      } else if j <= colon {
        NoLevelAt(s, j, colon);
      } else {
        NoLevelAt(s, j, |s|);
      }
    }
  }

  /**
   * The fields may themselves hold commas, so the comma that separates two
   * entries `a-b:c,d-e:f` is read into the third field of the first one:
   * the list yields the single entry (a, b, "c,d"), and the rest "-e:f"
   * cannot start a match.
   */
  lemma LevelListJoinsEntries(a: string, b: string, c: string, d: string, e: string, f: string)
    requires IsPlainField(a) && IsPlainField(b) && IsPlainField(c)
    requires IsPlainField(d) && IsPlainField(e) && IsPlainField(f)
    ensures LevelList(a + "-" + b + ":" + c + "," + d + "-" + e + ":" + f) == [LevelMatch(a, b, c + "," + d)]
  {
    var s := a + "-" + b + ":" + c + "," + d + "-" + e + ":" + f;
    var q := |a| + 2 + |b|;
    var end := q + |c| + 1 + |d|;
    JoinedPieces(a, b, c, d, e, f);
    NoEntryInTail(s, end, end + 1 + |e|);
    EntryThenNothing(s, |a|, q, end, a, b, c + "," + d);
  }

  /** Where the pieces of `a + "-" + b + ":" + c + "," + d + "-" + e + ":" + f` stand. */
  lemma JoinedPieces(a: string, b: string, c: string, d: string, e: string, f: string)
    ensures var s := a + "-" + b + ":" + c + "," + d + "-" + e + ":" + f;
      var q := |a| + 2 + |b|;
      var end := q + |c| + 1 + |d|;
      (forall k :: 0 <= k < |a| ==> s[k] == a[k]) && s[|a|] == '-'
      && (forall k :: 0 <= k < |b| ==> s[|a| + 1 + k] == b[k]) && s[q - 1] == ':'
      && (forall k :: 0 <= k < |c| ==> s[q + k] == c[k]) && s[q + |c|] == ','
      && (forall k :: 0 <= k < |d| ==> s[q + |c| + 1 + k] == d[k]) && s[end] == '-'
      && (forall k :: 0 <= k < |e| ==> s[end + 1 + k] == e[k]) && s[end + 1 + |e|] == ':'
      && (forall k :: 0 <= k < |f| ==> s[end + 2 + |e| + k] == f[k])
      && |s| == end + 2 + |e| + |f|
      && s[..|a|] == a && s[|a| + 1..q - 1] == b && s[q..end] == c + "," + d
  {
  }

  // ---------------------------------------------------------------------
  // The level list as evidently intended: one comma between entries
  // ---------------------------------------------------------------------

  /** Python's `s.split(",")`: the texts between the commas, in order. */
  function SplitCommas(s: string): (r: seq<string>)
    ensures r != []
    decreases |s|
  {
    var k := FirstIndex(s, ",");
    if k.None? then [s] else [s[..k.value]] + SplitCommas(s[k.value + 1..])
  }

  /** Python's `",".join(parts)`. */
  function JoinCommas(parts: seq<string>): string
    decreases |parts|
  {
    if parts == [] then "" else if |parts| == 1 then parts[0] else parts[0] + "," + JoinCommas(parts[1..])
  }

  /** A text cut at its first comma is the piece before it, the comma and the rest. */
  lemma CommaCut(s: string, k: nat)
    requires FirstIndex(s, ",") == Some(k)
    ensures s == s[..k] + "," + s[k + 1..]
  {
    assert s[k..k + 1] == ",";
  }

  /** Joining the pieces of a split gives the text back. */
  lemma {:induction false} JoinSplit(s: string)
    ensures JoinCommas(SplitCommas(s)) == s
    decreases |s|
  {
    var k := FirstIndex(s, ",");
    if k.Some? {
      var rest := s[k.value + 1..];
      var tail := SplitCommas(rest);
      var parts := [s[..k.value]] + tail;
      assert SplitCommas(s) == parts;
      assert parts[1..] == tail;
      assert JoinCommas(parts) == s[..k.value] + "," + JoinCommas(tail);
      JoinSplit(rest);
      CommaCut(s, k.value);
    }
  }

  /** Splitting pieces that hold no comma, once joined, gives the pieces back. */
  lemma {:induction false} SplitJoin(parts: seq<string>)
    requires parts != [] && forall i :: 0 <= i < |parts| ==> ',' !in parts[i]
    ensures SplitCommas(JoinCommas(parts)) == parts
    decreases |parts|
  {
    if |parts| == 1 {
      FirstCharAbsent(parts[0], ',');
    } else {
      var rest := JoinCommas(parts[1..]);
      var s := parts[0] + "," + rest;
      assert JoinCommas(parts) == s;
      FirstCharIs(parts[0], ',', rest, s);
      SplitJoin(parts[1..]);
      assert SplitCommas(s) == [parts[0]] + SplitCommas(rest);
      assert parts == [parts[0]] + parts[1..];
    }
  }

  /** An entry of the intended list: three comma-free fields. */
  predicate IsPlainEntry(x: LevelMatch)
  {
    IsPlainField(x.small) && IsPlainField(x.big) && IsPlainField(x.ante)
  }

  /** One entry `small-big:ante`, split at its first "-" and at the first ":" after it. */
  function ParseEntry(e: string): (r: Option<LevelMatch>)
    ensures r.Some? ==> IsPlainEntry(r.value) && r.value.Valid()
  {
    var m := FirstIndex(e, "-");
    if m.None? then None
    else
      var rest := e[m.value + 1..];
      var q := FirstIndex(rest, ":");
      if q.None? then None
      else
        var x := LevelMatch(e[..m.value], rest[..q.value], rest[q.value + 1..]);
        if IsPlainEntry(x) then Some(x) else None
  }

  /** A plain entry written out reads back as itself. */
  lemma {:induction false} EntryRoundTrip(x: LevelMatch)
    requires IsPlainEntry(x)
    ensures ParseEntry(LevelText(false, x)) == Some(x)
  {
    var rest := x.big + ":" + x.ante;
    var e := x.small + "-" + rest;
    assert LevelText(false, x) == e;
    assert '-' !in x.small && ':' !in x.big;
    FirstCharIs(x.small, '-', rest, e);
    FirstCharIs(x.big, ':', x.ante, rest);
    EntryFrom(e, |x.small|, |x.big|, x);
  }

  /** Once the "-" and the ":" are found, the entry is read from the pieces around them. */
  lemma EntryFrom(e: string, m: nat, q: nat, x: LevelMatch)
    requires FirstIndex(e, "-") == Some(m)
    requires FirstIndex(e[m + 1..], ":") == Some(q)
    requires x == LevelMatch(e[..m], e[m + 1..][..q], e[m + 1..][q + 1..])
    requires IsPlainEntry(x)
    ensures ParseEntry(e) == Some(x)
  {
  }

  /** What parses as an entry is exactly that entry written out. */
  lemma EntryText(e: string)
    requires ParseEntry(e).Some?
    ensures e == LevelText(false, ParseEntry(e).value)
  {
    var m := FirstIndex(e, "-").value;
    var q := FirstIndex(e[m + 1..], ":").value;
    assert e[m..m + 1] == "-" && e[m + 1..][q..q + 1] == ":";
    ThreeFields(e, m, q);
  }

  /** A text cut at a "-" and at a ":" after it is its three pieces joined by them. */
  lemma ThreeFields(e: string, m: nat, q: nat)
    requires m < |e| && e[m] == '-' && m + 1 + q < |e| && e[m + 1 + q] == ':'
    ensures e == LevelText(false, LevelMatch(e[..m], e[m + 1..][..q], e[m + 1..][q + 1..]))
  {
    var rest := e[m + 1..];
    assert rest[q] == ':';
    assert e == e[..m] + "-" + rest;
    assert rest == rest[..q] + ":" + rest[q + 1..];
  }

  /** The entries among the pieces, skipping those that are not entries, as `findall` skips text. */
  function ParseEntries(parts: seq<string>): (r: seq<LevelMatch>)
    ensures forall k :: 0 <= k < |r| ==> IsPlainEntry(r[k]) && r[k].Valid()
    decreases |parts|
  {
    if parts == [] then []
    else
      var e := ParseEntry(parts[0]);
      (if e.Some? then [e.value] else []) + ParseEntries(parts[1..])
  }

  /** The level list read entry by entry between the commas. */
  function IntendedLevelList(s: string): (r: seq<LevelMatch>)
    ensures forall k :: 0 <= k < |r| ==> IsPlainEntry(r[k]) && r[k].Valid()
  {
    ParseEntries(SplitCommas(s))
  }

  /** The text of each entry. */
  function EntryTexts(xs: seq<LevelMatch>): (r: seq<string>)
  {
    seq(|xs|, i requires 0 <= i < |xs| => LevelText(false, xs[i]))
  }

  /** The text of a list of entries: `small-big:ante`, joined by commas. */
  function LevelsText(xs: seq<LevelMatch>): string
  {
    JoinCommas(EntryTexts(xs))
  }

  /** The texts of all entries but the first are the texts of the rest. */
  lemma EntryTextsTail(xs: seq<LevelMatch>)
    requires xs != []
    ensures EntryTexts(xs)[0] == LevelText(false, xs[0])
    ensures EntryTexts(xs)[1..] == EntryTexts(xs[1..])
  {
  }

  /** Reading every entry text back gives the entries. */
  lemma {:induction false} ParseEntryTexts(xs: seq<LevelMatch>)
    requires forall i :: 0 <= i < |xs| ==> IsPlainEntry(xs[i])
    ensures ParseEntries(EntryTexts(xs)) == xs
    decreases |xs|
  {
    if xs != [] {
      var ts := EntryTexts(xs);
      EntryTextsTail(xs);
      EntryRoundTrip(xs[0]);
      assert ParseEntries(ts) == [xs[0]] + ParseEntries(ts[1..]);
      ParseEntryTexts(xs[1..]);
      assert xs == [xs[0]] + xs[1..];
    }
  }

  /** An entry written out holds no comma. */
  lemma EntryHasNoComma(x: LevelMatch)
    requires IsPlainEntry(x)
    ensures ',' !in LevelText(false, x)
  {
  }

  /** Every list of plain entries reads back from its text, in order and complete. */
  lemma IntendedRoundTrip(xs: seq<LevelMatch>)
    requires forall i :: 0 <= i < |xs| ==> IsPlainEntry(xs[i])
    ensures IntendedLevelList(LevelsText(xs)) == xs
  {
    if xs == [] {
      assert LevelsText(xs) == "";
      FirstCharAbsent("", ',');
      assert SplitCommas("") == [""];
    } else {
      forall i | 0 <= i < |xs|
        ensures ',' !in EntryTexts(xs)[i]
      {
        EntryHasNoComma(xs[i]);
      }
      SplitJoin(EntryTexts(xs));
      ParseEntryTexts(xs);
    }
  }

  /**
   * The discrepancy: the text of two plain entries, which the intended
   * reading returns as those two entries, is one entry for the pattern as
   * written, with the second entry's small blind glued to the first's ante.
   */
  lemma {:induction false} LevelListLosesEntries(x: LevelMatch, y: LevelMatch)
    requires IsPlainEntry(x) && IsPlainEntry(y)
    ensures LevelList(LevelsText([x, y])) == [LevelMatch(x.small, x.big, x.ante + "," + y.small)]
    ensures IntendedLevelList(LevelsText([x, y])) == [x, y]
  {
    TwoEntriesText(x, y);
    LevelListJoinsEntries(x.small, x.big, x.ante, y.small, y.big, y.ante);
    IntendedRoundTrip([x, y]);
  }

  /** The text of two entries, field by field. */
  lemma TwoEntriesText(x: LevelMatch, y: LevelMatch)
    ensures LevelsText([x, y])
      == x.small + "-" + x.big + ":" + x.ante + "," + y.small + "-" + y.big + ":" + y.ante
  {
    var tx, ty := LevelText(false, x), LevelText(false, y);
    assert EntryTexts([x, y]) == [tx, ty];
    assert JoinCommas([tx, ty]) == tx + "," + JoinCommas([ty]);
    assert tx == x.small + "-" + x.big + ":" + x.ante;
    assert ty == y.small + "-" + y.big + ":" + y.ante;
  }

  /** On a single entry the pattern as written and the intended reading agree. */
  lemma SingleEntryAgrees(x: LevelMatch)
    requires IsPlainEntry(x)
    ensures LevelList(LevelsText([x])) == IntendedLevelList(LevelsText([x])) == [x]
  {
    OneEntryText(x);
    LevelListSingle(x.small, x.big, x.ante);
    IntendedRoundTrip([x]);
  }

  /** The text of a list of one entry is that entry's text. */
  lemma OneEntryText(x: LevelMatch)
    ensures LevelsText([x]) == x.small + "-" + x.big + ":" + x.ante
  {
    assert EntryTexts([x]) == [LevelText(false, x)];
  }

  /** Digits are a plain field. */
  lemma NumberIsPlain(f: string)
    requires IsNumber(f)
    ensures IsPlainField(f)
  {
  }
}
