/**
 * `S3HandHistoryParser`, the cloud parser: a hand text becomes a hand
 * record whose players are then marked as having entered the hand or not,
 * and the summary of its tournament is merged into its tournament info.
 */
module CloudParser {
  import opened Wrappers
  import opened Text
  import opened Numbers
  import opened Winamax
  import opened Extractors
  import opened Paths

  // ---------------------------------------------------------------------
  // Players
  // ---------------------------------------------------------------------

  /**
   * A seated player; `enteredHand` is absent until the players are checked
   * against the preflop actions and the postings.
   */
  datatype CloudPlayer = CloudPlayer(seat: nat, name: string, initStack: real, bounty: real, enteredHand: Option<bool>)

  /** What a player row records; a missing bounty reads as 0.0. */
  function PlayerOf(row: PlayerMatch): CloudPlayer
  {
    CloudPlayer(SeatOf(row), row.name, ToFloat(Cloud, Some(row.stack)),
      if row.bounty != [] then ToFloat(Cloud, Some(row.bounty)) else 0.0, None)
  }

  /**
   * `extract_players`: the players keyed by `int(seat)`, each under their own
   * seat, a later row for a seat overwriting an earlier one, none yet checked.
   * A seat `int()` rejects raises ValueError.
   */
  function ExtractPlayers(rows: seq<PlayerMatch>): (r: Result<map<nat, CloudPlayer>, Failure>)
    ensures r.Ok? <==> SeatsNumeric(rows)
    ensures r.Err? ==> r.error == Malformed(PlayersField)
    ensures r.Ok? ==> forall k :: k in r.value ==> r.value[k].seat == k && r.value[k].enteredHand.None?
    ensures r.Ok? ==> forall i :: 0 <= i < |rows| ==> DigitsValue(rows[i].seat) in r.value
    ensures r.Ok? ==> forall k :: k in r.value ==> exists i :: 0 <= i < |rows| && SeatOf(rows[i]) == k && r.value[k] == PlayerOf(rows[i])
    ensures r.Ok? ==> forall i :: 0 <= i < |rows| && IsLastKey(rows, SeatOf, i) ==> r.value[SeatOf(rows[i])] == PlayerOf(rows[i])
  {
    if SeatsNumeric(rows) then
      var m := Collect(rows, SeatOf, PlayerOf);
      assert forall k :: k in m ==> m[k].seat == k && m[k].enteredHand.None? by {
        forall k | k in m
          ensures m[k].seat == k && m[k].enteredHand.None?
        {
          var i :| 0 <= i < |rows| && SeatOf(rows[i]) == k && m[k] == PlayerOf(rows[i]);
        }
      }
      Ok(m)
    else Err(Malformed(PlayersField))
  }

  /** A valid player row: the stack is the number written, and the bounty 0.0 when absent and never negative. */
  lemma PlayerRead(row: PlayerMatch)
    requires row.Valid()
    ensures PlayerOf(row).seat == DigitsValue(row.seat)
    ensures PlayerOf(row).initStack == DigitsValue(row.stack) as real
    ensures row.bounty == [] ==> PlayerOf(row).bounty == 0.0
    ensures PlayerOf(row).bounty >= 0.0
  {
    ToFloatDigits(Cloud, row.stack);
    if row.bounty != [] {
      assert '-' !in row.bounty by {
        forall k | 0 <= k < |row.bounty|
          ensures row.bounty[k] != '-'
        {
        }
      }
      CloudToFloatNonnegative(row.bounty);
    }
  }

  // ---------------------------------------------------------------------
  // Buy-in, tournament info and hero
  // ---------------------------------------------------------------------

  /**
   * `extract_buy_in`: the normal form (a knockout text also matches it, its
   * bounty being read as the rake), else zeros; there is never a bounty.
   */
  function ExtractBuyIn(normal: Option<NormalBuyInMatch>, freeRoll: bool): (r: BuyIn)
    ensures normal.Some? ==>
      r.contribution == ToFloat(Cloud, Some(normal.value.contribution)) && r.rake == ToFloat(Cloud, Some(normal.value.rake))
    ensures r.bounty == 0.0
    ensures normal.None? ==> r.contribution == 0.0 && r.rake == 0.0
  {
    match normal
    case Some(n) => BuyIn(ToFloat(Cloud, Some(n.contribution)), 0.0, ToFloat(Cloud, Some(n.rake)))
    case None =>
      if freeRoll then BuyIn(0.0, 0.0, 0.0)
      else BuyIn(0.0, 0.0, 0.0)
  }

  /** A valid buy-in is never negative, and a free-roll reads as no buy-in. */
  lemma BuyInRead(normal: Option<NormalBuyInMatch>, freeRoll: bool)
    requires normal.Some? ==> normal.value.Valid()
    ensures ExtractBuyIn(normal, freeRoll).contribution >= 0.0 && ExtractBuyIn(normal, freeRoll).rake >= 0.0
    ensures ExtractBuyIn(None, true) == ExtractBuyIn(None, false)
  {
    if normal.Some? {
      AmountNonnegative(normal.value.contribution);
      AmountNonnegative(normal.value.rake);
    }
  }

  /** A buy-in written `i,p€ + j,q€` is read as the decimals `i.p` and `j.q`, with no bounty. */
  lemma NormalBuyInRead(n: NormalBuyInMatch, freeRoll: bool, i: string, p: string, j: string, q: string)
    requires AllDigits(i) && AllDigits(p) && |i| + |p| >= 1
    requires AllDigits(j) && AllDigits(q) && |j| + |q| >= 1
    requires n.contribution == i + "," + p && n.rake == j + "," + q
    ensures ExtractBuyIn(Some(n), freeRoll).contribution == DecimalValue(i, p)
    ensures ExtractBuyIn(Some(n), freeRoll).bounty == 0.0
    ensures ExtractBuyIn(Some(n), freeRoll).rake == DecimalValue(j, q)
  {
    CommaAmountRead(Cloud, n.contribution, i, p);
    CommaAmountRead(Cloud, n.rake, j, q);
  }

  lemma AmountNonnegative(a: string)
    requires IsAmount(a)
    ensures ToFloat(Cloud, Some(a)) >= 0.0
  {
    assert '-' !in a by {
      forall k | 0 <= k < |a|
        ensures a[k] != '-'
      {
      }
    }
    CloudToFloatNonnegative(a);
  }

  /** A level of the tournament structure, numbered from 1. */
  datatype StructureLevel = StructureLevel(value: nat, sb: real, bb: real, ante: real)

  /** The values a tournament-info key can hold: a text, None, or one of the summary's values. */
  datatype InfoValue =
    | Str(text: string)
    | Null
    | Float(number: real)
    | Int(count: nat)
    | Levels(levels: seq<StructureLevel>)

  const TournamentInfoKeys: set<string> := {"tournament_name", "tournament_id", "table_number"}

  /** `extract_tournament_info`: the three groups of the table pattern, or None for each. */
  function ExtractTournamentInfo(m: Option<TableMatch>): (r: map<string, InfoValue>)
    ensures r.Keys == TournamentInfoKeys
    ensures m.None? ==> forall k :: k in r ==> r[k] == Null
    ensures m.Some? ==> r["tournament_name"] == Str(m.value.name) && r["tournament_id"] == Str(m.value.tournamentId)
                        && r["table_number"] == Str(m.value.tableNumber)
  {
    match m
    case None => map["tournament_name" := Null, "tournament_id" := Null, "table_number" := Null]
    case Some(t) => map["tournament_name" := Str(t.name), "tournament_id" := Str(t.tournamentId),
                        "table_number" := Str(t.tableNumber)]
  }

  /** Whose hand the history is when the hero's cards are not shown. */
  const DefaultHero := "manggy94"

  /** `extract_hero_hand`: the hero and their cards, or the account owner without cards. */
  function ExtractHeroHand(m: Option<HeroMatch>): (r: HeroHand)
    ensures m.None? ==> r.hero == DefaultHero && r.firstCard.None? && r.secondCard.None?
    ensures m.Some? ==> r.hero == m.value.name && r.firstCard.Some? && r.secondCard.Some?
                        && r.firstCard.value == m.value.card1 && r.secondCard.value == m.value.card2
  {
    match m
    case None => HeroHand(DefaultHero, None, None)
    case Some(h) => HeroHand(h.name, Some(h.card1), Some(h.card2))
  }

  // ---------------------------------------------------------------------
  // The hand record
  // ---------------------------------------------------------------------

  /** The `level` entry of a hand: its level number and the blinds in play. */
  datatype HandLevel = HandLevel(value: nat, ante: real, sb: real, bb: real)

  datatype CloudRecord = CloudRecord(
    handId: string,
    datetime: string,
    gameType: GameType,
    buyIn: BuyIn,
    level: HandLevel,
    tournamentInfo: map<string, InfoValue>,
    maxPlayers: nat,
    buttonSeat: nat,
    players: map<nat, CloudPlayer>,
    heroHand: HeroHand,
    postings: seq<Posting>,
    actions: map<Street, seq<Action>>,
    flop: FlopCards,
    turn: Option<string>,
    river: Option<string>,
    showdown: map<string, ShownCards>,
    winners: map<string, Winning>)

  /** The values of the keys whose extraction may raise. */
  datatype CloudMandatory = CloudMandatory(handId: string, datetime: string, maxPlayers: nat, button: nat,
                                           players: map<nat, CloudPlayer>)

  /**
   * The keys that may raise, in the record's order: the record is built when
   * all of them are, and otherwise the first one that raises ends the parse.
   */
  function Mandatory(handId: Result<string, Failure>, datetime: Result<string, Failure>,
                     maxPlayers: Result<nat, Failure>, button: Result<nat, Failure>,
                     players: Result<map<nat, CloudPlayer>, Failure>): (r: Result<CloudMandatory, Failure>)
    ensures r.Ok? <==> handId.Ok? && datetime.Ok? && maxPlayers.Ok? && button.Ok? && players.Ok?
    ensures r.Ok? ==> r.value.handId == handId.value && r.value.datetime == datetime.value
                      && r.value.maxPlayers == maxPlayers.value && r.value.button == button.value
                      && r.value.players == players.value
  {
    var h :- handId;
    var d :- datetime;
    var n :- maxPlayers;
    var b :- button;
    var p :- players;
    Ok(CloudMandatory(h, d, n, b, p))
  }

  /** The record `parse_hand` builds, before its players are checked. */
  function ParseRecord(text: string, scan: HandScan): (r: Result<CloudRecord, Failure>)
    ensures r.Ok? ==> scan.datetime.Some? && scan.maxPlayers.Some? && scan.button.Some?
    ensures r.Ok? ==> r.value.tournamentInfo.Keys == TournamentInfoKeys && r.value.buyIn.bounty == 0.0
  {
    var m :- Mandatory(ExtractHandId(text), ExtractDatetime(scan.datetime),
                       RequiredInt(scan.maxPlayers, MaxPlayersField), RequiredInt(scan.button, ButtonField),
                       ExtractPlayers(scan.players));
    var blinds := ExtractBlinds(Cloud, scan.tournamentBlinds, scan.cashBlinds);
    Ok(CloudRecord(m.handId, m.datetime, ExtractGameType(text),
      ExtractBuyIn(scan.normalBuyIn, scan.freeRoll),
      HandLevel(ExtractLevel(text), blinds.ante, blinds.small, blinds.big),
      ExtractTournamentInfo(scan.tournamentInfo), m.maxPlayers, m.button, m.players,
      ExtractHeroHand(scan.hero), ExtractPostings(Cloud, scan.postings),
      ExtractActions(Cloud, text, scan.actionsIn), ExtractFlop(scan.flop), scan.turn, scan.river,
      ExtractShowdown(scan.showdown), ExtractWinners(Cloud, scan.winners)))
  }

  /** What each key that may raise raises on its own, if anything, in the record's order. */
  function Failures(text: string, scan: HandScan): seq<Option<Failure>>
  {
    [FailureOf(ExtractHandId(text)), FailureOf(ExtractDatetime(scan.datetime)),
     FailureOf(RequiredInt(scan.maxPlayers, MaxPlayersField)), FailureOf(RequiredInt(scan.button, ButtonField)),
     FailureOf(ExtractPlayers(scan.players))]
  }

  /** Building the mandatory keys fails exactly when one of them fails, and then with the first failure. */
  lemma MandatoryFirstFailure(handId: Result<string, Failure>, datetime: Result<string, Failure>,
                              maxPlayers: Result<nat, Failure>, button: Result<nat, Failure>,
                              players: Result<map<nat, CloudPlayer>, Failure>)
    ensures var r := Mandatory(handId, datetime, maxPlayers, button, players);
      var first := FirstFailure([FailureOf(handId), FailureOf(datetime), FailureOf(maxPlayers),
        FailureOf(button), FailureOf(players)]);
      (r.Ok? <==> first.None?) && (r.Err? ==> first == Some(r.error))
  {
    var r := Mandatory(handId, datetime, maxPlayers, button, players);
    var checks := [FailureOf(handId), FailureOf(datetime), FailureOf(maxPlayers), FailureOf(button), FailureOf(players)];
    var first := FirstFailure(checks);
    if handId.Err? {
      FirstFailureAt(checks, 0);
    } else if datetime.Err? {
      FirstFailureAt(checks, 1);
    } else if maxPlayers.Err? {
      FirstFailureAt(checks, 2);
    } else if button.Err? {
      FirstFailureAt(checks, 3);
    } else if players.Err? {
      FirstFailureAt(checks, 4);
    }
  }

  /**
   * A hand record is built exactly when no mandatory key fails, and otherwise
   * fails with the failure of the first one, in the record's order.
   */
  lemma ParseRecordFailure(text: string, scan: HandScan)
    ensures ParseRecord(text, scan).Ok? <==> FirstFailure(Failures(text, scan)).None?
    ensures ParseRecord(text, scan).Err? ==> FirstFailure(Failures(text, scan)) == Some(ParseRecord(text, scan).error)
  {
    MandatoryFirstFailure(ExtractHandId(text), ExtractDatetime(scan.datetime),
                          RequiredInt(scan.maxPlayers, MaxPlayersField), RequiredInt(scan.button, ButtonField),
                          ExtractPlayers(scan.players));
  }

  /** The record is built exactly when its mandatory keys are. */
  lemma ParseRecordOk(text: string, scan: HandScan)
    ensures ParseRecord(text, scan).Ok? <==> Mandatory(ExtractHandId(text), ExtractDatetime(scan.datetime),
                       RequiredInt(scan.maxPlayers, MaxPlayersField), RequiredInt(scan.button, ButtonField),
                       ExtractPlayers(scan.players)).Ok?
  {
  }

  /**
   * On a text whose captures all have their pattern's shape, a hand record is
   * built exactly when the text has a hand id, a real date and the two
   * numbers: the table and the hero are never required here.
   */
  lemma ValidScanParses(text: string, scan: HandScan)
    requires scan.Valid()
    ensures ParseRecord(text, scan).Ok? <==>
      ExtractHandId(text).Ok? && scan.datetime.Some? && IsCalendarTime(scan.datetime.value)
      && scan.maxPlayers.Some? && scan.button.Some?
  {
    assert SeatsNumeric(scan.players);
    ParseRecordOk(text, scan);
  }

  /**
   * A built record has the fallbacks of the cloud parser: tournament info
   * with its three keys, the account owner as hero when no cards are dealt,
   * a level 0 without a level line, no player yet checked, and all four streets.
   */
  lemma RecordShape(text: string, scan: HandScan)
    requires ParseRecord(text, scan).Ok?
    ensures var h := ParseRecord(text, scan).value;
      h.tournamentInfo.Keys == TournamentInfoKeys
      && (scan.hero.None? ==> h.heroHand == HeroHand(DefaultHero, None, None))
      && h.level.value == ExtractLevel(text) && h.buyIn.bounty == 0.0
      && (forall k :: k in h.players ==> h.players[k].seat == k && h.players[k].enteredHand.None?)
      && h.actions.Keys == {Preflop, Flop, Turn, River}
  {
  }

  // ---------------------------------------------------------------------
  // Checking the players against the hand
  // ---------------------------------------------------------------------

  /** The names that acted preflop or posted a blind or an ante. */
  function VerifiedNames(preflop: seq<Action>, postings: seq<Posting>): set<string>
  {
    (set i | 0 <= i < |preflop| :: preflop[i].player) + (set j | 0 <= j < |postings| :: postings[j].name)
  }

  /** A player marked with whether their name is among `names`. */
  function Marked(p: CloudPlayer, names: set<string>): CloudPlayer
  {
    p.(enteredHand := Some(p.name in names))
  }

  /** Every player marked. */
  function Checked(players: map<nat, CloudPlayer>, names: set<string>): map<nat, CloudPlayer>
  {
    map k | k in players :: Marked(players[k], names)
  }

  /**
   * After the check, the seats are the same, each player is unchanged but for
   * `enteredHand`, which holds exactly when they acted preflop or posted.
   */
  lemma CheckedMeaning(players: map<nat, CloudPlayer>, preflop: seq<Action>, postings: seq<Posting>)
    ensures var r := Checked(players, VerifiedNames(preflop, postings));
      r.Keys == players.Keys
      && forall k :: k in r ==>
        r[k].seat == players[k].seat && r[k].name == players[k].name
        && r[k].initStack == players[k].initStack && r[k].bounty == players[k].bounty
        && r[k].enteredHand.Some?
        && (r[k].enteredHand.value <==>
             (exists i :: 0 <= i < |preflop| && preflop[i].player == players[k].name)
             || (exists j :: 0 <= j < |postings| && postings[j].name == players[k].name))
  {
    var names := VerifiedNames(preflop, postings);
    forall k | k in players
      ensures Checked(players, names)[k].enteredHand.value <==>
             (exists i :: 0 <= i < |preflop| && preflop[i].player == players[k].name)
             || (exists j :: 0 <= j < |postings| && postings[j].name == players[k].name)
    {
      var n := players[k].name;
      if n in names {
        if n in (set i | 0 <= i < |preflop| :: preflop[i].player) {
          var i :| 0 <= i < |preflop| && preflop[i].player == n;
        } else {
          var j :| 0 <= j < |postings| && postings[j].name == n;
        }
      }
    }
  }

  /** The names the check marks as having entered the hand. */
  function RecordNames(h: CloudRecord): set<string>
    requires Preflop in h.actions
  {
    VerifiedNames(h.actions[Preflop], h.postings)
  }

  /** A record once its players are checked, as `parse_hand` returns it. */
  function CheckedRecord(h: CloudRecord): CloudRecord
    requires Preflop in h.actions
  {
    h.(players := Checked(h.players, RecordNames(h)))
  }

  // ---------------------------------------------------------------------
  // The hand as the mutable dictionary the cloud parser updates
  // ---------------------------------------------------------------------

  /**
   * Overlaying `items` on `m` in order, as successive `m[key] = value`
   * assignments do: the last pair of a key wins.
   */
  function Overlay(m: map<string, InfoValue>, items: seq<(string, InfoValue)>): map<string, InfoValue>
    decreases |items|
  {
    if items == [] then m
    else Overlay(m, items[..|items| - 1])[items[|items| - 1].0 := items[|items| - 1].1]
  }

  /** Overlaying adds the keys of the items to those of `m`, and no others. */
  lemma {:induction false} OverlayKeys(m: map<string, InfoValue>, items: seq<(string, InfoValue)>)
    ensures forall k :: k in Overlay(m, items) <==> k in m || exists i :: 0 <= i < |items| && items[i].0 == k
    decreases |items|
  {
    if items != [] {
      var init := items[..|items| - 1];
      OverlayKeys(m, init);
      forall k
        ensures k in Overlay(m, items) <==> k in m || exists i :: 0 <= i < |items| && items[i].0 == k
      {
        if exists i :: 0 <= i < |init| && init[i].0 == k {
          var i :| 0 <= i < |init| && init[i].0 == k;
          assert items[i].0 == k;
        }
        if exists i :: 0 <= i < |items| && items[i].0 == k {
          var i :| 0 <= i < |items| && items[i].0 == k;
          if i < |init| {
            assert init[i].0 == k;
          }
        }
      }
    }
  }

  /** A key given by an item holds the value of its last item. */
  lemma {:induction false} OverlayLastWins(m: map<string, InfoValue>, items: seq<(string, InfoValue)>, i: nat)
    requires i < |items| && forall j :: i < j < |items| ==> items[j].0 != items[i].0
    ensures items[i].0 in Overlay(m, items) && Overlay(m, items)[items[i].0] == items[i].1
    decreases |items|
  {
    var init := items[..|items| - 1];
    if i < |init| {
      assert init[i] == items[i];
      forall j | i < j < |init|
        ensures init[j].0 != init[i].0
      {
        assert init[j] == items[j];
      }
      OverlayLastWins(m, init, i);
    }
  }

  /** A key of `m` that no item gives keeps its old value. */
  lemma {:induction false} OverlayKeepsOthers(m: map<string, InfoValue>, items: seq<(string, InfoValue)>, k: string)
    requires k in m && forall i :: 0 <= i < |items| ==> items[i].0 != k
    ensures k in Overlay(m, items) && Overlay(m, items)[k] == m[k]
    decreases |items|
  {
    if items != [] {
      var init := items[..|items| - 1];
      forall i | 0 <= i < |init|
        ensures init[i].0 != k
      {
        assert init[i] == items[i];
      }
      OverlayKeepsOthers(m, init, k);
    }
  }

  /**
   * The hand dictionary of the cloud parser: the entries it changes in place
   * (the players, marked by `check_players`, and the tournament info, which
   * the summary is merged into) are fields; the rest never change.
   */
  class CloudHand {
    const handId: string
    const datetime: string
    const gameType: GameType
    const buyIn: BuyIn
    const level: HandLevel
    var tournamentInfo: map<string, InfoValue>
    const maxPlayers: nat
    const buttonSeat: nat
    var players: map<nat, CloudPlayer>
    const heroHand: HeroHand
    const postings: seq<Posting>
    const actions: map<Street, seq<Action>>
    const flop: FlopCards
    const turn: Option<string>
    const river: Option<string>
    const showdown: map<string, ShownCards>
    const winners: map<string, Winning>

    /** The dictionary as a value. */
    function Record(): CloudRecord
      reads this
    {
      CloudRecord(handId, datetime, gameType, buyIn, level, tournamentInfo, maxPlayers, buttonSeat,
        players, heroHand, postings, actions, flop, turn, river, showdown, winners)
    }

    constructor(h: CloudRecord)
      ensures Record() == h
    {
      handId, datetime, gameType, buyIn, level := h.handId, h.datetime, h.gameType, h.buyIn, h.level;
      tournamentInfo, maxPlayers, buttonSeat, players := h.tournamentInfo, h.maxPlayers, h.buttonSeat, h.players;
      heroHand, postings, actions, flop := h.heroHand, h.postings, h.actions, h.flop;
      turn, river, showdown, winners := h.turn, h.river, h.showdown, h.winners;
    }

    /**
     * `check_players`: every player is marked with whether their name acted
     * preflop or posted; nothing else changes.
     */
    method CheckPlayers()
      requires Preflop in actions
      modifies this
      ensures Record() == CheckedRecord(old(Record()))
    {
      var names := VerifiedNames(actions[Preflop], postings);
      ghost var before := players;
      var todo := players.Keys;
      while todo != {}
        invariant todo <= before.Keys && players.Keys == before.Keys
        invariant forall k :: k in players && k !in todo ==> players[k] == Marked(before[k], names)
        invariant forall k :: k in todo ==> players[k] == before[k]
        invariant tournamentInfo == old(tournamentInfo)
        decreases |todo|
      {
        var k :| k in todo;
        players := players[k := Marked(players[k], names)];
        todo := todo - {k};
      }
      assert players == Checked(before, names);
    }

    /**
     * The merge loop of `parse_to_json`: each summary pair is written into the
     * tournament info in turn; nothing else changes.
     */
    method MergeSummary(items: seq<(string, InfoValue)>)
      modifies this
      ensures Record() == old(Record()).(tournamentInfo := Overlay(old(tournamentInfo), items))
    {
      for i := 0 to |items|
        invariant tournamentInfo == Overlay(old(tournamentInfo), items[..i])
        invariant players == old(players)
      {
        assert items[..i + 1][..i] == items[..i];
        tournamentInfo := tournamentInfo[items[i].0 := items[i].1];
      }
      assert items[..|items|] == items;
    }
  }

  /**
   * `parse_hand`: the record, as a fresh dictionary whose players are
   * checked, or the first failure of a mandatory key.
   */
  method ParseHand(text: string, scan: HandScan) returns (r: Result<CloudHand, Failure>)
    ensures r.Ok? <==> ParseRecord(text, scan).Ok?
    ensures r.Err? ==> r.error == ParseRecord(text, scan).error
    ensures r.Ok? ==> fresh(r.value) && Preflop in ParseRecord(text, scan).value.actions
                      && r.value.Record() == CheckedRecord(ParseRecord(text, scan).value)
  {
    var record := ParseRecord(text, scan);
    if record.Err? {
      return Err(record.error);
    }
    var hand := new CloudHand(record.value);
    hand.CheckPlayers();
    return Ok(hand);
  }

  // ---------------------------------------------------------------------
  // The tournament summary
  // ---------------------------------------------------------------------

  /** The prize pool capture `[\d\.\,]+`. */
  predicate IsPrizeAmount(s: string)
  {
    s != [] && forall k :: 0 <= k < |s| ==> IsDigit(s[k]) || s[k] == '.' || s[k] == ','
  }

  /** A `\w+` capture. */
  predicate IsWord(s: string)
  {
    s != [] && forall k :: 0 <= k < |s| ==> IsWordChar(s[k])
  }

  /**
   * The `findall` results of the summary patterns over a summary text, in
   * text order; `levels` holds the first group of the levels pattern.
   */
  datatype SummaryScan = SummaryScan(
    prizePools: seq<string>,
    registeredPlayers: seq<string>,
    speeds: seq<string>,
    startDates: seq<string>,
    levels: seq<string>,
    tournamentTypes: seq<string>)
  {
    /** Every capture has the shape its pattern allows. */
    predicate Valid()
    {
      (forall i :: 0 <= i < |prizePools| ==> IsPrizeAmount(prizePools[i]))
      && (forall i :: 0 <= i < |registeredPlayers| ==> IsNumber(registeredPlayers[i]))
      && (forall i :: 0 <= i < |speeds| ==> IsWord(speeds[i]))
      && (forall i :: 0 <= i < |levels| ==> |levels[i]| >= 2 && '\n' !in levels[i])
      && (forall i :: 0 <= i < |tournamentTypes| ==> IsWord(tournamentTypes[i]))
    }
  }

  /** `findall(...)[-1]`: the last match, None where the index raises IndexError. */
  function LastMatch(xs: seq<string>): (r: Option<string>)
  {
    if xs == [] then None else Some(xs[|xs| - 1])
  }

  /** `extract_prize_pool`: the last prize pool read by `to_float`. */
  function ExtractPrizePool(s: SummaryScan): (r: Result<real, Failure>)
    ensures r.Ok? <==> s.prizePools != []
    ensures r.Ok? ==> r.value == ToFloat(Cloud, Some(s.prizePools[|s.prizePools| - 1]))
    ensures r.Err? ==> r.error == Missing(PrizePoolField)
  {
    var p :- Required(LastMatch(s.prizePools), PrizePoolField);
    Ok(ToFloat(Cloud, Some(p)))
  }

  /** `extract_registered_players`: the last count, as an integer. */
  function ExtractRegisteredPlayers(s: SummaryScan): (r: Result<nat, Failure>)
    ensures r.Ok? <==> s.registeredPlayers != [] && IsNumber(s.registeredPlayers[|s.registeredPlayers| - 1])
    ensures r.Ok? ==> r.value == DigitsValue(s.registeredPlayers[|s.registeredPlayers| - 1])
    ensures r.Err? ==> r.error.field == RegisteredPlayersField
  {
    RequiredInt(LastMatch(s.registeredPlayers), RegisteredPlayersField)
  }

  /** `extract_speed`: the last speed, "normal" when there is none. */
  function ExtractSpeed(s: SummaryScan): (r: string)
    ensures s.speeds == [] ==> r == "normal"
    ensures s.speeds != [] ==> r == s.speeds[|s.speeds| - 1]
  {
    LastMatch(s.speeds).GetOr("normal")
  }

  /** `extract_start_date`: the last start date, as written. */
  function ExtractStartDate(s: SummaryScan): (r: Result<string, Failure>)
    ensures r.Ok? <==> s.startDates != []
    ensures r.Ok? ==> r.value == s.startDates[|s.startDates| - 1]
    ensures r.Err? ==> r.error == Missing(StartDateField)
  {
    Required(LastMatch(s.startDates), StartDateField)
  }

  /** `extract_tournament_type`: the last tournament type. */
  function ExtractTournamentType(s: SummaryScan): (r: Result<string, Failure>)
    ensures r.Ok? <==> s.tournamentTypes != []
    ensures r.Ok? ==> r.value == s.tournamentTypes[|s.tournamentTypes| - 1]
    ensures r.Err? ==> r.error == Missing(TournamentTypeField)
  {
    Required(LastMatch(s.tournamentTypes), TournamentTypeField)
  }

  /** `to_float` of the cloud parser on a captured text. */
  function CloudFloat(s: string): real
  {
    ToFloat(Cloud, Some(s))
  }

  /** A level of the structure under its number, its three fields read by `read`. */
  function ReadLevel(t: LevelMatch, value: nat, read: string -> real): StructureLevel
  {
    StructureLevel(value, read(t.small), read(t.big), read(t.ante))
  }

  /** `extract_level_from_structure`: the fields 0, 1 and 2 of a level are its small blind, big blind and ante. */
  function ExtractLevelFromStructure(t: LevelMatch, value: nat): (r: StructureLevel)
    ensures r.value == value
    ensures IsNumber(t.small) ==> r.sb == DigitsValue(t.small) as real
    ensures IsNumber(t.big) ==> r.bb == DigitsValue(t.big) as real
    ensures IsNumber(t.ante) ==> r.ante == DigitsValue(t.ante) as real
  {
    NumberRead(t.small);
    NumberRead(t.big);
    NumberRead(t.ante);
    ReadLevel(t, value, CloudFloat)
  }

  /** A captured number is read by `to_float` as the number it spells. */
  lemma NumberRead(d: string)
    ensures IsNumber(d) ==> CloudFloat(d) == DigitsValue(d) as real
  {
    if IsNumber(d) {
      ToFloatDigits(Cloud, d);
    }
  }

  /** The levels numbered 1 to n, in order, as `enumerate(levels, start=1)` does. */
  function NumberLevels(ls: seq<LevelMatch>, read: string -> real): (r: seq<StructureLevel>)
    ensures |r| == |ls|
    ensures forall i :: 0 <= i < |ls| ==> r[i] == ReadLevel(ls[i], i + 1, read)
    decreases |ls|
  {
    if ls == [] then []
    else NumberLevels(ls[..|ls| - 1], read) + [ReadLevel(ls[|ls| - 1], |ls|, read)]
  }

  /**
   * `extract_levels_structure`: the `findall` rows of the level-list pattern
   * on the last levels list, numbered 1 to n in order, each read by
   * `extract_level_from_structure`. The pattern's field class takes in the
   * separating comma, so two or more entries run together (`LevelsStructureMerges`).
   */
  function ExtractLevelsStructure(s: SummaryScan): (r: Result<seq<StructureLevel>, Failure>)
    ensures r.Ok? <==> s.levels != []
    ensures r.Ok? ==> var ls := LevelList(s.levels[|s.levels| - 1]);
      |r.value| == |ls| && forall i :: 0 <= i < |ls| ==> r.value[i] == ExtractLevelFromStructure(ls[i], i + 1)
    ensures r.Err? ==> r.error == Missing(LevelsStructureField)
  {
    var t :- Required(LastMatch(s.levels), LevelsStructureField);
    Ok(NumberLevels(LevelList(t), CloudFloat))
  }

  /**
   * The levels structure as the summary format means it: the last levels
   * list read entry by entry between its commas, numbered 1 to n.
   */
  function IntendedLevelsStructure(s: SummaryScan): (r: Result<seq<StructureLevel>, Failure>)
    ensures r.Ok? <==> s.levels != []
    ensures r.Ok? ==> var ls := IntendedLevelList(s.levels[|s.levels| - 1]);
      |r.value| == |ls| && forall i :: 0 <= i < |ls| ==> r.value[i] == ExtractLevelFromStructure(ls[i], i + 1)
    ensures r.Err? ==> r.error == Missing(LevelsStructureField)
  {
    var t :- Required(LastMatch(s.levels), LevelsStructureField);
    Ok(NumberLevels(IntendedLevelList(t), CloudFloat))
  }

  /** A level read from digits holds those numbers: `sb`, `bb` and `ante` are the fields 0, 1 and 2. */
  lemma LevelFromDigits(a: string, b: string, c: string, value: nat)
    requires IsNumber(a) && IsNumber(b) && IsNumber(c)
    ensures ExtractLevelFromStructure(LevelMatch(a, b, c), value)
      == StructureLevel(value, DigitsValue(a) as real, DigitsValue(b) as real, DigitsValue(c) as real)
  {
    ToFloatDigits(Cloud, a);
    ToFloatDigits(Cloud, b);
    ToFloatDigits(Cloud, c);
  }

  /** Read entry by entry, the levels of a written list are its entries, numbered from 1 in order, none lost. */
  lemma LevelsStructureRead(s: SummaryScan, xs: seq<LevelMatch>)
    requires forall i :: 0 <= i < |xs| ==> IsPlainEntry(xs[i])
    requires s.levels != [] && s.levels[|s.levels| - 1] == LevelsText(xs)
    ensures IntendedLevelsStructure(s).Ok?
    ensures |IntendedLevelsStructure(s).value| == |xs|
    ensures forall i :: 0 <= i < |xs| ==>
      IntendedLevelsStructure(s).value[i] == StructureLevel(i + 1, CloudFloat(xs[i].small), CloudFloat(xs[i].big), CloudFloat(xs[i].ante))
  {
    IntendedRoundTrip(xs);
  }

  /**
   * With the pattern as written, a list of two entries gives one level: the
   * first entry's blinds, and as ante the first ante and the second small
   * blind joined by their comma, which `to_float` then reads as a decimal.
   */
  lemma LevelsStructureMerges(s: SummaryScan, x: LevelMatch, y: LevelMatch)
    requires IsPlainEntry(x) && IsPlainEntry(y)
    requires s.levels != [] && s.levels[|s.levels| - 1] == LevelsText([x, y])
    ensures ExtractLevelsStructure(s).Ok?
    ensures ExtractLevelsStructure(s).value
      == [StructureLevel(1, CloudFloat(x.small), CloudFloat(x.big), CloudFloat(x.ante + "," + y.small))]
    ensures |IntendedLevelsStructure(s).value| == 2
  {
    LevelListLosesEntries(x, y);
  }

  /** A levels list of one entry `a-b:c` of digits is the single level 1, in both readings. */
  lemma SingleLevelStructure(s: SummaryScan, a: string, b: string, c: string)
    requires IsNumber(a) && IsNumber(b) && IsNumber(c)
    requires s.levels != [] && s.levels[|s.levels| - 1] == a + "-" + b + ":" + c
    ensures ExtractLevelsStructure(s).Ok?
    ensures ExtractLevelsStructure(s).value
      == [StructureLevel(1, DigitsValue(a) as real, DigitsValue(b) as real, DigitsValue(c) as real)]
    ensures IntendedLevelsStructure(s) == ExtractLevelsStructure(s)
  {
    var x := LevelMatch(a, b, c);
    OneEntryText(x);
    NumberIsPlain(a);
    NumberIsPlain(b);
    NumberIsPlain(c);
    SingleEntryAgrees(x);
    LevelFromDigits(a, b, c, 1);
  }

  datatype SummaryInfo = SummaryInfo(prizePool: real, registeredPlayers: nat, speed: string, startDate: string,
                                     levelsStructure: seq<StructureLevel>, tournamentType: string)

  /** The summary keys in their order: built when none raises, else the first failure ends it. */
  function Summary(prizePool: Result<real, Failure>, registeredPlayers: Result<nat, Failure>, speed: string,
                   startDate: Result<string, Failure>, levelsStructure: Result<seq<StructureLevel>, Failure>,
                   tournamentType: Result<string, Failure>): (r: Result<SummaryInfo, Failure>)
    ensures r.Ok? <==> prizePool.Ok? && registeredPlayers.Ok? && startDate.Ok? && levelsStructure.Ok? && tournamentType.Ok?
    ensures r.Ok? ==> r.value == SummaryInfo(prizePool.value, registeredPlayers.value, speed, startDate.value,
                                             levelsStructure.value, tournamentType.value)
  {
    var p :- prizePool;
    var n :- registeredPlayers;
    var d :- startDate;
    var l :- levelsStructure;
    var t :- tournamentType;
    Ok(SummaryInfo(p, n, speed, d, l, t))
  }

  /** `get_summary_info`: every summary extractor, in the order of its keys. */
  function GetSummaryInfo(s: SummaryScan): (r: Result<SummaryInfo, Failure>)
    ensures r.Ok? <==> s.prizePools != [] && s.registeredPlayers != [] && IsNumber(s.registeredPlayers[|s.registeredPlayers| - 1])
                       && s.startDates != [] && s.levels != [] && s.tournamentTypes != []
    ensures r.Ok? ==> r.value.speed == ExtractSpeed(s) && r.value.levelsStructure == ExtractLevelsStructure(s).value
  {
    Summary(ExtractPrizePool(s), ExtractRegisteredPlayers(s), ExtractSpeed(s), ExtractStartDate(s),
            ExtractLevelsStructure(s), ExtractTournamentType(s))
  }

  /** What each summary key raises on its own, if anything, in key order. */
  function SummaryFailures(s: SummaryScan): seq<Option<Failure>>
  {
    [FailureOf(ExtractPrizePool(s)), FailureOf(ExtractRegisteredPlayers(s)), FailureOf(ExtractStartDate(s)),
     FailureOf(ExtractLevelsStructure(s)), FailureOf(ExtractTournamentType(s))]
  }

  lemma SummaryFirstFailure(prizePool: Result<real, Failure>, registeredPlayers: Result<nat, Failure>, speed: string,
                            startDate: Result<string, Failure>, levelsStructure: Result<seq<StructureLevel>, Failure>,
                            tournamentType: Result<string, Failure>)
    ensures var r := Summary(prizePool, registeredPlayers, speed, startDate, levelsStructure, tournamentType);
      var first := FirstFailure([FailureOf(prizePool), FailureOf(registeredPlayers), FailureOf(startDate),
        FailureOf(levelsStructure), FailureOf(tournamentType)]);
      (r.Ok? <==> first.None?) && (r.Err? ==> first == Some(r.error))
  {
    var r := Summary(prizePool, registeredPlayers, speed, startDate, levelsStructure, tournamentType);
    var checks := [FailureOf(prizePool), FailureOf(registeredPlayers), FailureOf(startDate),
      FailureOf(levelsStructure), FailureOf(tournamentType)];
    var first := FirstFailure(checks);
    if prizePool.Err? {
      FirstFailureAt(checks, 0);
    } else if registeredPlayers.Err? {
      FirstFailureAt(checks, 1);
    } else if startDate.Err? {
      FirstFailureAt(checks, 2);
    } else if levelsStructure.Err? {
      FirstFailureAt(checks, 3);
    } else if tournamentType.Err? {
      FirstFailureAt(checks, 4);
    }
  }

  /**
   * The summary is read exactly when every key but the speed finds a match
   * (and the last registered count is a number), and otherwise fails with
   * the first key, in order, that does not.
   */
  lemma SummaryFailure(s: SummaryScan)
    ensures GetSummaryInfo(s).Ok? <==> FirstFailure(SummaryFailures(s)).None?
    ensures GetSummaryInfo(s).Err? ==> FirstFailure(SummaryFailures(s)) == Some(GetSummaryInfo(s).error)
    ensures GetSummaryInfo(s).Ok? <==>
      s.prizePools != [] && s.registeredPlayers != [] && IsNumber(s.registeredPlayers[|s.registeredPlayers| - 1])
      && s.startDates != [] && s.levels != [] && s.tournamentTypes != []
  {
    SummaryFirstFailure(ExtractPrizePool(s), ExtractRegisteredPlayers(s), ExtractSpeed(s), ExtractStartDate(s),
                        ExtractLevelsStructure(s), ExtractTournamentType(s));
  }

  /** The summary's pairs in the order `summary_info.items()` yields them. */
  function SummaryItems(si: SummaryInfo): seq<(string, InfoValue)>
  {
    [("prize_pool", Float(si.prizePool)), ("registered_players", Int(si.registeredPlayers)),
     ("speed", Str(si.speed)), ("start_date", Str(si.startDate)),
     ("levels_structure", Levels(si.levelsStructure)), ("tournament_type", Str(si.tournamentType))]
  }

  const SummaryKeys: set<string> := {"prize_pool", "registered_players", "speed", "start_date",
                                     "levels_structure", "tournament_type"}

  /**
   * Merging a summary adds its six keys with their values, overwriting any
   * earlier value, and keeps every other key as it was.
   */
  lemma MergedSummary(m: map<string, InfoValue>, si: SummaryInfo)
    ensures var r := Overlay(m, SummaryItems(si));
      r.Keys == m.Keys + SummaryKeys
      && r["prize_pool"] == Float(si.prizePool) && r["registered_players"] == Int(si.registeredPlayers)
      && r["speed"] == Str(si.speed) && r["start_date"] == Str(si.startDate)
      && r["levels_structure"] == Levels(si.levelsStructure) && r["tournament_type"] == Str(si.tournamentType)
      && forall k :: k in m && k !in SummaryKeys ==> r[k] == m[k]
  {
    var items := SummaryItems(si);
    var m1 := m["prize_pool" := Float(si.prizePool)];
    var m2 := m1["registered_players" := Int(si.registeredPlayers)];
    var m3 := m2["speed" := Str(si.speed)];
    var m4 := m3["start_date" := Str(si.startDate)];
    var m5 := m4["levels_structure" := Levels(si.levelsStructure)];
    var m6 := m5["tournament_type" := Str(si.tournamentType)];
    assert items[..1][..0] == [];
    assert Overlay(m, items[..1]) == m1;
    assert items[..2][..1] == items[..1];
    assert Overlay(m, items[..2]) == m2;
    assert items[..3][..2] == items[..2];
    assert Overlay(m, items[..3]) == m3;
    assert items[..4][..3] == items[..3];
    assert Overlay(m, items[..4]) == m4;
    assert items[..5][..4] == items[..4];
    assert Overlay(m, items[..5]) == m5;
    assert items[..5] == items[..|items| - 1];
    assert Overlay(m, items) == m6;
  }

  // ---------------------------------------------------------------------
  // parse_to_json
  // ---------------------------------------------------------------------

  /**
   * `parse_to_json` on a split hand history whose text has the captures
   * `scan` and whose summary (read from `GetSummaryPath(historyPath)`) has
   * the captures `summary`: the destination key and the hand to write there,
   * its players checked and the summary merged into its tournament info.
   * A hand that fails ends it before the summary is read.
   */
  method ParseToJson(historyPath: string, text: string, scan: HandScan, summary: SummaryScan)
    returns (r: Result<(string, CloudHand), Failure>)
    ensures r.Ok? <==> ParseRecord(text, scan).Ok? && GetSummaryInfo(summary).Ok?
    ensures r.Err? && ParseRecord(text, scan).Err? ==> r.error == ParseRecord(text, scan).error
    ensures r.Err? && ParseRecord(text, scan).Ok? ==> r.error == GetSummaryInfo(summary).error
    ensures r.Ok? ==> r.value.0 == GetDestinationPath(historyPath) && fresh(r.value.1)
                      && Preflop in ParseRecord(text, scan).value.actions
    ensures r.Ok? ==> var h := CheckedRecord(ParseRecord(text, scan).value);
      r.value.1.Record() == h.(tournamentInfo := Overlay(h.tournamentInfo, SummaryItems(GetSummaryInfo(summary).value)))
  {
    var destination := GetDestinationPath(historyPath);
    var hand := ParseHand(text, scan);
    if hand.Err? {
      return Err(hand.error);
    }
    var info := GetSummaryInfo(summary);
    if info.Err? {
      return Err(info.error);
    }
    hand.value.MergeSummary(SummaryItems(info.value));
    return Ok((destination, hand.value));
  }
}
