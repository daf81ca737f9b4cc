/**
 * `HandHistoryParser`, the local parser: one Winamax hand text becomes one
 * hand record, or the first failure a mandatory field raises.
 */
module LocalParser {
  import opened Wrappers
  import opened Text
  import opened Numbers
  import opened Winamax
  import opened Extractors

  // ---------------------------------------------------------------------
  // Players
  // ---------------------------------------------------------------------

  /** A seated player; `bounty` is None at tables without bounties. */
  datatype Player = Player(seat: nat, pseudo: string, stack: real, bounty: Option<real>)

  /** What a player row records. */
  function PlayerOf(row: PlayerMatch): Player
  {
    Player(SeatOf(row), row.name, ToFloat(Local, Some(row.stack)),
      if row.bounty != [] then Some(ToFloat(Local, Some(row.bounty))) else None)
  }

  /**
   * `extract_players`: the players keyed by `int(seat)`; each key is the
   * record's own seat, every row's seat is a key, and a later row for the
   * same seat overwrites an earlier one. A seat `int()` rejects raises ValueError.
   */
  function ExtractPlayers(rows: seq<PlayerMatch>): (r: Result<map<nat, Player>, Failure>)
    ensures r.Ok? <==> SeatsNumeric(rows)
    ensures r.Err? ==> r.error == Malformed(PlayersField)
    ensures r.Ok? ==> forall k :: k in r.value ==> r.value[k].seat == k
    ensures r.Ok? ==> forall i :: 0 <= i < |rows| ==> DigitsValue(rows[i].seat) in r.value
    ensures r.Ok? ==> forall k :: k in r.value ==> exists i :: 0 <= i < |rows| && SeatOf(rows[i]) == k && r.value[k] == PlayerOf(rows[i])
    ensures r.Ok? ==> forall i :: 0 <= i < |rows| && IsLastKey(rows, SeatOf, i) ==> r.value[SeatOf(rows[i])] == PlayerOf(rows[i])
  {
    if SeatsNumeric(rows) then
      var m := Collect(rows, SeatOf, PlayerOf);
      assert forall k :: k in m ==> m[k].seat == k by {
        forall k | k in m
          ensures m[k].seat == k
        {
          var i :| 0 <= i < |rows| && SeatOf(rows[i]) == k && m[k] == PlayerOf(rows[i]);
        }
      }
      Ok(m)
    else Err(Malformed(PlayersField))
  }

  /** A valid player row: the stack is the number written, and the bounty is present exactly when written, never negative. */
  lemma PlayerRead(row: PlayerMatch)
    requires row.Valid()
    ensures PlayerOf(row).seat == DigitsValue(row.seat)
    ensures PlayerOf(row).stack == DigitsValue(row.stack) as real
    ensures PlayerOf(row).bounty.None? <==> row.bounty == []
    ensures PlayerOf(row).bounty.Some? ==> PlayerOf(row).bounty.value >= 0.0
  {
    ToFloatDigits(Local, row.stack);
    if row.bounty != [] {
      assert '-' !in row.bounty by {
        forall k | 0 <= k < |row.bounty|
          ensures row.bounty[k] != '-'
        {
        }
      }
      LocalToFloatNonnegative(row.bounty);
    }
  }

  // ---------------------------------------------------------------------
  // Buy-in
  // ---------------------------------------------------------------------

  /**
   * `extract_buy_in`: the knockout form first, then the normal form (with a
   * bounty of 0), then the free-roll marker (all 0); every value goes through
   * `to_float`, which reads the integer 0 and None alike as 0.0.
   */
  function ExtractBuyIn(ko: Option<KnockoutBuyInMatch>, normal: Option<NormalBuyInMatch>, freeRoll: bool): (r: BuyIn)
    ensures ko.Some? ==> r == BuyIn(ToFloat(Local, Some(ko.value.contribution)), ToFloat(Local, Some(ko.value.bounty)),
                                    ToFloat(Local, Some(ko.value.rake)))
    ensures ko.None? && normal.Some? ==>
      r.contribution == ToFloat(Local, Some(normal.value.contribution)) && r.rake == ToFloat(Local, Some(normal.value.rake))
    ensures ko.None? ==> r.bounty == 0.0
    ensures ko.None? && normal.None? ==> r.contribution == 0.0 && r.rake == 0.0
  {
    match ko
    case Some(k) => BuyIn(ToFloat(Local, Some(k.contribution)), ToFloat(Local, Some(k.bounty)), ToFloat(Local, Some(k.rake)))
    case None =>
      match normal
      case Some(n) => BuyIn(ToFloat(Local, Some(n.contribution)), ToFloat(Local, None), ToFloat(Local, Some(n.rake)))
      case None =>
        if freeRoll then BuyIn(ToFloat(Local, None), ToFloat(Local, None), ToFloat(Local, None))
        else BuyIn(ToFloat(Local, None), ToFloat(Local, None), ToFloat(Local, None))
  }

  /**
   * The knockout form decides alone when present: the normal match (which
   * every knockout text also produces) and the free-roll marker are ignored.
   * A free-roll and a hand without any buy-in read the same.
   */
  lemma BuyInPrecedence(k: KnockoutBuyInMatch, n: Option<NormalBuyInMatch>, freeRoll: bool)
    ensures ExtractBuyIn(Some(k), n, freeRoll) == ExtractBuyIn(Some(k), None, false)
    ensures ExtractBuyIn(None, None, true) == ExtractBuyIn(None, None, false)
  {
  }

  /** A normal buy-in written `i,p€ + j,q€` is read as the decimals `i.p` and `j.q`, with no bounty. */
  lemma NormalBuyInRead(n: NormalBuyInMatch, freeRoll: bool, i: string, p: string, j: string, q: string)
    requires AllDigits(i) && AllDigits(p) && |i| + |p| >= 1
    requires AllDigits(j) && AllDigits(q) && |j| + |q| >= 1
    requires n.contribution == i + "," + p && n.rake == j + "," + q
    ensures ExtractBuyIn(None, Some(n), freeRoll).contribution == DecimalValue(i, p)
    ensures ExtractBuyIn(None, Some(n), freeRoll).bounty == 0.0
    ensures ExtractBuyIn(None, Some(n), freeRoll).rake == DecimalValue(j, q)
  {
    CommaAmountRead(Local, n.contribution, i, p);
    CommaAmountRead(Local, n.rake, j, q);
  }

  /** A knockout buy-in written `i,p€ + b€ + j,q€` is read as `i.p`, the bounty `b` and `j.q`. */
  lemma KnockoutBuyInRead(k: KnockoutBuyInMatch, i: string, p: string, b: string, j: string, q: string)
    requires AllDigits(i) && AllDigits(p) && |i| + |p| >= 1
    requires b != [] && AllDigits(b)
    requires AllDigits(j) && AllDigits(q) && |j| + |q| >= 1
    requires k.contribution == i + "," + p && k.bounty == b && k.rake == j + "," + q
    ensures ExtractBuyIn(Some(k), None, false).contribution == DecimalValue(i, p)
    ensures ExtractBuyIn(Some(k), None, false).bounty == DigitsValue(b) as real
    ensures ExtractBuyIn(Some(k), None, false).rake == DecimalValue(j, q)
  {
    CommaAmountRead(Local, k.contribution, i, p);
    ToFloatDigits(Local, b);
    CommaAmountRead(Local, k.rake, j, q);
  }

  /** The amounts of a valid buy-in are never negative. */
  lemma BuyInNonnegative(ko: Option<KnockoutBuyInMatch>, normal: Option<NormalBuyInMatch>, freeRoll: bool)
    requires ko.Some? ==> ko.value.Valid()
    requires normal.Some? ==> normal.value.Valid()
    ensures ExtractBuyIn(ko, normal, freeRoll).contribution >= 0.0
    ensures ExtractBuyIn(ko, normal, freeRoll).bounty >= 0.0
    ensures ExtractBuyIn(ko, normal, freeRoll).rake >= 0.0
  {
    match ko
    case Some(k) =>
      AmountNonnegative(k.contribution);
      AmountNonnegative(k.bounty);
      AmountNonnegative(k.rake);
    case None =>
      if normal.Some? {
        AmountNonnegative(normal.value.contribution);
        AmountNonnegative(normal.value.rake);
      }
  }

  lemma AmountNonnegative(a: string)
    requires IsAmount(a)
    ensures ToFloat(Local, Some(a)) >= 0.0
  {
    assert '-' !in a by {
      forall k | 0 <= k < |a|
        ensures a[k] != '-'
      {
      }
    }
    LocalToFloatNonnegative(a);
  }

  // ---------------------------------------------------------------------
  // Hero
  // ---------------------------------------------------------------------

  /** `extract_hero_hand`: who the hero is and their two cards; no match raises AttributeError. */
  function ExtractHeroHand(m: Option<HeroMatch>): (r: Result<HeroHand, Failure>)
    ensures r.Ok? <==> m.Some?
    ensures r.Ok? ==> r.value.hero == m.value.name && r.value.firstCard.Some? && r.value.secondCard.Some?
    ensures r.Ok? ==> r.value.firstCard.value == m.value.card1 && r.value.secondCard.value == m.value.card2
    ensures r.Err? ==> r.error == Missing(HeroHandField)
  {
    match m
    case None => Err(Missing(HeroHandField))
    case Some(h) => Ok(HeroHand(h.name, Some(h.card1), Some(h.card2)))
  }

  // ---------------------------------------------------------------------
  // The hand record
  // ---------------------------------------------------------------------

  datatype Hand = Hand(
    handId: string,
    datetime: string,
    gameType: GameType,
    buyIn: BuyIn,
    blinds: Blinds,
    level: nat,
    maxPlayers: nat,
    buttonSeat: nat,
    tableName: string,
    tableIdent: string,
    players: map<nat, Player>,
    heroHand: HeroHand,
    postings: seq<Posting>,
    actions: map<Street, seq<Action>>,
    flop: FlopCards,
    turn: Option<string>,
    river: Option<string>,
    showdown: map<string, ShownCards>,
    winners: map<string, Winning>)

  /** The values of the keys whose extraction may raise. */
  datatype MandatoryFields = MandatoryFields(
    handId: string, datetime: string, maxPlayers: nat, button: nat,
    tableName: string, tableIdent: string, players: map<nat, Player>, hero: HeroHand)

  /**
   * The keys that may raise, in the record's order: the record is built when
   * all of them are, and otherwise the first one that raises ends the parse.
   */
  function Mandatory(handId: Result<string, Failure>, datetime: Result<string, Failure>,
                     maxPlayers: Result<nat, Failure>, button: Result<nat, Failure>,
                     tableName: Result<string, Failure>, tableIdent: Result<string, Failure>,
                     players: Result<map<nat, Player>, Failure>, hero: Result<HeroHand, Failure>)
    : (r: Result<MandatoryFields, Failure>)
    ensures r.Ok? <==> handId.Ok? && datetime.Ok? && maxPlayers.Ok? && button.Ok?
                       && tableName.Ok? && tableIdent.Ok? && players.Ok? && hero.Ok?
    ensures r.Ok? ==> r.value.handId == handId.value && r.value.datetime == datetime.value
                      && r.value.maxPlayers == maxPlayers.value && r.value.button == button.value
                      && r.value.tableName == tableName.value && r.value.tableIdent == tableIdent.value
                      && r.value.players == players.value && r.value.hero == hero.value
  {
    var h :- handId;
    var d :- datetime;
    var n :- maxPlayers;
    var b :- button;
    var t :- tableName;
    var i :- tableIdent;
    var p :- players;
    var e :- hero;
    Ok(MandatoryFields(h, d, n, b, t, i, p, e))
  }

  /**
   * `parse_hand`: the record of every extractor, in the record's order; the
   * keys that cannot raise are filled around the ones that may.
   */
  function ParseHand(text: string, scan: HandScan): (r: Result<Hand, Failure>)
    ensures r.Ok? ==> scan.datetime.Some? && scan.maxPlayers.Some? && scan.button.Some?
                      && scan.tableName.Some? && scan.tableIdent.Some? && scan.hero.Some?
    ensures r.Ok? ==> r.value.actions.Keys == {Preflop, Flop, Turn, River}
  {
    var m :- Mandatory(ExtractHandId(text), ExtractDatetime(scan.datetime),
                       RequiredInt(scan.maxPlayers, MaxPlayersField), RequiredInt(scan.button, ButtonField),
                       Required(scan.tableName, TableNameField), Required(scan.tableIdent, TableIdentField),
                       ExtractPlayers(scan.players), ExtractHeroHand(scan.hero));
    Ok(Hand(m.handId, m.datetime, ExtractGameType(text),
      ExtractBuyIn(scan.knockoutBuyIn, scan.normalBuyIn, scan.freeRoll),
      ExtractBlinds(Local, scan.tournamentBlinds, scan.cashBlinds),
      ExtractLevel(text), m.maxPlayers, m.button, m.tableName, m.tableIdent, m.players, m.hero,
      ExtractPostings(Local, scan.postings), ExtractActions(Local, text, scan.actionsIn),
      ExtractFlop(scan.flop), scan.turn, scan.river,
      ExtractShowdown(scan.showdown), ExtractWinners(Local, scan.winners)))
  }

  /** What each mandatory key raises on its own, if anything, in the record's order. */
  function Failures(text: string, scan: HandScan): seq<Option<Failure>>
  {
    [FailureOf(ExtractHandId(text)), FailureOf(ExtractDatetime(scan.datetime)),
     FailureOf(RequiredInt(scan.maxPlayers, MaxPlayersField)), FailureOf(RequiredInt(scan.button, ButtonField)),
     FailureOf(Required(scan.tableName, TableNameField)), FailureOf(Required(scan.tableIdent, TableIdentField)),
     FailureOf(ExtractPlayers(scan.players)), FailureOf(ExtractHeroHand(scan.hero))]
  }

  /**
   * Building the mandatory keys fails exactly when one of them fails, and then
   * with the failure of the first one, in the record's order.
   */
  lemma MandatoryFirstFailure(handId: Result<string, Failure>, datetime: Result<string, Failure>,
                              maxPlayers: Result<nat, Failure>, button: Result<nat, Failure>,
                              tableName: Result<string, Failure>, tableIdent: Result<string, Failure>,
                              players: Result<map<nat, Player>, Failure>, hero: Result<HeroHand, Failure>)
    ensures var r := Mandatory(handId, datetime, maxPlayers, button, tableName, tableIdent, players, hero);
      var first := FirstFailure([FailureOf(handId), FailureOf(datetime), FailureOf(maxPlayers),
        FailureOf(button), FailureOf(tableName), FailureOf(tableIdent), FailureOf(players), FailureOf(hero)]);
      (r.Ok? <==> first.None?) && (r.Err? ==> first == Some(r.error))
  {
    if handId.Err? || datetime.Err? || maxPlayers.Err? || button.Err? {
      MandatoryFailsEarly(handId, datetime, maxPlayers, button, tableName, tableIdent, players, hero);
    } else {
      MandatoryFailsLate(handId, datetime, maxPlayers, button, tableName, tableIdent, players, hero);
    }
  }

  /** The first failure among the first four keys. */
  lemma MandatoryFailsEarly(handId: Result<string, Failure>, datetime: Result<string, Failure>,
                            maxPlayers: Result<nat, Failure>, button: Result<nat, Failure>,
                            tableName: Result<string, Failure>, tableIdent: Result<string, Failure>,
                            players: Result<map<nat, Player>, Failure>, hero: Result<HeroHand, Failure>)
    requires handId.Err? || datetime.Err? || maxPlayers.Err? || button.Err?
    ensures var r := Mandatory(handId, datetime, maxPlayers, button, tableName, tableIdent, players, hero);
      r.Err? && FirstFailure([FailureOf(handId), FailureOf(datetime), FailureOf(maxPlayers),
        FailureOf(button), FailureOf(tableName), FailureOf(tableIdent), FailureOf(players), FailureOf(hero)]) == Some(r.error)
  {
    var checks := [FailureOf(handId), FailureOf(datetime), FailureOf(maxPlayers),
      FailureOf(button), FailureOf(tableName), FailureOf(tableIdent), FailureOf(players), FailureOf(hero)];
    if handId.Err? {
      FirstFailureAt(checks, 0);
    } else if datetime.Err? {
      FirstFailureAt(checks, 1);
    } else if maxPlayers.Err? {
      FirstFailureAt(checks, 2);
    } else {
      FirstFailureAt(checks, 3);
    }
  }

  /** With the first four keys built, the first failure among the last four, if any. */
  lemma MandatoryFailsLate(handId: Result<string, Failure>, datetime: Result<string, Failure>,
                           maxPlayers: Result<nat, Failure>, button: Result<nat, Failure>,
                           tableName: Result<string, Failure>, tableIdent: Result<string, Failure>,
                           players: Result<map<nat, Player>, Failure>, hero: Result<HeroHand, Failure>)
    requires handId.Ok? && datetime.Ok? && maxPlayers.Ok? && button.Ok?
    ensures var r := Mandatory(handId, datetime, maxPlayers, button, tableName, tableIdent, players, hero);
      var first := FirstFailure([FailureOf(handId), FailureOf(datetime), FailureOf(maxPlayers),
        FailureOf(button), FailureOf(tableName), FailureOf(tableIdent), FailureOf(players), FailureOf(hero)]);
      (r.Ok? <==> first.None?) && (r.Err? ==> first == Some(r.error))
  {
    var checks := [FailureOf(handId), FailureOf(datetime), FailureOf(maxPlayers),
      FailureOf(button), FailureOf(tableName), FailureOf(tableIdent), FailureOf(players), FailureOf(hero)];
    assert forall j :: 0 <= j < 4 ==> checks[j].None?;
    if tableName.Err? {
      FirstFailureAt(checks, 4);
    } else if tableIdent.Err? {
      FirstFailureAt(checks, 5);
    } else if players.Err? {
      FirstFailureAt(checks, 6);
    } else if hero.Err? {
      FirstFailureAt(checks, 7);
    }
  }

  /**
   * A hand parses exactly when no mandatory key fails, and otherwise fails
   * with the failure of the first mandatory key, in the record's order, that fails.
   */
  lemma ParseHandFailure(text: string, scan: HandScan)
    ensures ParseHand(text, scan).Ok? <==> FirstFailure(Failures(text, scan)).None?
    ensures ParseHand(text, scan).Err? ==> FirstFailure(Failures(text, scan)) == Some(ParseHand(text, scan).error)
  {
    MandatoryFirstFailure(ExtractHandId(text), ExtractDatetime(scan.datetime),
                          RequiredInt(scan.maxPlayers, MaxPlayersField), RequiredInt(scan.button, ButtonField),
                          Required(scan.tableName, TableNameField), Required(scan.tableIdent, TableIdentField),
                          ExtractPlayers(scan.players), ExtractHeroHand(scan.hero));
  }

  /** The record is built exactly when its mandatory keys are. */
  lemma ParseHandOk(text: string, scan: HandScan)
    ensures ParseHand(text, scan).Ok? <==> Mandatory(ExtractHandId(text), ExtractDatetime(scan.datetime),
                       RequiredInt(scan.maxPlayers, MaxPlayersField), RequiredInt(scan.button, ButtonField),
                       Required(scan.tableName, TableNameField), Required(scan.tableIdent, TableIdentField),
                       ExtractPlayers(scan.players), ExtractHeroHand(scan.hero)).Ok?
  {
  }

  /**
   * On a text whose captures all have their pattern's shape, the players and
   * the two numbers never fail: a hand parses exactly when it has a hand id,
   * a real date, the two numbers, the table's name and ident, and the hero's cards.
   */
  lemma ValidScanParses(text: string, scan: HandScan)
    requires scan.Valid()
    ensures ParseHand(text, scan).Ok? <==>
      ExtractHandId(text).Ok? && scan.datetime.Some? && IsCalendarTime(scan.datetime.value)
      && scan.maxPlayers.Some? && scan.button.Some? && scan.tableName.Some? && scan.tableIdent.Some?
      && scan.hero.Some?
  {
    assert SeatsNumeric(scan.players);
    ParseHandOk(text, scan);
  }

  /**
   * A parsed hand keeps what the extractors promise: a display date that
   * reads back to the captured timestamp, exactly the four streets as action
   * keys, and every player under their own seat.
   */
  lemma ParsedHandShape(text: string, scan: HandScan)
    requires ParseHand(text, scan).Ok?
    ensures var h := ParseHand(text, scan).value;
      scan.datetime.Some? && IsDisplayDate(h.datetime) && Unformat(h.datetime) == scan.datetime.value
      && h.actions.Keys == {Preflop, Flop, Turn, River}
      && (forall k :: k in h.players ==> h.players[k].seat == k)
      && h.handId != [] && h.level == ExtractLevel(text)
  {
  }
}
