/**
 * The extractors the local parser (`HandHistoryParser`) and the cloud parser
 * (`S3HandHistoryParser`) share: both classes carry the same code for them,
 * differing at most in which `to_float` they call, which is the `Flavour`
 * parameter here.
 */
module Extractors {
  import opened Wrappers
  import opened Text
  import opened Numbers
  import opened Winamax

  // ---------------------------------------------------------------------
  // Failures
  // ---------------------------------------------------------------------

  /** The record key whose extraction failed. */
  datatype Field =
    | HandIdField | DatetimeField | MaxPlayersField | ButtonField | TableNameField | TableIdentField
    | PlayersField | HeroHandField
    | PrizePoolField | RegisteredPlayersField | StartDateField | LevelsStructureField | TournamentTypeField

  /**
   * Why a parse stops: a required pattern found nothing (an AttributeError on
   * `None.group`, or an IndexError on `[][-1]`), or `int()` or `strptime`
   * rejected the captured text (a ValueError).
   */
  datatype Failure = Missing(field: Field) | Malformed(field: Field)

  /** The failure a step raises, if any. */
  function FailureOf<T>(r: Result<T, Failure>): Option<Failure>
  {
    if r.Ok? then None else Some(r.error)
  }

  /** The first failure of a sequence of independent checks. */
  function FirstFailure(checks: seq<Option<Failure>>): (r: Option<Failure>)
    ensures r.None? <==> forall i :: 0 <= i < |checks| ==> checks[i].None?
    ensures r.Some? ==> exists i :: 0 <= i < |checks| && checks[i] == r
                           && forall j :: 0 <= j < i ==> checks[j].None?
    decreases |checks|
  {
    if checks == [] then None
    else if checks[0].Some? then checks[0]
    else
      var rest := FirstFailure(checks[1..]);
      if rest.Some? then
        var i :| 0 <= i < |checks[1..]| && checks[1..][i] == rest
          && forall j :: 0 <= j < i ==> checks[1..][j].None?;
        assert checks[i + 1] == rest;
        rest
      else rest
  }

  /** A failing check that only passing checks precede is the first failure. */
  lemma FirstFailureAt(checks: seq<Option<Failure>>, k: nat)
    requires k < |checks| && checks[k].Some? && forall j :: 0 <= j < k ==> checks[j].None?
    ensures FirstFailure(checks) == checks[k]
  {
    var r := FirstFailure(checks);
    var i :| 0 <= i < |checks| && checks[i] == r && forall j :: 0 <= j < i ==> checks[j].None?;
    assert i == k;
  }

  // ---------------------------------------------------------------------
  // What the patterns find in a hand text
  // ---------------------------------------------------------------------

  /**
   * The results of the patterns that are not scanned here, on one hand text:
   * `findall` rows, or the groups of the first `search` match (None when the
   * pattern does not match). `actionsIn(b)` is `findall` of the action
   * pattern over the text `b` of one street.
   */
  datatype HandScan = HandScan(
    players: seq<PlayerMatch>,
    postings: seq<PostingMatch>,
    knockoutBuyIn: Option<KnockoutBuyInMatch>,
    normalBuyIn: Option<NormalBuyInMatch>,
    freeRoll: bool,
    datetime: Option<string>,
    tournamentBlinds: Option<TournamentBlindsMatch>,
    cashBlinds: Option<CashBlindsMatch>,
    maxPlayers: Option<string>,
    button: Option<string>,
    tableName: Option<string>,
    tableIdent: Option<string>,
    tournamentInfo: Option<TableMatch>,
    hero: Option<HeroMatch>,
    flop: Option<FlopMatch>,
    turn: Option<string>,
    river: Option<string>,
    actionsIn: string -> seq<ActionMatch>,
    showdown: seq<ShowdownMatch>,
    winners: seq<WinnerMatch>)
  {
    /** Every capture has the shape its pattern allows. */
    ghost predicate Valid()
    {
      (forall i :: 0 <= i < |players| ==> players[i].Valid())
      && (forall i :: 0 <= i < |postings| ==> postings[i].Valid())
      && (knockoutBuyIn.Some? ==> knockoutBuyIn.value.Valid())
      && (normalBuyIn.Some? ==> normalBuyIn.value.Valid())
      && (datetime.Some? ==> IsTimestamp(datetime.value))
      && (tournamentBlinds.Some? ==> tournamentBlinds.value.Valid())
      && (cashBlinds.Some? ==> cashBlinds.value.Valid())
      && (maxPlayers.Some? ==> IsNumber(maxPlayers.value))
      && (button.Some? ==> IsNumber(button.value))
      && (tournamentInfo.Some? ==> tournamentInfo.value.Valid())
      && (hero.Some? ==> hero.value.Valid())
      && (flop.Some? ==> flop.value.Valid())
      && (turn.Some? ==> IsCard(turn.value))
      && (river.Some? ==> IsCard(river.value))
      && (forall b: string, i :: 0 <= i < |actionsIn(b)| ==> actionsIn(b)[i].Valid())
      && (forall i :: 0 <= i < |showdown| ==> showdown[i].Valid())
      && (forall i :: 0 <= i < |winners| ==> winners[i].Valid())
    }
  }

  // ---------------------------------------------------------------------
  // Game type
  // ---------------------------------------------------------------------

  datatype GameType = Tournament | CashGame | Unknown

  /** `extract_game_type`: the first of "Tournament", "CashGame" the text contains, else Unknown. */
  function ExtractGameType(text: string): (r: GameType)
    ensures r == Tournament <==> Contains(text, "Tournament")
    ensures r == CashGame <==> !Contains(text, "Tournament") && Contains(text, "CashGame")
  {
    if Contains(text, "Tournament") then Tournament
    else if Contains(text, "CashGame") then CashGame
    else Unknown
  }

  /**
   * The game type tells which names occur: Tournament exactly when the text
   * holds "Tournament" (wherever "CashGame" is), CashGame exactly when it holds
   * "CashGame" but not "Tournament", Unknown when it holds neither.
   */
  lemma GameTypeNames(text: string)
    ensures ExtractGameType(text) == Tournament <==> Contains(text, "Tournament")
    ensures ExtractGameType(text) == CashGame <==> !Contains(text, "Tournament") && Contains(text, "CashGame")
    ensures ExtractGameType(text) == Unknown <==> !Contains(text, "Tournament") && !Contains(text, "CashGame")
  {
  }

  /** A tournament hand text is recognised as such wherever the word stands. */
  lemma TournamentAnywhere(p: string, t: string)
    ensures ExtractGameType(p + "Tournament" + t) == Tournament
  {
    var s := p + "Tournament" + t;
    assert s[|p|..|p| + 10] == "Tournament";
    assert OccursAt(s, |p|, "Tournament");
  }

  // ---------------------------------------------------------------------
  // Mandatory single captures
  // ---------------------------------------------------------------------

  /**
   * `int(re.search(...).group(1))` for a mandatory key: no match raises
   * AttributeError, a capture that is not a decimal number raises ValueError.
   */
  function RequiredInt(m: Option<string>, field: Field): (r: Result<nat, Failure>)
    ensures r.Ok? <==> m.Some? && IsNumber(m.value)
    ensures r.Ok? ==> r.value == DigitsValue(m.value)
    ensures r.Err? ==> r.error == (if m.None? then Missing(field) else Malformed(field))
  {
    match m
    case None => Err(Missing(field))
    case Some(d) => if IsNumber(d) then Ok(DigitsValue(d)) else Err(Malformed(field))
  }

  /** `re.search(...).group(1)` for a mandatory key: no match raises AttributeError. */
  function Required(m: Option<string>, field: Field): (r: Result<string, Failure>)
    ensures r.Ok? <==> m.Some?
    ensures r.Ok? ==> r.value == m.value
    ensures r.Err? ==> r.error == Missing(field)
  {
    match m
    case None => Err(Missing(field))
    case Some(v) => Ok(v)
  }

  /** Every capture of the number patterns is read by int(): max players and button never fail on a match. */
  lemma NumbersParse(m: Option<string>, field: Field)
    requires m.Some? ==> IsNumber(m.value)
    ensures RequiredInt(m, field).Err? <==> m.None?
    ensures RequiredInt(m, field).Err? ==> RequiredInt(m, field).error == Missing(field)
  {
  }

  // ---------------------------------------------------------------------
  // Datetime: strptime("%Y/%m/%d %H:%M:%S") then strftime("%d-%m-%Y %H:%M:%S")
  // ---------------------------------------------------------------------

  predicate DigitsBetween(s: string, lo: nat, hi: nat)
  {
    hi <= |s| && forall k :: lo <= k < hi ==> IsDigit(s[k])
  }

  /** The number written in `s[lo..hi]`. */
  function Part(s: string, lo: nat, hi: nat): nat
    requires lo <= hi && DigitsBetween(s, lo, hi)
  {
    assert AllDigits(s[lo..hi]) by {
      forall k | 0 <= k < hi - lo
        ensures IsDigit(s[lo..hi][k])
      {
        assert s[lo..hi][k] == s[lo + k];
      }
    }
    DigitsValue(s[lo..hi])
  }

  predicate IsLeapYear(y: nat)
  {
    y % 4 == 0 && (y % 100 != 0 || y % 400 == 0)
  }

  /** Days in month `m` (1..12) of year `y` in the proleptic Gregorian calendar. */
  function DaysInMonth(y: nat, m: nat): nat
  {
    if m == 2 then (if IsLeapYear(y) then 29 else 28)
    else if m == 4 || m == 6 || m == 9 || m == 11 then 30
    else 31
  }

  lemma TimestampDigits(ts: string)
    requires IsTimestamp(ts)
    ensures DigitsBetween(ts, 0, 4) && DigitsBetween(ts, 5, 7) && DigitsBetween(ts, 8, 10)
    ensures DigitsBetween(ts, 11, 13) && DigitsBetween(ts, 14, 16) && DigitsBetween(ts, 17, 19)
  {
  }

  /** The timestamp names a moment `datetime` accepts: year at least 1, a real day of a real month, h < 24, m < 60, s < 60. */
  predicate IsCalendarTime(ts: string)
    requires IsTimestamp(ts)
  {
    TimestampDigits(ts);
    var year := Part(ts, 0, 4);
    var month := Part(ts, 5, 7);
    1 <= year && 1 <= month <= 12 && 1 <= Part(ts, 8, 10) <= DaysInMonth(year, month)
    && Part(ts, 11, 13) < 24 && Part(ts, 14, 16) < 60 && Part(ts, 17, 19) < 60
  }

  /** `DD-MM-YYYY HH:MM:SS`: the layout the parsers write dates in. */
  predicate IsDisplayDate(d: string)
  {
    |d| == 19 && d[2] == '-' && d[5] == '-' && d[10] == ' ' && d[13] == ':' && d[16] == ':'
    && DigitsBetween(d, 0, 2) && DigitsBetween(d, 3, 5) && DigitsBetween(d, 6, 10)
    && DigitsBetween(d, 11, 13) && DigitsBetween(d, 14, 16) && DigitsBetween(d, 17, 19)
  }

  /** The digits of a `YYYY/MM/DD HH:MM:SS` timestamp rearranged as `DD-MM-YYYY HH:MM:SS`. */
  function Reformat(ts: string): (d: string)
    requires |ts| == 19
    ensures |d| == 19
  {
    ts[8..10] + "-" + ts[5..7] + "-" + ts[..4] + " " + ts[11..]
  }

  /** The inverse rearrangement, from `DD-MM-YYYY HH:MM:SS` back to `YYYY/MM/DD HH:MM:SS`. */
  function Unformat(d: string): (ts: string)
    requires |d| == 19
    ensures |ts| == 19
  {
    d[6..10] + "/" + d[3..5] + "/" + d[..2] + " " + d[11..]
  }

  /** Where each character of a reformatted timestamp comes from. */
  lemma ReformatAt(ts: string, k: nat)
    requires |ts| == 19 && k < 19
    ensures Reformat(ts)[k]
      == if k < 2 then ts[k + 8] else if k == 2 then '-' else if k < 5 then ts[k + 2]
         else if k == 5 then '-' else if k < 10 then ts[k - 6] else if k == 10 then ' ' else ts[k]
  {
    var d := Reformat(ts);
    if k < 2 {
      assert d[k] == ts[8..10][k];
    } else if 2 < k < 5 {
      assert d[k] == ts[5..7][k - 3];
    } else if 5 < k < 10 {
      assert d[k] == ts[..4][k - 6];
    } else if 10 < k {
      assert d[k] == ts[11..][k - 11];
    }
  }

  /** Where each character of an unformatted display date comes from. */
  lemma UnformatAt(d: string, k: nat)
    requires |d| == 19 && k < 19
    ensures Unformat(d)[k]
      == if k < 4 then d[k + 6] else if k == 4 then '/' else if k < 7 then d[k - 2]
         else if k == 7 then '/' else if k < 10 then d[k - 8] else if k == 10 then ' ' else d[k]
  {
    var ts := Unformat(d);
    if k < 4 {
      assert ts[k] == d[6..10][k];
    } else if 4 < k < 7 {
      assert ts[k] == d[3..5][k - 5];
    } else if 7 < k < 10 {
      assert ts[k] == d[..2][k - 8];
    } else if 10 < k {
      assert ts[k] == d[11..][k - 11];
    }
  }

  /** Reformatting a timestamp gives a display date, and nothing is lost: it reads back to the timestamp. */
  lemma ReformatRoundTrip(ts: string)
    requires IsTimestamp(ts)
    ensures IsDisplayDate(Reformat(ts)) && Unformat(Reformat(ts)) == ts
  {
    var d := Reformat(ts);
    forall k | 0 <= k < 19
      ensures Unformat(d)[k] == ts[k]
    {
      UnformatAt(d, k);
      var j := if k < 4 then k + 6 else if 4 < k < 7 then k - 2 else if 7 < k < 10 then k - 8 else k;
      ReformatAt(ts, j);
    }
    forall k | 0 <= k < 19
      ensures k !in {2, 5, 10, 13, 16} ==> IsDigit(d[k])
      ensures k in {2, 5} ==> d[k] == '-'
      ensures k == 10 ==> d[k] == ' '
      ensures k in {13, 16} ==> d[k] == ':'
    {
      ReformatAt(ts, k);
    }
  }

  /** Every display date is the reformatting of exactly one timestamp. */
  lemma UnformatRoundTrip(d: string)
    requires IsDisplayDate(d)
    ensures IsTimestamp(Unformat(d)) && Reformat(Unformat(d)) == d
  {
    var ts := Unformat(d);
    forall k | 0 <= k < 19
      ensures Reformat(ts)[k] == d[k]
    {
      ReformatAt(ts, k);
      var j := if k < 2 then k + 8 else if 2 < k < 5 then k + 2 else if 5 < k < 10 then k - 6 else k;
      UnformatAt(d, j);
    }
    forall k | 0 <= k < 19
      ensures k !in {4, 7, 10, 13, 16} ==> IsDigit(ts[k])
      ensures k in {4, 7} ==> ts[k] == '/'
      ensures k == 10 ==> ts[k] == ' '
      ensures k in {13, 16} ==> ts[k] == ':'
    {
      UnformatAt(d, k);
    }
  }

  /**
   * `extract_datetime`: the timestamp capture, checked against the calendar by
   * strptime and rewritten by strftime. No match raises AttributeError, an
   * impossible date or time raises ValueError.
   */
  function ExtractDatetime(m: Option<string>): (r: Result<string, Failure>)
    ensures r.Ok? <==> m.Some? && IsTimestamp(m.value) && IsCalendarTime(m.value)
    ensures r.Ok? ==> IsDisplayDate(r.value) && Unformat(r.value) == m.value
    ensures r.Err? ==> r.error == (if m.None? then Missing(DatetimeField) else Malformed(DatetimeField))
  {
    match m
    case None => Err(Missing(DatetimeField))
    case Some(ts) =>
      if IsTimestamp(ts) && IsCalendarTime(ts) then
        ReformatRoundTrip(ts);
        Ok(Reformat(ts))
      else Err(Malformed(DatetimeField))
  }

  // ---------------------------------------------------------------------
  // Hand id and level
  // ---------------------------------------------------------------------

  /** `extract_hand_id`: the first `HandId: #` capture; a text without one raises AttributeError. */
  function ExtractHandId(text: string): (r: Result<string, Failure>)
    ensures r.Ok? ==> r.value != [] && forall k :: 0 <= k < |r.value| ==> IsHandIdChar(r.value[k])
    ensures r.Err? <==> forall i: nat :: i < |text| ==> !LeadsRun(text, i, "HandId: #", IsHandIdChar)
    ensures r.Err? ==> r.error == Missing(HandIdField)
  {
    var id := SearchHandId(text);
    if id.None? then Err(Missing(HandIdField)) else Ok(id.value)
  }

  /** The hand id is the whole run of digits and dashes after the first `HandId: #`. */
  lemma HandIdFound(p: string, id: string, t: string)
    requires id != [] && forall k :: 0 <= k < |id| ==> IsHandIdChar(id[k])
    requires t == [] || !IsHandIdChar(t[0])
    requires forall j: nat :: j < |p| ==> !LeadsRun(p + "HandId: #" + id + t, j, "HandId: #", IsHandIdChar)
    ensures ExtractHandId(p + "HandId: #" + id + t).Ok?
    ensures ExtractHandId(p + "HandId: #" + id + t).value == id
  {
    SearchAfterFinds(p, "HandId: #", id, t, IsHandIdChar);
  }

  /** `extract_level`: the number after the first `level: `, or 0 when there is none. */
  function ExtractLevel(text: string): (r: nat)
    ensures r != 0 ==> exists i: nat :: i < |text| && LeadsRun(text, i, "level: ", IsDigit)
  {
    var d := SearchLevel(text);
    if d.None? then 0 else DigitsValue(d.value)
  }

  /** A text without a level gets level 0. */
  lemma LevelDefault(text: string)
    requires forall i: nat :: i < |text| ==> !LeadsRun(text, i, "level: ", IsDigit)
    ensures ExtractLevel(text) == 0
  {
  }

  /** The level is the value of the whole digit run after the first `level: `. */
  lemma LevelFound(p: string, d: string, t: string)
    requires IsNumber(d) && (t == [] || !IsDigit(t[0]))
    requires forall j: nat :: j < |p| ==> !LeadsRun(p + "level: " + d + t, j, "level: ", IsDigit)
    ensures ExtractLevel(p + "level: " + d + t) == DigitsValue(d)
  {
    SearchAfterFinds(p, "level: ", d, t, IsDigit);
  }

  // ---------------------------------------------------------------------
  // Board
  // ---------------------------------------------------------------------

  datatype FlopCards = FlopCards(card1: Option<string>, card2: Option<string>, card3: Option<string>)

  /** `extract_flop`: the three flop cards, all present or all None. */
  function ExtractFlop(m: Option<FlopMatch>): (r: FlopCards)
    ensures r.card1.Some? == m.Some? && r.card2.Some? == m.Some? && r.card3.Some? == m.Some?
    ensures m.Some? ==> [r.card1.value, r.card2.value, r.card3.value] == [m.value.card1, m.value.card2, m.value.card3]
  {
    match m
    case None => FlopCards(None, None, None)
    case Some(c) => FlopCards(Some(c.card1), Some(c.card2), Some(c.card3))
  }

  // ---------------------------------------------------------------------
  // Blinds
  // ---------------------------------------------------------------------

  datatype Blinds = Blinds(ante: real, small: real, big: real)

  /**
   * `extract_blinds`: the tournament form `(ante/sb/bb)` first, else the cash
   * form `(sb/bb)` with "€" removed and the integer 0 as ante, else None for
   * all three; every value then goes through `to_float` (the integer 0 and None
   * both have no `replace`, so both give 0.0).
   */
  function ExtractBlinds(f: Flavour, tb: Option<TournamentBlindsMatch>, cb: Option<CashBlindsMatch>): (r: Blinds)
    ensures tb.Some? ==> r == Blinds(ToFloat(f, Some(tb.value.ante)), ToFloat(f, Some(tb.value.small)), ToFloat(f, Some(tb.value.big)))
    ensures tb.None? && cb.Some? ==>
      r.small == ToFloat(f, Some(Replace(cb.value.small, "€", ""))) && r.big == ToFloat(f, Some(Replace(cb.value.big, "€", "")))
    ensures tb.None? ==> r.ante == 0.0
    ensures tb.None? && cb.None? ==> r.small == 0.0 && r.big == 0.0
  {
    match tb
    case Some(t) => Blinds(ToFloat(f, Some(t.ante)), ToFloat(f, Some(t.small)), ToFloat(f, Some(t.big)))
    case None =>
      match cb
      case Some(c) => Blinds(ToFloat(f, None), ToFloat(f, Some(Replace(c.small, "€", ""))), ToFloat(f, Some(Replace(c.big, "€", ""))))
      case None => Blinds(ToFloat(f, None), ToFloat(f, None), ToFloat(f, None))
  }

  /** Tournament blinds take precedence, and are read as the numbers they are. */
  lemma TournamentBlindsRead(f: Flavour, t: TournamentBlindsMatch, cb: Option<CashBlindsMatch>)
    requires t.Valid()
    ensures ExtractBlinds(f, Some(t), cb).ante == DigitsValue(t.ante) as real
    ensures ExtractBlinds(f, Some(t), cb).small == DigitsValue(t.small) as real
    ensures ExtractBlinds(f, Some(t), cb).big == DigitsValue(t.big) as real
  {
    ToFloatDigits(f, t.ante);
    ToFloatDigits(f, t.small);
    ToFloatDigits(f, t.big);
  }

  /** Removing "€" from an amount written with a trailing euro sign leaves the amount. */
  lemma EuroRemoved(x: string)
    requires '€' !in x
    ensures Replace(x + "€", "€", "") == x
  {
    ReplaceOnce(x, '€', "", "");
    assert x + "€" == x + ['€'] + "";
  }

  /** Cash blinds written `x€/y€` are read as `x` and `y`, with no ante. */
  lemma CashBlindsRead(f: Flavour, c: CashBlindsMatch, x: string, y: string)
    requires c.small == x + "€" && c.big == y + "€" && '€' !in x && '€' !in y
    ensures ExtractBlinds(f, None, Some(c)).ante == 0.0
    ensures ExtractBlinds(f, None, Some(c)).small == ToFloat(f, Some(x))
    ensures ExtractBlinds(f, None, Some(c)).big == ToFloat(f, Some(y))
  {
    EuroRemoved(x);
    EuroRemoved(y);
  }

  // ---------------------------------------------------------------------
  // Dict comprehensions over findall rows
  // ---------------------------------------------------------------------

  /** No row after the `i`-th has the same key. */
  predicate IsLastKey<T, K(==)>(rows: seq<T>, key: T -> K, i: int)
    requires 0 <= i < |rows|
  {
    forall j :: i < j < |rows| ==> key(rows[j]) != key(rows[i])
  }

  /**
   * `{key(x): val(x) for x in rows}`: the keys are those of the rows, each
   * value comes from a row with its key, and a later row with the same key
   * overwrites an earlier one.
   */
  function Collect<T, K(==), V>(rows: seq<T>, key: T -> K, val: T -> V): (m: map<K, V>)
    ensures forall i :: 0 <= i < |rows| ==> key(rows[i]) in m
    ensures forall k :: k in m ==> exists i :: 0 <= i < |rows| && key(rows[i]) == k && m[k] == val(rows[i])
    ensures forall i :: 0 <= i < |rows| && IsLastKey(rows, key, i) ==> m[key(rows[i])] == val(rows[i])
    decreases |rows|
  {
    if rows == [] then map[]
    else
      var init := rows[..|rows| - 1];
      var last := rows[|rows| - 1];
      var m := Collect(init, key, val);
      CollectLast(rows, key, val, m);
      m[key(last) := val(last)]
  }

  /** Adding the last row to the collection of the others keeps the three facts of `Collect`. */
  lemma CollectLast<T, K, V>(rows: seq<T>, key: T -> K, val: T -> V, m: map<K, V>)
    requires rows != []
    requires var init := rows[..|rows| - 1];
      (forall i :: 0 <= i < |init| ==> key(init[i]) in m)
      && (forall k :: k in m ==> exists i :: 0 <= i < |init| && key(init[i]) == k && m[k] == val(init[i]))
      && (forall i :: 0 <= i < |init| && IsLastKey(init, key, i) ==> m[key(init[i])] == val(init[i]))
    ensures var r := m[key(rows[|rows| - 1]) := val(rows[|rows| - 1])];
      (forall i :: 0 <= i < |rows| ==> key(rows[i]) in r)
      && (forall k :: k in r ==> exists i :: 0 <= i < |rows| && key(rows[i]) == k && r[k] == val(rows[i]))
      && (forall i :: 0 <= i < |rows| && IsLastKey(rows, key, i) ==> r[key(rows[i])] == val(rows[i]))
  {
    CollectLastKeys(rows, key, val, m);
    CollectLastFrom(rows, key, val, m);
    CollectLastWins(rows, key, val, m);
  }

  lemma CollectLastKeys<T, K, V>(rows: seq<T>, key: T -> K, val: T -> V, m: map<K, V>)
    requires rows != []
    requires var init := rows[..|rows| - 1]; forall i :: 0 <= i < |init| ==> key(init[i]) in m
    ensures var r := m[key(rows[|rows| - 1]) := val(rows[|rows| - 1])];
      forall i :: 0 <= i < |rows| ==> key(rows[i]) in r
  {
    var init := rows[..|rows| - 1];
    forall i | 0 <= i < |rows| - 1
      ensures key(rows[i]) in m
    {
      assert init[i] == rows[i];
    }
  }

  lemma CollectLastFrom<T, K, V>(rows: seq<T>, key: T -> K, val: T -> V, m: map<K, V>)
    requires rows != []
    requires var init := rows[..|rows| - 1];
      forall k :: k in m ==> exists i :: 0 <= i < |init| && key(init[i]) == k && m[k] == val(init[i])
    ensures var r := m[key(rows[|rows| - 1]) := val(rows[|rows| - 1])];
      forall k :: k in r ==> exists i :: 0 <= i < |rows| && key(rows[i]) == k && r[k] == val(rows[i])
  {
    var init := rows[..|rows| - 1];
    var n := |rows| - 1;
    var r := m[key(rows[n]) := val(rows[n])];
    forall k | k in r
      ensures exists i :: 0 <= i < |rows| && key(rows[i]) == k && r[k] == val(rows[i])
    {
      if k == key(rows[n]) {
        assert key(rows[n]) == k && r[k] == val(rows[n]);
      } else {
        var i :| 0 <= i < |init| && key(init[i]) == k && m[k] == val(init[i]);
        assert rows[i] == init[i];
        assert key(rows[i]) == k && r[k] == val(rows[i]);
      }
    }
  }

  lemma CollectLastWins<T, K, V>(rows: seq<T>, key: T -> K, val: T -> V, m: map<K, V>)
    requires rows != []
    requires var init := rows[..|rows| - 1]; forall i :: 0 <= i < |init| ==> key(init[i]) in m
    requires var init := rows[..|rows| - 1];
      forall i :: 0 <= i < |init| && IsLastKey(init, key, i) ==> m[key(init[i])] == val(init[i])
    ensures var r := m[key(rows[|rows| - 1]) := val(rows[|rows| - 1])];
      forall i :: 0 <= i < |rows| && IsLastKey(rows, key, i) ==> r[key(rows[i])] == val(rows[i])
  {
    var init := rows[..|rows| - 1];
    var n := |rows| - 1;
    var r := m[key(rows[n]) := val(rows[n])];
    forall i | 0 <= i < n && IsLastKey(rows, key, i)
      ensures r[key(rows[i])] == val(rows[i])
    {
      assert init[i] == rows[i];
      forall j | i < j < |init|
        ensures key(init[j]) != key(init[i])
      {
        assert init[j] == rows[j];
      }
      assert IsLastKey(init, key, i);
      assert key(rows[i]) != key(rows[n]);
    }
  }

  // ---------------------------------------------------------------------
  // Showdown and winners
  // ---------------------------------------------------------------------

  datatype ShownCards = ShownCards(firstCard: string, secondCard: string)

  /** The stripped name of a showdown row: the key it fills. */
  function ShowdownKey(row: ShowdownMatch): string
  {
    Strip(row.name)
  }

  function ShownCardsOf(row: ShowdownMatch): ShownCards
  {
    ShownCards(row.card1, row.card2)
  }

  /**
   * `extract_showdown`: the cards each player shows, keyed by the stripped
   * name; every shown name is a key, and a later row for the same name wins.
   */
  function ExtractShowdown(rows: seq<ShowdownMatch>): (r: map<string, ShownCards>)
    ensures forall i :: 0 <= i < |rows| ==> Strip(rows[i].name) in r
    ensures forall k :: k in r ==> exists i :: 0 <= i < |rows| && Strip(rows[i].name) == k && r[k] == ShownCards(rows[i].card1, rows[i].card2)
    ensures forall i :: 0 <= i < |rows| && IsLastKey(rows, ShowdownKey, i) ==> r[Strip(rows[i].name)] == ShownCards(rows[i].card1, rows[i].card2)
  {
    Collect(rows, ShowdownKey, ShownCardsOf)
  }

  datatype Winning = Winning(amount: real, potType: string)

  function WinnerKey(row: WinnerMatch): string
  {
    row.name
  }

  /** What a winners row records: the amount read by `to_float`, and the pot. */
  function WinningOf(f: Flavour, row: WinnerMatch): Winning
  {
    Winning(ToFloat(f, Some(row.amount)), row.potType)
  }

  function LocalWinning(row: WinnerMatch): Winning
  {
    WinningOf(Local, row)
  }

  function CloudWinning(row: WinnerMatch): Winning
  {
    WinningOf(Cloud, row)
  }

  /**
   * `extract_winners`: what each winner collected and from which pot, keyed
   * by the captured name; a later row for the same name wins.
   */
  function ExtractWinners(f: Flavour, rows: seq<WinnerMatch>): (r: map<string, Winning>)
    ensures forall i :: 0 <= i < |rows| ==> rows[i].name in r
    ensures forall k :: k in r ==> exists i :: 0 <= i < |rows| && rows[i].name == k && r[k] == WinningOf(f, rows[i])
    ensures forall i :: 0 <= i < |rows| && IsLastKey(rows, WinnerKey, i) ==> r[rows[i].name] == WinningOf(f, rows[i])
  {
    match f
    case Local => Collect(rows, WinnerKey, LocalWinning)
    case Cloud => Collect(rows, WinnerKey, CloudWinning)
  }

  /** A valid winners row is read as the whole amount it names, from a pot, the main pot or a numbered side pot. */
  lemma WinningRead(f: Flavour, row: WinnerMatch)
    requires row.Valid()
    ensures WinningOf(f, row).amount == DigitsValue(row.amount) as real
    ensures IsPotType(WinningOf(f, row).potType)
  {
    ToFloatDigits(f, row.amount);
  }

  // ---------------------------------------------------------------------
  // Postings and actions
  // ---------------------------------------------------------------------

  /** One blind or ante posted: the name stripped, the amount read by `to_float`. */
  datatype Posting = Posting(name: string, amount: real, blindType: string)

  /** What a blinds row records: the name stripped, the amount read by `to_float`, the blind type. */
  function PostingOf(f: Flavour, row: PostingMatch): Posting
  {
    Posting(Strip(row.name), ToFloat(f, Some(row.amount)), row.blindType)
  }

  /** `extract_posting`: one posting per row of the blinds pattern, in text order. */
  function ExtractPostings(f: Flavour, rows: seq<PostingMatch>): (r: seq<Posting>)
    ensures |r| == |rows|
    ensures forall i :: 0 <= i < |rows| ==> r[i] == PostingOf(f, rows[i])
    decreases |rows|
  {
    if rows == [] then []
    else [PostingOf(f, rows[0])] + ExtractPostings(f, rows[1..])
  }

  /**
   * A valid blinds row is read as the player's name without the line break
   * the pattern captures before it, a blind type, and a non-negative amount.
   */
  lemma PostingRead(f: Flavour, row: PostingMatch)
    requires row.Valid()
    ensures var p := PostingOf(f, row);
      p.name == Strip(row.name[1..]) && IsBlindType(p.blindType) && p.amount >= 0.0
  {
    var n := row.name;
    assert n == ['\n'] + n[1..];
    StripLeadingSpace('\n', n[1..]);
    var a := row.amount;
    assert '-' !in a by {
      forall k | 0 <= k < |a|
        ensures a[k] != '-'
      {
      }
    }
    match f
    case Local => LocalToFloatNonnegative(a);
    case Cloud => CloudToFloatNonnegative(a);
  }

  /** One action: who acted (stripped), the move, and the amount read by `to_float`. */
  datatype Action = Action(player: string, move: string, amount: real)

  /** What an action row records: the player stripped, the move, the amount read by `to_float`. */
  function ActionOf(f: Flavour, row: ActionMatch): Action
  {
    Action(Strip(row.name), row.move, ToFloat(f, Some(row.amount)))
  }

  /** `parse_actions`: one action per row of the action pattern, in text order. */
  function ParseActions(f: Flavour, rows: seq<ActionMatch>): (r: seq<Action>)
    ensures |r| == |rows|
    ensures forall i :: 0 <= i < |rows| ==> r[i] == ActionOf(f, rows[i])
    decreases |rows|
  {
    if rows == [] then []
    else [ActionOf(f, rows[0])] + ParseActions(f, rows[1..])
  }

  /**
   * A valid action row is read as one of the five moves, by a player whose
   * name is at most 12 characters with no surrounding whitespace, for the
   * captured number, or 0.0 when the move carries none.
   */
  lemma ActionRead(f: Flavour, row: ActionMatch)
    requires row.Valid()
    ensures var a := ActionOf(f, row);
      IsMove(a.move) && |a.player| <= 12 && (a.player == [] || (!IsSpace(a.player[0]) && !IsSpace(a.player[|a.player| - 1])))
      && a.amount == (if row.amount == [] then 0.0 else DigitsValue(row.amount) as real)
  {
    if row.amount == [] {
      ToFloatEmpty(f);
    } else {
      ToFloatDigits(f, row.amount);
    }
  }

  /** The actions of one street: those in its text, or none when the street pattern does not match. */
  function StreetActions(f: Flavour, text: string, st: Street, actionsIn: string -> seq<ActionMatch>): seq<Action>
  {
    var body := StreetBody(text, st);
    if body.None? then [] else ParseActions(f, actionsIn(body.value))
  }

  /**
   * `extract_actions`: exactly the four streets as keys; a street whose
   * pattern does not match has no actions, the others the actions parsed
   * from their text.
   */
  function ExtractActions(f: Flavour, text: string, actionsIn: string -> seq<ActionMatch>): (r: map<Street, seq<Action>>)
    ensures r.Keys == {Preflop, Flop, Turn, River}
    ensures forall st :: st in r ==> (StreetBody(text, st).None? ==> r[st] == [])
    ensures forall st :: st in r ==> (StreetBody(text, st).Some? ==> r[st] == ParseActions(f, actionsIn(StreetBody(text, st).value)))
  {
    var r := map st | st in {Preflop, Flop, Turn, River} :: StreetActions(f, text, st, actionsIn);
    assert forall st :: st in r ==> r[st] == StreetActions(f, text, st, actionsIn);
    r
  }

  // ---------------------------------------------------------------------
  // Shared record parts
  // ---------------------------------------------------------------------

  datatype BuyIn = BuyIn(contribution: real, bounty: real, rake: real)

  datatype HeroHand = HeroHand(hero: string, firstCard: Option<string>, secondCard: Option<string>)

  /** The seat number of a player row, once the seat is known to be digits. */
  function SeatOf(row: PlayerMatch): nat
  {
    if AllDigits(row.seat) then DigitsValue(row.seat) else 0
  }

  /** `int(seat)` succeeds on every row. */
  predicate SeatsNumeric(rows: seq<PlayerMatch>)
  {
    forall i :: 0 <= i < |rows| ==> IsNumber(rows[i].seat)
  }
}
