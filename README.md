# PokerHistoryParser in Dafny

A model of the parsing core of PokerHistoryParser. The core turns one
Winamax poker hand history, given as text, into a hand record:

- hand id, date, game type, buy-in and blinds;
- level, table, seated players and the hero's cards;
- blinds and antes posted, and the actions of each street;
- board cards, cards shown and winners.

There are two parsers:

- `HandHistoryParser` (the local parser, `pkrhistoryparser/parser.py`) is a
  bundle of pure extractors.
- `S3HandHistoryParser` (the cloud parser, `pkrhistoryparser/s3_parser.py`)
  has the same extractors with a few different fallbacks. On top of them it:
  - derives S3 keys from the key of a split hand history;
  - marks each player as having entered the hand or not;
  - reads the tournament summary and merges it into the hand's tournament info.

The patterns of `pkrhistoryparser/patterns/winamax.py` are modelled in two ways.

- Scanners with the semantics of Python `re`. These cover the hand id,
  `level:`, the four street blocks, the level list of a summary, and the
  hand-file substitution in `get_summary_path`. Each one is proved against
  the grammar it implements.
- Capture records for every other pattern (`HandScan`, `SummaryScan`). They
  hold the `search` groups or `findall` rows of the pattern. Their `Valid()`
  predicate states the grammar each capture obeys.

Modules:

| file | module | models |
|---|---|---|
| `wrappers.dfy` | `Wrappers` | `Option`, `Result` |
| `text.dfy` | `Text` | character classes, `in`, `str.find`, `str.replace`, `str.strip` |
| `numbers.dfy` | `Numbers` | `float()` on decimal text (exact reals), both `to_float` helpers |
| `winamax.dfy` | `Winamax` | the pattern catalogue: grammars, scanners, the level list |
| `extractors.dfy` | `Extractors` | the extractors both parsers share (the `Flavour` picks the `to_float`) |
| `local_parser.dfy` | `LocalParser` | `HandHistoryParser`: its own extractors and `parse_hand` |
| `cloud_parser.dfy` | `CloudParser` | `S3HandHistoryParser`: its extractors, the summary, `check_players`, `parse_hand`, `parse_to_json` |
| `paths.dfy` | `Paths` | `get_destination_path`, `get_summary_path` |

Failures are values. A missing mandatory match raises `AttributeError` or
`IndexError` in the source; here it is `Missing(field)`. A capture that
`int()` or `strptime` rejects raises `ValueError`; here it is
`Malformed(field)`. A parse returns the first failure in the order the
record's keys are built.

In the cloud parser, the hand dictionary is a class, `CloudParser.CloudHand`,
because the source updates it in place. Its players and its tournament info
are fields. `CheckPlayers` and `MergeSummary` are methods with loops over
those fields, and each is proved against a function of the old state.

Where the code and its test text disagree, the model follows the code:

- `extract_datetime` returns the string `DD-MM-YYYY HH:MM:SS`
  (`pkrhistoryparser/parser.py:164-165`). `tests/test_parser.py:52` expects
  a `datetime` object.
- The cloud `extract_levels_structure` (`CloudParser.ExtractLevelsStructure`)
  reads the level list with the pattern as written. That pattern swallows
  the commas between entries, so a list of several entries runs together
  (`CloudParser.LevelsStructureMerges`). The summary format evidently means
  one level per entry; that reading is `CloudParser.IntendedLevelsStructure`,
  proved complete by `CloudParser.LevelsStructureRead`. See "Findings".

## Model

| member | source | states |
|---|---|---|
| Numbers.ToFloat | pkrhistoryparser/parser.py:55-69 | `to_float`: no text (Python's `None`) and text `float()` rejects both give 0.0 instead of raising; the value of each text form is stated by the `Numbers` lemmas below |
| Numbers.ParseFloat | pkrhistoryparser/parser.py:67 | `float()` on the modelled decimal grammar: blank text is rejected, a leading `-` gives a value at most 0, and any other accepted text a value at least 0 |
| Numbers.ToFloatDigits | pkrhistoryparser/parser.py:66-69 | in both parsers, `to_float` of a run of digits is the integer it spells |
| Numbers.ToFloatComma | pkrhistoryparser/parser.py:66-69 | in both parsers, a decimal comma is read as a point: `i,p` is `i` plus the fraction `0.p` |
| Numbers.LocalIgnoresThousands | pkrhistoryparser/parser.py:66-69 | the local `to_float` does not expand `k`: digits followed by `k` fail `float()` and give 0.0 |
| Numbers.ParseRejectsSuffix | pkrhistoryparser/parser.py:67 | `float()` rejects digits followed by `k` |
| Numbers.LocalToFloatNonnegative | pkrhistoryparser/parser.py:66-69 | the local `to_float` of text without a minus sign is never negative |
| Numbers.LocalNoDigitsZero | pkrhistoryparser/parser.py:66-69 | on the modelled decimal grammar, text without any digit fails `float()`, so the local `to_float` gives 0.0 instead of raising |
| Numbers.ToFloatEmpty | pkrhistoryparser/parser.py:66-69 | an empty capture (an optional group that did not take part) gives 0.0 in both parsers |
| Numbers.ParseNeedsDigit | pkrhistoryparser/parser.py:67 | on the modelled decimal grammar, `float()` succeeds only on text holding a digit |
| Numbers.ParseNonnegative | pkrhistoryparser/parser.py:67 | `float()` of text without a minus sign is never negative |
| Numbers.ParseDigits | pkrhistoryparser/parser.py:67 | `float()` reads a run of digits as the integer it spells |
| Numbers.ParseDecimal | pkrhistoryparser/parser.py:67 | `float()` reads `i.p` as `i` plus the digits `p` placed after the point |
| Numbers.ParseExponentForm | pkrhistoryparser/s3_parser.py:80 | `float()` reads digits `d`, then `e`, then digits `x`, as `d * 10^x` |
| Numbers.NormaliseComma | pkrhistoryparser/s3_parser.py:80 | the decimal comma between two digit runs becomes a point under both rewritings |
| Numbers.NormaliseThousands | pkrhistoryparser/s3_parser.py:80 | the cloud rewriting turns a `k` suffix into the exponent `e3` |
| Numbers.NormaliseMillions | pkrhistoryparser/s3_parser.py:80 | the cloud rewriting turns an `M` suffix into the exponent `e6` |
| Numbers.NormaliseLocalSuffix | pkrhistoryparser/parser.py:67 | the local rewriting leaves a `k` suffix in place |
| Numbers.CommaAmountRead | pkrhistoryparser/parser.py:66-69 | in both parsers an amount captured as `i,p` is read as the decimal `i.p` |
| Numbers.CloudThousands | pkrhistoryparser/s3_parser.py:79-82 | the cloud `to_float` reads `25k` as 25000: digits then `k` are a thousand times the digits |
| Numbers.CloudMillions | pkrhistoryparser/s3_parser.py:79-82 | the cloud `to_float` reads digits then `M` as a million times the digits |
| Numbers.CloudDecimalThousands | pkrhistoryparser/s3_parser.py:79-82 | the cloud `to_float` reads `1,5k` as 1500: `i,pk` is a thousand times `i.p` |
| Numbers.CloudToFloatNonnegative | pkrhistoryparser/s3_parser.py:79-82 | the cloud `to_float` of text without a minus sign is never negative |
| Numbers.DigitsConcat | pkrhistoryparser/parser.py:67 | reading digits `x` then `y` shifts the value of `x` by the length of `y` |
| Text.FirstIndex | pkrhistoryparser/s3_parser.py:57 | `str.find`: the index is an occurrence with none before it, and there is none exactly when the needle is absent |
| Text.Replace | pkrhistoryparser/s3_parser.py:57 | `str.replace` leaves a text without the needle unchanged; `ReplaceLeavesNone` and `ReplaceChars` state what it does otherwise |
| Text.ReplaceLeavesNone | pkrhistoryparser/s3_parser.py:57 | after `str.replace(a, b)` no `a` is left, and no absent `c` appears, when `c` cannot straddle `b` |
| Text.ReplaceChars | pkrhistoryparser/parser.py:182-183 | every character of a `str.replace` result comes from the subject or from the replacement |
| Text.Strip | pkrhistoryparser/parser.py:118 | `str.strip` keeps a contiguous middle of the text and removes only whitespace, and the result neither starts nor ends with whitespace |
| Text.StripLeadingSpace | pkrhistoryparser/parser.py:118 | a leading whitespace character, such as the line break the blinds pattern captures, is removed by `strip` |
| Paths.GetDestinationPath | pkrhistoryparser/s3_parser.py:57-58 | a key holding neither `split` nor `.txt` is its own destination; `DestinationClean` and `DestinationIdempotent` state the rest |
| Paths.DestinationClean | pkrhistoryparser/s3_parser.py:57-58 | a destination key holds neither `split` nor `.txt` |
| Paths.DestinationIdempotent | pkrhistoryparser/s3_parser.py:57-58 | deriving the destination of a destination changes nothing |
| Paths.GetSummaryPath | pkrhistoryparser/s3_parser.py:62-65 | a key holding neither `histories/split` nor `txt` is left as it is; `SummaryPathOfHand` gives the summary key of a hand key |
| Paths.HandFileAt | pkrhistoryparser/s3_parser.py:62 | a match of `\/([\d\-]+).txt` starts at a `/` and ends with `txt` |
| Paths.SubHandFileName | pkrhistoryparser/s3_parser.py:64 | `re.sub` turns `p/<hand number>.txt` into `p.txt` when `p` holds no `txt` |
| Paths.SummaryPathOfHand | pkrhistoryparser/s3_parser.py:62-65 | the summary of the hand stored under `p histories/split q/<id>.txt` is `p summaries q.txt`: the last directory becomes the summary's file name |
| Winamax.KnockoutAlsoNormal | pkrhistoryparser/patterns/winamax.py:11-12 | every knockout buy-in text starts with a normal buy-in text whose two amounts are the contribution and the bounty, so the knockout form has to be tried first |
| Winamax.RunLength | pkrhistoryparser/patterns/winamax.py:26 | a greedy `+` run covers class characters only and stops at the end or at a character outside the class |
| Winamax.FirstLead | pkrhistoryparser/patterns/winamax.py:26 | `re.search` tries start positions left to right: the position found matches and none before it does |
| Winamax.SearchAfter | pkrhistoryparser/patterns/winamax.py:26 | a literal followed by a class run: the capture is non-empty and made of class characters, and it is absent exactly when the pattern matches nowhere |
| Winamax.SearchAfterFinds | pkrhistoryparser/patterns/winamax.py:26 | with no earlier match, the capture is the whole class run after the literal |
| Winamax.SearchHandId | pkrhistoryparser/patterns/winamax.py:26 | the hand id capture is non-empty and holds only digits and `-`, and it is absent exactly when `HandId: #` followed by such a character occurs nowhere |
| Winamax.SearchLevel | pkrhistoryparser/patterns/winamax.py:10 | the level capture is a number, and it is absent exactly when `level: ` followed by a digit occurs nowhere |
| Winamax.FirstWhere | pkrhistoryparser/patterns/winamax.py:27-30 | the first start position in a range where a pattern matches, or none in the range |
| Winamax.FirstStreetFacts | pkrhistoryparser/patterns/winamax.py:27-30 | the street search finds a header followed by a body character, with none before it, or finds nothing because there is none |
| Winamax.StartFacts | pkrhistoryparser/patterns/winamax.py:27-30 | a street body starts exactly when a header matches, and it starts on a body character |
| Winamax.SpanFacts | pkrhistoryparser/patterns/winamax.py:27-30 | the captured body is a non-empty stretch of `[&\w\s.€-]` closed by the end or a character outside the class |
| Winamax.StreetBody | pkrhistoryparser/patterns/winamax.py:27-30 | a street body is non-empty and holds no `*` |
| Winamax.BodyAbsent | pkrhistoryparser/patterns/winamax.py:27-30 | the body is absent exactly when no header followed by a body character matches anywhere |
| Winamax.BodyEndsAtStars | pkrhistoryparser/patterns/winamax.py:27-30 | a street block ends no later than the next `***` after its start |
| Winamax.PreflopHeader | pkrhistoryparser/patterns/winamax.py:27 | `*** PRE-FLOP ***` is a complete pre-flop header |
| Winamax.PreflopBody | pkrhistoryparser/patterns/winamax.py:27 | after the first pre-flop header, the body is the whole stretch of body characters that follows |
| Winamax.BodyAt | pkrhistoryparser/patterns/winamax.py:27-30 | the body after the first header is the longest stretch of body characters following it |
| Winamax.FirstStreetIs | pkrhistoryparser/patterns/winamax.py:27-30 | the search settles on the first position where the street pattern matches |
| Winamax.LevelAt | pkrhistoryparser/patterns/winamax.py:39 | a match of the level-list pattern has three fields of `[\dkM,]` and ends inside the text |
| Winamax.LevelAtText | pkrhistoryparser/patterns/winamax.py:39 | what the level-list pattern matches is an optional comma, then three fields joined by `-` and `:` |
| Winamax.NextLevel | pkrhistoryparser/patterns/winamax.py:39 | the next level match from a position: it matches, and nothing before it does |
| Winamax.LevelList | pkrhistoryparser/patterns/winamax.py:39 | `re.findall` of the level-list pattern: every row has three valid fields |
| Winamax.LevelListSingle | pkrhistoryparser/patterns/winamax.py:39 | the text of one entry `a-b:c` is read as that one entry |
| Winamax.LevelListJoinsEntries | pkrhistoryparser/patterns/winamax.py:39 | the text of two entries is read as ONE entry, with the second entry's small blind glued to the first one's ante |
| Winamax.LevelListLosesEntries | pkrhistoryparser/patterns/winamax.py:39 | for any two entries, the pattern as written returns one merged entry while the intended reading returns both |
| Winamax.JoinSplit | pkrhistoryparser/s3_parser.py:474-475 | joining the pieces of a split gives the text back |
| Winamax.SplitJoin | pkrhistoryparser/s3_parser.py:474-475 | splitting comma-free pieces after joining them gives the pieces back |
| Winamax.ParseEntry | pkrhistoryparser/patterns/winamax.py:39 | an entry read between commas has three plain, valid fields |
| Winamax.EntryRoundTrip | pkrhistoryparser/patterns/winamax.py:39 | a plain entry written out reads back as itself |
| Winamax.EntryText | pkrhistoryparser/patterns/winamax.py:39 | what reads as an entry is exactly that entry written out |
| Winamax.IntendedLevelList | pkrhistoryparser/s3_parser.py:474-475 | the levels read entry by entry between the commas are plain and valid |
| Winamax.ParseEntryTexts | pkrhistoryparser/s3_parser.py:474-475 | reading back the texts of entries gives the entries, in order |
| Winamax.IntendedRoundTrip | pkrhistoryparser/s3_parser.py:474-475 | every list of plain entries reads back from its text, complete and in order |
| Winamax.SingleEntryAgrees | pkrhistoryparser/patterns/winamax.py:39 | on a single entry the pattern as written and the intended reading agree |
| Extractors.ExtractGameType | pkrhistoryparser/parser.py:82-84 | Tournament exactly when the text holds "Tournament", CashGame exactly when it holds "CashGame" but not "Tournament" |
| Extractors.GameTypeNames | pkrhistoryparser/parser.py:82-84 | Tournament exactly when the text holds "Tournament", CashGame exactly when it holds "CashGame" but not "Tournament", Unknown when it holds neither |
| Extractors.TournamentAnywhere | pkrhistoryparser/parser.py:82-84 | a text holding "Tournament" anywhere is a tournament, whatever else it holds |
| Extractors.FirstFailure | pkrhistoryparser/parser.py:408-428 | the first failure of a sequence of checks: none exactly when every check passes, else a failing check with only passes before it |
| Extractors.FirstFailureAt | pkrhistoryparser/parser.py:408-428 | a failing check preceded only by passing checks is the first failure |
| Extractors.RequiredInt | pkrhistoryparser/parser.py:214-215 | `int(search(...).group(1))`: the value of the digits; no match is `Missing`, a capture `int()` rejects is `Malformed` |
| Extractors.Required | pkrhistoryparser/parser.py:242-243 | `search(...).group(1)`: the capture, or `Missing` when there is no match |
| Extractors.NumbersParse | pkrhistoryparser/parser.py:228-229 | on captures of `\d+`, max players and button fail only when the pattern is absent |
| Extractors.ReformatRoundTrip | pkrhistoryparser/parser.py:163-164 | rewriting `YYYY/MM/DD HH:MM:SS` as `DD-MM-YYYY HH:MM:SS` gives a display date and loses nothing |
| Extractors.UnformatRoundTrip | pkrhistoryparser/parser.py:164 | every display date is the rewriting of exactly one timestamp |
| Extractors.ExtractDatetime | pkrhistoryparser/parser.py:162-165 | succeeds exactly on a capture naming a real calendar moment; the result is a display date that reads back to the capture; otherwise `Missing` without a match and `Malformed` on an impossible date |
| Extractors.ExtractHandId | pkrhistoryparser/parser.py:393-394 | the hand id is non-empty, holds only digits and `-`, and fails with `Missing` exactly when the pattern matches nowhere |
| Extractors.HandIdFound | pkrhistoryparser/parser.py:393-394 | the hand id is the whole run of digits and dashes after the first `HandId: #` |
| Extractors.ExtractLevel | pkrhistoryparser/parser.py:200-201 | a non-zero level comes from a `level: ` followed by a digit |
| Extractors.LevelDefault | pkrhistoryparser/parser.py:200-201 | a text without a level line gets level 0 |
| Extractors.LevelFound | pkrhistoryparser/parser.py:200-201 | the level is the value of the whole digit run after the first `level: ` |
| Extractors.ExtractFlop | pkrhistoryparser/parser.py:284-286 | the three flop cards are all present, as captured and in order, or all None |
| Extractors.ExtractBlinds | pkrhistoryparser/parser.py:177-187 | the tournament form gives its three amounts through `to_float`; else the cash form gives its two amounts with `€` removed and ante 0.0; without either form all three are 0.0 |
| Extractors.TournamentBlindsRead | pkrhistoryparser/parser.py:179-180 | the tournament form `(ante/sb/bb)` wins and is read as the numbers written |
| Extractors.EuroRemoved | pkrhistoryparser/parser.py:182-183 | removing `€` from an amount with a trailing euro sign leaves the amount |
| Extractors.CashBlindsRead | pkrhistoryparser/parser.py:181-184 | cash blinds `x€/y€` are read as `x` and `y` through `to_float`, with ante 0.0 |
| Extractors.Collect | pkrhistoryparser/parser.py:363-364 | a dict comprehension: every row's key is present, every value comes from a row with its key, and the last row of a key wins |
| Extractors.ExtractShowdown | pkrhistoryparser/parser.py:363-365 | the shown cards keyed by stripped name: every shown name is a key, each value comes from a row of that name, the last row wins |
| Extractors.ExtractWinners | pkrhistoryparser/parser.py:378-380 | amount and pot keyed by winner: every winner is a key, each value comes from a row of that name, the last row wins |
| Extractors.WinningRead | pkrhistoryparser/parser.py:378-380 | a valid winners row is read as the whole amount it names, from `pot`, `main pot` or a numbered side pot |
| Extractors.ExtractPostings | pkrhistoryparser/parser.py:117-121 | one posting per row of the blinds pattern, in text order |
| Extractors.PostingRead | pkrhistoryparser/parser.py:118-119 | a valid posting has the name without its leading line break and surrounding spaces, a blind type among small blind, big blind and ante, and a non-negative amount |
| Extractors.ParseActions | pkrhistoryparser/parser.py:329-332 | one action per row of the action pattern, in text order |
| Extractors.ActionRead | pkrhistoryparser/parser.py:330-331 | a valid action has one of the five moves, a stripped name of at most 12 characters, and the captured number, or 0.0 when none is captured |
| Extractors.ExtractActions | pkrhistoryparser/parser.py:345-349 | exactly the four streets as keys; a street whose pattern does not match has no actions, the others the actions of their block |
| LocalParser.ExtractPlayers | pkrhistoryparser/parser.py:97-104 | players keyed by `int(seat)`: the keys are exactly the rows' seats, each key holding a row of that seat read as a player, the last row of a seat wins; a seat `int()` rejects is `Malformed` |
| LocalParser.PlayerRead | pkrhistoryparser/parser.py:98-103 | a valid row has the stack written, and a bounty present exactly when written and never negative |
| LocalParser.ExtractBuyIn | pkrhistoryparser/parser.py:134-149 | the knockout form gives its three amounts through `to_float`; else the normal form gives its contribution and rake with bounty 0.0; else all amounts are 0.0 |
| LocalParser.NormalBuyInRead | pkrhistoryparser/parser.py:140-149 | a normal buy-in `i,p€ + j,q€` reads as the decimals `i.p` and `j.q`, with bounty 0.0 |
| LocalParser.KnockoutBuyInRead | pkrhistoryparser/parser.py:137-149 | a knockout buy-in `i,p€ + b€ + j,q€` reads as `i.p`, the bounty `b` and `j.q` |
| LocalParser.BuyInPrecedence | pkrhistoryparser/parser.py:138-147 | the knockout form decides alone when present; a free-roll and a hand without a buy-in read the same |
| LocalParser.BuyInNonnegative | pkrhistoryparser/parser.py:135-149 | the amounts of a valid buy-in are never negative |
| LocalParser.AmountNonnegative | pkrhistoryparser/parser.py:148-149 | an amount matching `[\d.,]+` is read as a non-negative number |
| LocalParser.ExtractHeroHand | pkrhistoryparser/parser.py:270-271 | the hero and their two cards as captured, or `Missing` without a dealt-to line |
| LocalParser.Mandatory | pkrhistoryparser/parser.py:408-428 | the keys that may raise build the record exactly when all of them succeed, with their values |
| LocalParser.MandatoryFirstFailure | pkrhistoryparser/parser.py:408-428 | building the mandatory keys fails exactly when one fails, and with the first failure in key order |
| LocalParser.ParseHand | pkrhistoryparser/parser.py:396-429 | a hand is parsed only when the date, max-players, button, table-name, table-ident and hero patterns all matched, and its actions are keyed by the four streets |
| LocalParser.ParseHandFailure | pkrhistoryparser/parser.py:408-429 | `parse_hand` succeeds exactly when no mandatory key fails, and otherwise fails with the first one in the record's order |
| LocalParser.ParseHandOk | pkrhistoryparser/parser.py:408-429 | the record is built exactly when hand id, datetime, max players, button, table name, table ident, players and hero are |
| LocalParser.ValidScanParses | pkrhistoryparser/parser.py:408-429 | on well-formed captures a hand parses exactly when it has a hand id, a real date, max players, button, table name, table ident and hero cards |
| LocalParser.ParsedHandShape | pkrhistoryparser/parser.py:408-429 | a parsed hand has a display date that reads back to its timestamp, the four streets as action keys, every player under their own seat, a hand id and the text's level |
| CloudParser.ExtractPlayers | pkrhistoryparser/s3_parser.py:110-117 | players keyed by `int(seat)`: the keys are exactly the rows' seats, each key holding a row of that seat read as a player not yet checked, the last row of a seat wins; a seat `int()` rejects is `Malformed` |
| CloudParser.PlayerRead | pkrhistoryparser/s3_parser.py:111-115 | a valid row has the stack written, and a bounty of 0.0 when absent and never negative |
| CloudParser.ExtractBuyIn | pkrhistoryparser/s3_parser.py:148-158 | the normal form gives its contribution and rake through the cloud `to_float`; the bounty is always 0, and without the normal form all amounts are 0 |
| CloudParser.NormalBuyInRead | pkrhistoryparser/s3_parser.py:150-153 | a buy-in `i,p€ + j,q€` reads as the decimals `i.p` and `j.q`, with bounty 0 |
| CloudParser.BuyInRead | pkrhistoryparser/s3_parser.py:149-158 | the amounts of a valid buy-in are never negative; a free-roll reads as no buy-in |
| CloudParser.AmountNonnegative | pkrhistoryparser/s3_parser.py:152 | an amount matching `[\d.,]+` is read by the cloud `to_float` as a non-negative number |
| CloudParser.ExtractTournamentInfo | pkrhistoryparser/s3_parser.py:255-260 | exactly the three keys, holding the groups of the table pattern, or None each without a match |
| CloudParser.ExtractHeroHand | pkrhistoryparser/s3_parser.py:274-279 | the hero and their cards as captured, or `manggy94` without cards when there is no dealt-to line |
| CloudParser.Mandatory | pkrhistoryparser/s3_parser.py:534-557 | the keys that may raise build the record exactly when all of them succeed, with their values |
| CloudParser.MandatoryFirstFailure | pkrhistoryparser/s3_parser.py:534-557 | building the mandatory keys fails exactly when one fails, and with the first failure in key order |
| CloudParser.ParseRecord | pkrhistoryparser/s3_parser.py:522-557 | a record is built only when the date, max-players and button patterns matched; it has the three tournament-info keys and no bounty |
| CloudParser.ParseRecordFailure | pkrhistoryparser/s3_parser.py:534-557 | the record is built exactly when no mandatory key fails, and otherwise fails with the first one |
| CloudParser.ParseRecordOk | pkrhistoryparser/s3_parser.py:534-557 | the record is built exactly when hand id, datetime, max players, button and players are |
| CloudParser.ValidScanParses | pkrhistoryparser/s3_parser.py:534-557 | on well-formed captures the record is built exactly when the text has a hand id, a real date and the two numbers; table and hero are never required |
| CloudParser.RecordShape | pkrhistoryparser/s3_parser.py:534-557 | a built record has the three tournament-info keys, the default hero without cards, the text's level, no bounty in the buy-in, no player checked yet, and the four streets |
| CloudParser.CheckedMeaning | pkrhistoryparser/s3_parser.py:498-504 | after the check the seats are the same and each player is unchanged but for `enteredHand`, which holds exactly when the name acted preflop or posted |
| CloudParser.CloudHand.CheckPlayers | pkrhistoryparser/s3_parser.py:498-504 | marks every player in place; the new dictionary is the checked record of the old one and nothing else changes |
| CloudParser.OverlayKeys | pkrhistoryparser/s3_parser.py:592-593 | successive `m[key] = value` add the items' keys to those of `m` and no others |
| CloudParser.OverlayLastWins | pkrhistoryparser/s3_parser.py:592-593 | a key given by an item holds the value of its last item |
| CloudParser.OverlayKeepsOthers | pkrhistoryparser/s3_parser.py:592-593 | a key that no item gives keeps its old value |
| CloudParser.CloudHand.MergeSummary | pkrhistoryparser/s3_parser.py:592-593 | writes each pair into the tournament info in turn; the new tournament info is the overlay of the old one, and nothing else changes |
| CloudParser.MergedSummary | pkrhistoryparser/s3_parser.py:592-593 | after the merge, the six summary keys hold the summary's values and every other key keeps its old value |
| CloudParser.ParseHand | pkrhistoryparser/s3_parser.py:534-559 | a fresh hand dictionary, its players checked, exactly when the record is built; otherwise the record's first failure |
| CloudParser.ExtractPrizePool | pkrhistoryparser/s3_parser.py:414-415 | the last prize pool read by `to_float`, or `Missing` without one |
| CloudParser.ExtractRegisteredPlayers | pkrhistoryparser/s3_parser.py:429-430 | the last registered count as an integer; a failure names the registered-players key |
| CloudParser.ExtractSpeed | pkrhistoryparser/s3_parser.py:443-447 | the last speed, or "normal" without one |
| CloudParser.ExtractStartDate | pkrhistoryparser/s3_parser.py:460-461 | the last start date as written, or `Missing` without one |
| CloudParser.ExtractTournamentType | pkrhistoryparser/s3_parser.py:519-520 | the last tournament type, or `Missing` without one |
| CloudParser.NumberLevels | pkrhistoryparser/s3_parser.py:476-479 | `enumerate(levels, start=1)`: as many levels as entries, the i-th numbered i + 1 with its own entry's fields |
| CloudParser.ExtractLevelsStructure | pkrhistoryparser/s3_parser.py:474-480 | the `findall` rows of the level-list pattern on the last levels list, as many levels as rows, numbered 1 to n in order, each read by `extract_level_from_structure`; `Missing` without a levels list |
| CloudParser.IntendedLevelsStructure | pkrhistoryparser/s3_parser.py:474-480 | the corrected reading: the entries of the last levels list taken between its commas, numbered 1 to n in order; `Missing` without a levels list |
| CloudParser.ExtractLevelFromStructure | pkrhistoryparser/s3_parser.py:482-489 | the level holds its number, and each of fields 0, 1 and 2 written in digits is read as that number for sb, bb and ante |
| CloudParser.LevelFromDigits | pkrhistoryparser/s3_parser.py:484-489 | a level holds fields 0, 1 and 2 as sb, bb and ante, read as numbers |
| CloudParser.LevelsStructureRead | pkrhistoryparser/s3_parser.py:474-489 | in the corrected reading, the levels of a written list of entries are those entries, numbered from 1 in the order written, none lost |
| CloudParser.LevelsStructureMerges | pkrhistoryparser/s3_parser.py:474-489 | with the pattern as written, two entries give ONE level: the first entry's blinds, and as ante the first ante and the second small blind joined by a comma, read as a decimal; the corrected reading gives two |
| CloudParser.SingleLevelStructure | pkrhistoryparser/s3_parser.py:474-489 | a list of one entry `a-b:c` of digits is the single level 1 with sb a, bb b and ante c, in both readings |
| CloudParser.GetSummaryInfo | pkrhistoryparser/s3_parser.py:561-577 | the summary is read exactly when every key but the speed finds a match and the last count is a number, and it holds the speed and the levels structure as extracted |
| CloudParser.Summary | pkrhistoryparser/s3_parser.py:569-576 | the summary keys build the summary exactly when none fails, with their values |
| CloudParser.SummaryFirstFailure | pkrhistoryparser/s3_parser.py:569-576 | the summary fails exactly when a key fails, and with the first one in key order |
| CloudParser.SummaryFailure | pkrhistoryparser/s3_parser.py:569-577 | the summary is read exactly when every key but the speed finds a match and the last count is a number; otherwise it fails with the first key that does not |
| CloudParser.ParseToJson | pkrhistoryparser/s3_parser.py:586-593 | the destination key and a fresh hand with players checked and the summary merged into its tournament info; a failing hand ends it before the summary |

## Left out

- File and S3 I/O are not modelled:
  - `get_raw_text` and the file write of the local `parse_to_json`;
  - the S3 client, `list_histories_keys`, `get_text`, `put_object` and `check_is_parsed`.
  - In `CloudParser.ParseToJson` the hand text and the summary text are
    given through their captures (`scan`, `summary`), in place of reading
    the key and `GetSummaryPath(historyPath)`.
- The `print` calls, including the one at the end of `check_players`, are
  not modelled: they only write output.
- The JSON serialisation (`json.dumps`) is not modelled. The record is
  returned as a value.
- `parse_all` and its thread pool, `lambda_handler` and the deployment
  scripts are not modelled: they are concurrency and deployment.
- The general Python regular expression engine is not modelled.
  - Scanned patterns: the hand id, the level, the four street blocks, the
    level list and the hand-file substitution.
  - Every other pattern enters as its `search` groups or `findall` rows in
    `HandScan` or `SummaryScan`. `Valid()` states their grammar. The model
    does not compute where those matches are.
- `extract_turn` and `extract_river` have no member of their own. Each is the
  capture of its pattern or None, so the record takes `scan.turn` and
  `scan.river` as they are.
- Numbers.ParseFloat: `float()` is modelled on decimal text with exact reals.
  The IEEE rounding is left out, and so are `inf`, `nan`, underscores and
  non-ASCII digits. `ParseNeedsDigit` and `LocalNoDigitsZero` hold on this
  grammar; Python's `float()` also accepts `inf` and `nan`, which hold no digit.
- Text.IsDigit: the scanned patterns read `\d` as the ASCII digits 0 to 9.
  In a Python `str` pattern `\d` matches every Unicode decimal digit. Hand
  texts with non-ASCII digits are left out of `Winamax.SearchHandId`,
  `Winamax.SearchLevel`, `Winamax.LevelAt` and `Paths.HandFileAt`.
- CloudParser.ExtractBuyIn: the fallback branches return the Python integer
  `0` (`pkrhistoryparser/s3_parser.py:154-157`). The model gives `0.0`, since
  the record holds reals; the int/float distinction in the JSON output is
  not modelled.
- Numbers.ToFloat: Python's `None` and the integer `0` that the buy-in and
  blinds fallbacks pass in are both `None` here. Both give 0.0 in the source
  too, since neither has `replace`.
- Extractors.ExtractDatetime: `strftime("%Y")` is modelled as four digits.
  The C library prints years before 1000 with fewer digits, and that case is
  left out.
- Text.IsWordChar: `\w` is modelled on ASCII letters and digits, the
  underscore and the Latin letters U+00AA..U+024F. The rest of Unicode is
  left out.
- Extractors.ExtractLevel: its own contract states only where a non-zero
  level comes from. The exact value is stated by `Extractors.LevelFound` and
  `Extractors.LevelDefault`.
- Tests of modules that are not among the source files
  (`history_parsers.local`, `summary_parsers.local`) are not part of this
  model.

## Findings

| source | as written | input that shows it | evidently intended | confidence | as-written member | corrected member |
|---|---|---|---|---|---|---|
| pkrhistoryparser/patterns/winamax.py:39 (used at pkrhistoryparser/s3_parser.py:475) | the field class `[\dkM\,]` includes the comma, so the third field of one entry runs on through the separating comma into the next entry's small blind; that entry then has no small blind left and cannot match | levels text `25-50:0,50-100:0` gives the single row `("25", "50", "0,50")` | each comma-separated `small-big:ante` triplet is one level, so this text gives two levels numbered 1 and 2 | medium, not executed | CloudParser.LevelsStructureMerges | CloudParser.LevelsStructureRead |

The summary as the code reads it (`CloudParser.GetSummaryInfo`,
`CloudParser.ParseToJson`) uses `CloudParser.ExtractLevelsStructure`, the
pattern as written. The corrected reading is
`CloudParser.IntendedLevelsStructure`, built on `Winamax.IntendedLevelList`,
whose round trip is `Winamax.IntendedRoundTrip`.
