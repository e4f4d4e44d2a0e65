# Stork fantasy league: settlement ledger, pitch and page derivations

This project models the core of a fantasy five-a-side league web application in Dafny.
Managers buy players, confirm a lineup for each matchday, and collect points when the
administrator settles the matchday against the players' ratings and statistics.

The model covers four parts of the program:

- **The settlement ledger** of `services/dbService.ts` (`db_service.dfy`, `db_rows.dfy`, `scoring.dfy`).
  The tables `profiles`, `lineup_history`, `matchdays` and `settings` are the fields of one
  `LeagueStore` class. Each service operation is a method that changes those fields.
  - `confirmLineup` stores the lineup on the profile and upserts a history row that holds the
    lineup snapshot with 0 points.
  - `calculateMatchday` scores every history row of the matchday against the submitted
    statistics, records the total on the row and adds it to the team's points. It then stores
    the statistics as the matchday's votes, marks the matchday calculated and sets the
    current-matchday pointer to the matchday's number + 1.
  - `deleteMatchday`, when the matchday is calculated, takes each row's recorded points back off
    the team, never going below 0. In either status it then deletes the history rows and the
    matchday.
  - `resetAllStandings`, `createMatchday` and `saveMatchdayVotes` are modelled too, along with
    the row mappings of `getProfile`, `getAllProfiles`, `getSettings`, `updateProfile`,
    `updateSettings` and the profile row `signUp` inserts.

  The new state of `CalculateMatchday` and `DeleteMatchday` is given by specification functions
  (`SettledHistory`, `SettledProfiles`, `ReversedProfiles`, `WithoutMatchday`); the other methods
  state theirs directly. The lemmas prove what the ledger promises about those functions:
  - each team gains exactly its snapshot's total;
  - the live lineup plays no part;
  - settling and then deleting restores the points;
  - settling twice adds the points twice.
- **The pitch** of `components/Pitch.tsx` (`pitch.dfy`): the score a player badge shows and its
  colour, where the starters are placed, and what a click does.
- **The page derivations** of `App.tsx` (`app.dfy`):
  - the YouTube embed URL, including the semantics of its regular expression;
  - the lines of the news ticker;
  - the current starters;
  - the latest calculated matchday.
- **The tables** of `constants.ts` (`constants.dfy`): the players, the role colours, and the
  bonus and malus rules. The facts proved about them include that the technical rules carry the
  same coefficients settlement applies.

`wrappers.dfy` holds `Option` and `Outcome`. `types.dfy` holds the entities of `types.ts`.

The model follows the code as written; in particular:

- Settlement scores the lineup snapshot in the history row, not the live lineup.
  `SettlementIgnoresLiveLineup` states this.
- Settlement does not check the matchday's status. Settling a matchday that is already
  calculated credits every team again (`SecondSettlementAddsAgain`).
- Settlement does not leave out players rated 0. A missing player counts as all zeros, and a
  player with a 0 rating still scores the rest of the formula (`ZeroRatingStillScores`). Only the
  pitch badge hides players without a positive rating (`DisplayAgreesWithSettlement`).
- `resetAllStandings` clears points, confirmations and the history, and reopens the matchdays.
  It does not touch credits, rosters, lineups or the current-matchday pointer.
- Deletion floors a team's points at 0. The round trip is therefore exact only for teams whose
  points were not negative before settlement (`SettleThenDeleteRestoresPoints`).

## Model

| member | source | states |
|---|---|---|
| Scoring.PlayerPoints | services/dbService.ts:294-300 | reference definition of one player's points, used by the contracts of `SumLineup`, `DisplayScore` and `TechnicalRulesMatchSettlement` |
| Scoring.LineupTotal | services/dbService.ts:292-302 | reference definition of a lineup's total, the sum of `PlayerPoints` over the snapshot's players, used by `SumLineup`, `SettledHistory` and the settlement lemmas |
| Scoring.StatsFor | services/dbService.ts:293 | a player missing from the stats record counts as all zeros; otherwise their own statistics are used |
| Scoring.SumLineup | services/dbService.ts:289-302 | the `forEach` accumulation of a lineup's points equals `LineupTotal`, the sum over the lineup of rating + 3·goals + assists − 2·own goals − 0.5 per yellow − 1 per red + extra points |
| Scoring.LineupTotalSingle | services/dbService.ts:294-300 | a one-player lineup totals that player's points |
| Scoring.LineupTotalAppend | services/dbService.ts:292-302 | the lineup total is additive over concatenation |
| Scoring.LineupTotalCommutes | services/dbService.ts:292-302 | the order of lineup parts does not change the total |
| Scoring.LineupTotalWithoutStats | services/dbService.ts:293 | a lineup none of whose players has statistics totals 0 |
| Scoring.ZeroRatingStillScores | services/dbService.ts:294-300 | settlement does not exclude a 0 rating: goals, assists, cards and extras still count |
| DbRows.TextOr | services/dbService.ts:58-59 | `x \|\| d` on text: null or empty gives the default, anything else is kept |
| DbRows.IntOr | services/dbService.ts:207 | `x \|\| d` on integers: null or 0 gives the default |
| DbRows.PointsOf | services/dbService.ts:63 | a null points column reads as 0 |
| DbRows.TeamOf | services/dbService.ts:55-66 | reference definition of the mapping from a profile row to a team, with the text, list, credit, points and confirmation defaults; used by `GetProfile` (credits default 250) and `ListedUser` (credits default 0, services/dbService.ts:130-139) |
| DbRows.GetProfile | services/dbService.ts:50-71 | a user exists exactly when the row does; each field is its column with the defaults applied: 'Senza Nome' and 'Manager' for a null or empty name, `[]` for null rosters and lineups, 250 for null credits, 0 for null points, false for a null confirmation; the logo is the column |
| DbRows.ListedUser | services/dbService.ts:128-140 | the listing maps a row as `getProfile` does, except that null credits show as 0 |
| DbRows.SignUpProfile | services/dbService.ts:29-38 | reference definition of the row `signUp` inserts, used by `SignUpProfileShowsFreshTeam` and `InsertSignUpProfile` |
| DbRows.SignUpProfileShowsFreshTeam | services/dbService.ts:29-38 | a new sign-up reads back with 250 credits, 0 points, no players, no lineup and no confirmation |
| DbRows.TeamRow | services/dbService.ts:94-103 | reference definition of the `updateProfile` payload, used by `UpdateProfile` and `ProfileRoundTrip` |
| DbRows.UpdateProfile | services/dbService.ts:93-106 | the update writes the payload on the row with the id and touches no other row; an id without a row writes nothing |
| DbRows.ProfileRoundTrip | services/dbService.ts:93-106 | writing a team with non-empty names through `updateProfile` and reading it with `getProfile` gives the same team; for an id without a row, nothing is written and nothing is read back |
| DbRows.ProfileNormalisationIdempotent | services/dbService.ts:55-67 | reading, writing back and reading again changes nothing |
| DbRows.GetSettings | services/dbService.ts:196-214 | a missing row gives the defaults; otherwise each field is its column with the defaults applied: 'Lega Stork' for a null or empty name, true/false for the null flags, 1 for a null or 0 pointer, '' for null stream and ticker texts; the league name is never empty, the pointer never 0 |
| DbRows.SettingsRowOf | services/dbService.ts:217-225 | reference definition of the `updateSettings` payload, used by `SettingsRoundTrip`, `AdvanceMatchdayPointer` and `CalculateMatchday` |
| DbRows.SettingsRoundTrip | services/dbService.ts:216-228 | every value `getSettings` can return survives an `updateSettings` and a `getSettings` |
| DbRows.AdvanceMatchdayPointer | services/dbService.ts:317-318 | settlement's read-modify-write of the settings changes only the pointer; a pointer of 0 reads back as 1 |
| DbService.RowUsers | services/dbService.ts:284 | the users selected for a matchday are exactly those with a history row for its number |
| DbService.SnapshotOf | services/dbService.ts:290 | reference definition of `player_ids \|\| []`: a row's snapshot, empty when the column is null; used by `RowTotal` and `SettlementScoresSnapshots` |
| DbService.EarnedOf | services/dbService.ts:262 | reference definition of `Number(points_earned) \|\| 0`: a null column counts as 0; used by `DebitRows` and `ReversalDebitsTeams` |
| DbService.RowTotal | services/dbService.ts:289-302 | reference definition of what one history row scores: `LineupTotal` of its snapshot; used by `ScoreRows` and `CreditRows` |
| DbService.ScoreRows | services/dbService.ts:288-304 | reference definition of the history once the rows of the given users are scored, each recording its `RowTotal`; used by `SettleStep` and `SettleRows`' loop invariant |
| DbService.CreditRows | services/dbService.ts:306-311 | reference definition of the profiles once the given users' teams are credited with their rows' totals; used by `SettleStep` and `SettleRows`' loop invariant |
| DbService.DebitRows | services/dbService.ts:259-265 | reference definition of the profiles once the given users' teams are debited their rows' earned points, floored at 0; used by `DebitRowsStep` and `DeleteMatchday`'s loop invariant |
| DbService.SettledHistory | services/dbService.ts:288-304 | reference definition of the history once every row of the matchday is scored, used by `SettleRows`, `CalculateMatchday` and `SettlementScoresSnapshots` |
| DbService.SettledProfiles | services/dbService.ts:288-312 | reference definition of the profiles once every row's team is credited, used by `SettleRows`, `CalculateMatchday` and `SettlementCreditsTeams` |
| DbService.ReversedProfiles | services/dbService.ts:259-265 | reference definition of the profiles once every row's points are taken back, used by `DeleteMatchday` and `ReversalDebitsTeams` |
| DbService.Credit | services/dbService.ts:308-311 | settlement's profile update adds the total to the points (a null column counting as 0), clears the confirmation and changes nothing else |
| DbService.Debit | services/dbService.ts:262-263 | deletion's profile update sets the points to the old points minus the earned points, or 0 when that is negative, and changes nothing else |
| DbService.Max0 | services/dbService.ts:262 | `Math.max(0, x)` is at least 0 and at least x, and equals one of them |
| DbService.RanksBefore | services/dbService.ts:126 | reference definition of the standings order, descending points with nulls first, used by `InsertRanked`, `RankProfiles` and `GetAllProfiles` |
| DbService.IsRanked | services/dbService.ts:126 | reference definition of a sequence of rows in `.order('points', { ascending: false })` order, every earlier row ranking before every later one; used by `InsertRanked` and `RankProfiles` |
| DbService.WithoutMatchday | services/dbService.ts:269 | deleting by matchday number removes exactly that number's rows and keeps the others unchanged |
| DbService.SettleStep | services/dbService.ts:288-312 | one settled row: that row gets its snapshot's total and its user's profile gains it, while the confirmation is cleared |
| DbService.DebitRowsStep | services/dbService.ts:259-265 | one reversed row: its user's profile loses the recorded points, floored at 0 |
| DbService.RankedHead | services/dbService.ts:126 | the first row in standings order ranks before every row |
| DbService.RankedCons | services/dbService.ts:126 | a row ranking before all rows of a ranked list can lead it |
| DbService.InsertRanked | services/dbService.ts:126 | placing a row keeps the standings order (nulls first, then descending points); the result is the old rows plus the new one, as a multiset |
| DbService.LeagueStore.InsertSignUpProfile | services/dbService.ts:29-39 | the insert adds the sign-up row, or fails on an existing id and changes nothing |
| DbService.LeagueStore.ConfirmLineup | services/dbService.ts:108-122 | an existing profile gets the lineup and is confirmed; the history row for (user, matchday) is upserted with the lineup and 0 points |
| DbService.LeagueStore.CreateMatchday | services/dbService.ts:243-250 | a new open matchday with no votes is added under a fresh serial id |
| DbService.LeagueStore.SaveMatchdayVotes | services/dbService.ts:273-278 | the votes are replaced and the status too when one is given; an unknown id changes nothing |
| DbService.LeagueStore.SettleRows | services/dbService.ts:288-312 | the loop over the matchday's rows leaves the history and profiles as `SettledHistory` and `SettledProfiles` give them |
| DbService.LeagueStore.RankProfiles | services/dbService.ts:126 | every profile appears once, in standings order |
| DbService.LeagueStore.GetAllProfiles | services/dbService.ts:124-144 | one listed user per profile, mapped as the listing maps it, with nulls first and then descending points |
| DbService.LeagueStore.CalculateMatchday | services/dbService.ts:280-320 | an unknown id or a matchday without history rows fails and changes nothing; otherwise rows are scored, teams credited and unconfirmed, the votes stored, the matchday marked calculated and the pointer set to number + 1 |
| DbService.LeagueStore.DeleteMatchday | services/dbService.ts:252-271 | an unknown id changes nothing; a calculated matchday first debits each row's points, floored at 0; then the history rows of its number and the matchday are deleted |
| DbService.LeagueStore.ResetAllStandings | services/dbService.ts:322-326 | every profile but the nil id gets 0 points and no confirmation; the history is emptied; every matchday is reopened with no votes |
| DbService.SettlementScoresSnapshots | services/dbService.ts:288-304 | each history row of the matchday records the total of its own snapshot; other rows and the snapshots are untouched |
| DbService.SettlementCreditsTeams | services/dbService.ts:306-311 | each team with a row gains exactly that row's total and is unconfirmed; other teams are untouched; names, rosters, lineups and credits never change |
| DbService.SettlementIgnoresLiveLineup | services/dbService.ts:290 | changing a profile's live lineup does not change what settlement credits it |
| DbService.ConfirmedLineupIsScored | services/dbService.ts:108-122 | the lineup confirmed for a matchday is the one its settlement scores |
| DbService.ReversalDebitsTeams | services/dbService.ts:259-265 | deleting a calculated matchday takes each row's recorded points off its team, floored at 0, and changes nothing else |
| DbService.SettleThenDeleteRestoresPoints | services/dbService.ts:252-312 | settling a matchday and then deleting it restores every team with non-negative points exactly |
| DbService.SecondSettlementAddsAgain | services/dbService.ts:280-312 | with no status check, settling twice credits each team twice its row's total |
| Constants.RulePoints | constants.ts:22-39 | the points of a rule id come from a rule with that id; there are none only when no rule has it |
| Constants.PlayerIdsDistinct | constants.ts:4-15 | the player ids are pairwise distinct |
| Constants.PlayerTableFacts | constants.ts:4-15 | exactly players 3 and 6 are goalkeepers; every price is positive; every player starts available with no goals or assists |
| Constants.RuleSigns | constants.ts:22-39 | every bonus is positive and every malus negative |
| Constants.RuleIdsDistinct | constants.ts:22-39 | no rule id occurs twice across both tables |
| Constants.RoleColorsTotal | constants.ts:17-20 | both roles have a non-empty colour |
| Constants.TechnicalBonusPoints | constants.ts:23-24 | a goal is worth +3 and an assist +1 |
| Constants.TechnicalMalusPoints | constants.ts:33-35 | an own goal costs 2, a yellow card 0.5 and a red card 1 |
| Constants.TechnicalRulesMatchSettlement | services/dbService.ts:294-300 | the settlement formula is the rating plus the published technical coefficients times the statistics |
| Pitch.DisplayScore | components/Pitch.tsx:24-32 | a score shows exactly when there are statistics with a positive rating, and it is then the settlement formula's value |
| Pitch.StatsOf | components/Pitch.tsx:93 | `votes?.[id]` is present exactly when there are votes holding the id |
| Pitch.DisplayAgreesWithSettlement | components/Pitch.tsx:24-32 | badge and settlement agree for a positive rating; without statistics both give nothing or 0; with a rating of 0 the badge hides a score that settlement still counts |
| Pitch.ScoreBadge | components/Pitch.tsx:52 | a shown score is green exactly when it is at least 6, red otherwise |
| Pitch.RoleColour | components/Pitch.tsx:58 | every player's role has a non-empty colour in the table |
| Pitch.FilterRole | components/Pitch.tsx:75 | the filter keeps exactly the starters of the role |
| Pitch.FilterRoleAppend | components/Pitch.tsx:75 | the filter keeps lineup order |
| Pitch.FirstWithRole | components/Pitch.tsx:76 | `find` gives the first starter of the role, and nothing only when there is none |
| Pitch.Slice | components/Pitch.tsx:92-97 | `slice` clamps its bounds and is the subsequence when they are in range |
| Pitch.LayoutShowsFirstFourOutfieldersAndFirstKeeper | components/Pitch.tsx:75-103 | the two rows hold the first four outfield starters in order, two per row; the keeper slot holds the first goalkeeper or nothing |
| Pitch.Layout | components/Pitch.tsx:75-103 | reference definition of where `Pitch` places the starters, used by `LayoutShowsFirstFourOutfieldersAndFirstKeeper` and `PitchClickBenches` |
| Pitch.Click | components/Pitch.tsx:36 | a locked pitch ignores clicks; otherwise a starter is benched and a bench player made a starter |
| Pitch.PitchClickBenches | components/Pitch.tsx:92-102 | every player placed on the pitch is a starter, and an unlocked click benches them |
| App.LineEnd | App.tsx:13 | `^.*` reaches the first line terminator, or the end |
| App.IsLineTerminator | App.tsx:13 | reference definition of the characters `.` does not match (line feed, carriage return, U+2028, U+2029), used by `LineEnd` and `EmbedLiteralsAreOneLine` |
| App.IsWordChar | App.tsx:13 | reference definition of `\w`, the letters, digits and underscore; used by `MarkerLength` and `IsVideoIdChar` |
| App.IsIdStop | App.tsx:13 | reference definition of the characters `[^#\&\?]` excludes; used by `TakeId` and `TakeIdStopsAt` |
| App.MarkerLength | App.tsx:13 | a first-group alternative that matches has one of the six lengths and fits in the URL |
| App.LastMarker | App.tsx:13 | greedy `.*` backtracks to the last position where the first group matches, and to none only when none does |
| App.TakeId | App.tsx:13 | the second group is the longest run without '#', '&' or '?' |
| App.MatchUrl | App.tsx:13-14 | a match exists exactly when the first group matches within the first line; the id then follows the last such marker and stops at the first stop character |
| App.YouTubeEmbedUrl | App.tsx:11-16 | null for an absent or empty URL and for an id not 11 long; otherwise the embed prefix, the id and the autoplay suffix |
| App.MarkerLengthShift | App.tsx:13 | whether a marker matches in an appended part depends on that part alone |
| App.LineEndShift | App.tsx:13 | `^.*` passes over text without line terminators |
| App.EmbedSuffixHasNoMarker | App.tsx:16 | no marker matches inside the autoplay suffix |
| App.IdHasNoMarker | App.tsx:13-16 | no marker matches inside an id of video-id characters followed by the suffix |
| App.EmbedLiteralsAreOneLine | App.tsx:16 | the embed prefix and suffix hold no line terminator |
| App.EmbedUrlIsOneLine | App.tsx:16 | an embed URL is one 59-character line |
| App.EmbedUrlIsFixedPoint | App.tsx:11-16 | an embed URL of an 11-character id matches at "embed/" with that id, and converts to itself |
| App.TakeIdStopsAt | App.tsx:13 | the id run stops exactly at a stop character after stop-free text |
| App.SplitLines | App.tsx:207 | `split('\n')` gives at least one piece, and no piece holds a line feed |
| App.JoinSplit | App.tsx:207 | joining the pieces with line feeds gives back the text |
| App.SplitJoin | App.tsx:207 | splitting pieces that were joined gives back the pieces |
| App.SplitPiece | App.tsx:207 | text without line feeds joins the first piece of what follows it |
| App.IsJsWhiteSpace | App.tsx:207 | reference definition of the characters `trim` removes (ECMAScript white space and line terminators), used by `TrimStart`, `TrimEnd`, `Trim` and `TrimmedNonEmpty` |
| App.TrimStart | App.tsx:207 | removes exactly the leading white space |
| App.TrimEnd | App.tsx:207 | removes exactly the trailing white space |
| App.Trim | App.tsx:207 | `trim` leaves a contiguous part of the line that neither starts nor ends with white space, with only white space cut off before and after it |
| App.TrimmedNonEmpty | App.tsx:207 | a trimmed line is non-empty exactly when it holds a non-white-space character |
| App.NonBlankLines | App.tsx:207 | the filter keeps exactly the lines whose trim is non-empty |
| App.NonBlankLinesAppend | App.tsx:207 | the filter keeps the line order |
| App.MarqueeNews | App.tsx:207 | no text gives no lines; otherwise the non-blank pieces of the text |
| App.MarqueeNewsLines | App.tsx:207 | every ticker line is a piece of the text with content and no line feed, and every such piece is shown |
| App.FindPlayer | App.tsx:204 | `find` gives the first player with the id, and nothing only when no player has it |
| App.StartersOf | App.tsx:204 | at most one starter per lineup id; each is a known player whose id is in the lineup |
| App.StartersOfAppend | App.tsx:204 | the starters keep lineup order |
| App.StartersOfFullLineup | App.tsx:204 | when every lineup id names a player, the starters match the lineup one for one |
| App.CurrentStarters | App.tsx:204 | nobody signed in gives no starters; otherwise the starters of the user's lineup |
| App.FirstCalculated | App.tsx:205 | `find` gives the first calculated matchday, and nothing only when there is none |
| App.LatestCalculatedMatchday | App.tsx:205 | the result is the first calculated matchday of the list (no earlier one is calculated), and nothing only when none is calculated |
| App.LatestCalculatedIsHighest | App.tsx:205 | on the list sorted by number descending, the result has the highest number of any calculated matchday |

## Left out

- Network, authentication, storage uploads, sponsors, players CRUD, AI text generation: they are I/O or outside the ledger. `signUp` is modelled only through the profile row it inserts.
- A database error at any step (a rejected write, a failed read turned into an empty result, a thrown exception) is not modelled. Each awaited call is taken to succeed, except the two failures `calculateMatchday` raises itself and the duplicate-key failure of the profile insert in `signUp` (`InsertSignUpProfile`).
- Concurrency: each method runs to completion alone. Interleavings of settlement with roster edits are not modelled.
- `Number(...)` coercion of malformed column values (strings, NaN) and floating-point rounding: points and ratings are exact reals.
- The order in which the database returns history rows to settlement and deletion is modelled as an arbitrary choice. The resulting tables do not depend on it.
- History row ids: `lineup_history` is keyed by (user, matchday number), its conflict key, and the update by `history.id` in settlement targets that row. So `resetAllStandings`, which deletes every row whose id is not the nil UUID, is modelled as deleting all rows.
- Uniqueness of matchday numbers: the schema is not part of this model. Two matchdays with the same number share their history rows, as the queries by number do.
- DbRows.UpdateProfile: a team whose logo is absent is written as a null `logo_url` column. JSON leaves an `undefined` field out of the payload, so the source then keeps the column's old value; the model does not tell an undefined field from a null one, and `ProfileRoundTrip` reads back a null logo where the source would read the old one.
- DbRows.SettingsRowOf: likewise an absent `youtubeLiveUrl` or `marqueeText` is written as a null column, where the source's upsert leaves an undefined field's column at its old value.
- getMatchdays: the descending order by number that `latestCalculatedMatchday` relies on is a precondition of App.LatestCalculatedIsHighest, not derived from a query.
- The order of profiles with equal points in the standings is left open, as the query leaves it.
- The trailing `.*` of the embed-URL expression is not modelled: it never changes whether the expression matches or what the groups hold. The expression is modelled as used, one `match` without flags.
- App.MarkerLength: characters outside the Basic Multilingual Plane are not modelled. JavaScript's regular expression without the `u` flag matches UTF-16 code units, so the `.` of `youtu.be` matches half of such a character, while the model takes the whole character.
- App.YouTubeEmbedUrl: `match[2].length === 11` counts UTF-16 code units; the model counts characters, so an id holding a character outside the Basic Multilingual Plane is measured shorter than the source measures it.
- The settlement loop gathers its row writes in local maps and stores them when the loop ends. No other operation runs in between (see concurrency above), so the final tables are the ones the row-by-row writes leave.
- React rendering, component state, timers and the admin password gate of App.tsx are UI and are not modelled.
- Buying, selling and the lineup-shape and budget rules are not part of this model: their code is not among the files modelled.
