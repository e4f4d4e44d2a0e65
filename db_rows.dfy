/**
 * The rows of the `profiles` and `settings` tables, with the field mappings
 * (and their defaults for null columns) that services/dbService.ts applies
 * when it reads and writes them.
 */
module DbRows {
  import opened Wrappers
  import opened Types

  const DefaultTeamName := "Senza Nome"
  const DefaultManagerName := "Manager"
  const DefaultLeagueName := "Lega Stork"
  /** The budget of a new team, and the credits `getProfile` shows for a null column. */
  const SignUpCredits := 250

  /** A row of `profiles`; every column but the key may be null. */
  datatype ProfileRow = ProfileRow(
    teamName: Option<string>,
    managerName: Option<string>,
    playerIds: Option<seq<string>>,
    lineupIds: Option<seq<string>>,
    credits: Option<int>,
    points: Option<real>,
    logoUrl: Option<string>,
    isLineupConfirmed: Option<bool>)

  /** The singleton row of `settings` (id 1). */
  datatype SettingsRow = SettingsRow(
    leagueName: Option<string>,
    isMarketOpen: Option<bool>,
    isLineupLocked: Option<bool>,
    currentMatchday: Option<int>,
    youtubeLiveUrl: Option<string>,
    marqueeText: Option<string>)

  /** `x || d` on a nullable text column: null and the empty string both fall back to `d`. */
  function TextOr(x: Option<string>, d: string): (r: string)
    ensures x.Some? && x.value != "" ==> r == x.value
    ensures x.None? || x.value == "" ==> r == d
  {
    if x.Some? && x.value != "" then x.value else d
  }

  /** `x || d` on a nullable integer column: null and 0 both fall back to `d`. */
  function IntOr(x: Option<int>, d: int): (r: int)
    ensures x.Some? && x.value != 0 ==> r == x.value
    ensures x.None? || x.value == 0 ==> r == d
  {
    if x.Some? && x.value != 0 then x.value else d
  }

  /** `Number(points) || 0`: a team's points, 0 for a null column. */
  function PointsOf(row: ProfileRow): (p: real)
    ensures row.points.Some? ==> p == row.points.value
    ensures row.points.None? ==> p == 0.0
  {
    row.points.GetOr(0.0)
  }

  /** The team a profile row shows; `creditsDefault` is what a null `credits` becomes. */
  function TeamOf(row: ProfileRow, creditsDefault: int): UserTeam {
    UserTeam(
      TextOr(row.teamName, DefaultTeamName),
      TextOr(row.managerName, DefaultManagerName),
      row.playerIds.GetOr([]),
      row.lineupIds.GetOr([]),
      row.credits.GetOr(creditsDefault),
      PointsOf(row),
      row.logoUrl,
      row.isLineupConfirmed.GetOr(false))
  }

  /** `getProfile`: the user with id `userId`, or null when no row has that id. */
  function GetProfile(profiles: map<string, ProfileRow>, userId: string): (r: Option<User>)
    ensures r.Some? <==> userId in profiles
    ensures r.Some? ==> r.value.id == userId && r.value.email == ""
    ensures r.Some? ==> r.value.team.teamName != "" && r.value.team.managerName != ""
    ensures r.Some? ==> r.value.team.teamName == TextOr(profiles[userId].teamName, DefaultTeamName)
    ensures r.Some? ==> r.value.team.managerName == TextOr(profiles[userId].managerName, DefaultManagerName)
    ensures r.Some? ==> r.value.team.playerIds == profiles[userId].playerIds.GetOr([])
    ensures r.Some? ==> r.value.team.currentLineupIds == profiles[userId].lineupIds.GetOr([])
    ensures r.Some? ==> r.value.team.totalPoints == PointsOf(profiles[userId])
    ensures r.Some? ==> r.value.team.creditsLeft == profiles[userId].credits.GetOr(SignUpCredits)
    ensures r.Some? ==> r.value.team.logo == profiles[userId].logoUrl
    ensures r.Some? ==> r.value.team.isLineupConfirmed == profiles[userId].isLineupConfirmed.GetOr(false)
  {
    if userId in profiles then Some(User(userId, "", TeamOf(profiles[userId], SignUpCredits))) else None
  }

  /** The mapping of one row in `getAllProfiles`: as `getProfile`, except that a null `credits` shows as 0. */
  function ListedUser(userId: string, row: ProfileRow): (u: User)
    ensures u.id == userId && u.email == ""
    ensures u.team.creditsLeft == row.credits.GetOr(0)
    ensures u.team == GetProfile(map[userId := row], userId).value.team.(creditsLeft := row.credits.GetOr(0))
  {
    User(userId, "", TeamOf(row, 0))
  }

  /** The row `signUp` inserts for a new manager. */
  function SignUpProfile(teamName: string, managerName: string): ProfileRow {
    ProfileRow(Some(teamName), Some(managerName), Some([]), Some([]), Some(SignUpCredits), Some(0.0), None, Some(false))
  }

  /** A freshly signed-up team has 250 credits, 0 points, no players, no lineup and is not confirmed. */
  lemma SignUpProfileShowsFreshTeam(profiles: map<string, ProfileRow>, userId: string, teamName: string, managerName: string)
    ensures GetProfile(profiles[userId := SignUpProfile(teamName, managerName)], userId)
      == Some(User(userId, "", UserTeam(
           if teamName != "" then teamName else DefaultTeamName,
           if managerName != "" then managerName else DefaultManagerName,
           [], [], 250, 0.0, None, false)))
  {
  }

  /** The payload `updateProfile` writes for a team. */
  function TeamRow(team: UserTeam): ProfileRow {
    ProfileRow(Some(team.teamName), Some(team.managerName), Some(team.playerIds), Some(team.currentLineupIds),
      Some(team.creditsLeft), Some(team.totalPoints), team.logo, Some(team.isLineupConfirmed))
  }

  /** `updateProfile`: an update filtered by id, which writes nothing when no row has that id. */
  function UpdateProfile(profiles: map<string, ProfileRow>, userId: string, team: UserTeam): (r: map<string, ProfileRow>)
    ensures r.Keys == profiles.Keys
    ensures forall u :: u in r && u != userId ==> r[u] == profiles[u]
    ensures userId in r ==> r[userId] == TeamRow(team)
  {
    if userId in profiles then profiles[userId := TeamRow(team)] else profiles
  }

  /** Writing a team with `updateProfile` and reading it back with `getProfile` gives the same team,
      provided its names are not empty (an empty name reads back as the default); for an id without
      a row nothing is written and nothing is read back. */
  lemma ProfileRoundTrip(profiles: map<string, ProfileRow>, userId: string, team: UserTeam)
    requires team.teamName != "" && team.managerName != ""
    ensures GetProfile(UpdateProfile(profiles, userId, team), userId)
      == if userId in profiles then Some(User(userId, "", team)) else None
  {
  }

  /** Reading a row and writing it back normalises it; doing so again changes nothing. */
  lemma ProfileNormalisationIdempotent(row: ProfileRow)
    ensures TeamOf(TeamRow(TeamOf(row, SignUpCredits)), SignUpCredits) == TeamOf(row, SignUpCredits)
  {
  }

  /** What `getSettings` returns when the row is missing. */
  const DefaultSettings := AppSettings(DefaultLeagueName, true, false, "", 1, Some(""), Some(""))

  /** `getSettings`: the settings row with its defaults applied, or the defaults when there is no row. */
  function GetSettings(row: Option<SettingsRow>): (s: AppSettings)
    ensures s.leagueName != "" && s.currentMatchday != 0 && s.marketDeadline == ""
    ensures s.youtubeLiveUrl.Some? && s.marqueeText.Some?
    ensures row.None? ==> s == DefaultSettings
    ensures row.Some? ==> s.leagueName == TextOr(row.value.leagueName, DefaultLeagueName)
    ensures row.Some? ==> s.isMarketOpen == row.value.isMarketOpen.GetOr(true)
    ensures row.Some? ==> s.isLineupLocked == row.value.isLineupLocked.GetOr(false)
    ensures row.Some? ==> s.currentMatchday == IntOr(row.value.currentMatchday, 1)
    ensures row.Some? ==> s.youtubeLiveUrl == Some(TextOr(row.value.youtubeLiveUrl, ""))
    ensures row.Some? ==> s.marqueeText == Some(TextOr(row.value.marqueeText, ""))
  {
    match row
    case None => DefaultSettings
    case Some(d) =>
      AppSettings(
        TextOr(d.leagueName, DefaultLeagueName),
        d.isMarketOpen.GetOr(true),
        d.isLineupLocked.GetOr(false),
        "",
        IntOr(d.currentMatchday, 1),
        Some(TextOr(d.youtubeLiveUrl, "")),
        Some(TextOr(d.marqueeText, "")))
  }

  /** The payload `updateSettings` upserts. */
  function SettingsRowOf(s: AppSettings): SettingsRow {
    SettingsRow(Some(s.leagueName), Some(s.isMarketOpen), Some(s.isLineupLocked), Some(s.currentMatchday),
      s.youtubeLiveUrl, s.marqueeText)
  }

  /** Writing settings and reading them back gives them unchanged, for every value `getSettings` can return. */
  lemma SettingsRoundTrip(s: AppSettings)
    requires s.leagueName != "" && s.currentMatchday != 0 && s.marketDeadline == ""
    requires s.youtubeLiveUrl.Some? && s.marqueeText.Some?
    ensures GetSettings(Some(SettingsRowOf(s))) == s
  {
  }

  /** Settlement's read-modify-write of the settings: the pointer becomes `c` (or 1 when `c` is 0,
      because of `current_matchday || 1`) and every other setting reads back as before. */
  lemma {:induction false} AdvanceMatchdayPointer(row: Option<SettingsRow>, c: int)
    ensures GetSettings(Some(SettingsRowOf(GetSettings(row).(currentMatchday := c))))
      == GetSettings(row).(currentMatchday := if c != 0 then c else 1)
  {
    var s := GetSettings(row);
    if c != 0 {
      SettingsRoundTrip(s.(currentMatchday := c));
    } else {
      SettingsRoundTrip(s.(currentMatchday := 1));
    }
  }
}
