/** The entities of the league (types.ts). */
module Types {
  import opened Wrappers

  /** A player's role: `P` goalkeeper, `M` outfield. */
  datatype Role = P | M

  datatype PlayerStatus = Available | Injured | Suspended

  datatype Player = Player(
    id: string,
    name: string,
    team: string,
    role: Role,
    price: int,
    status: PlayerStatus,
    goals: int,
    assists: int)

  /** One player's statistics for one matchday; `voto` is the rating, 0 when absent. */
  datatype PlayerMatchStats = PlayerMatchStats(
    voto: real,
    goals: int,
    assists: int,
    ownGoals: int,
    yellowCard: bool,
    redCard: bool,
    extraPoints: real)

  datatype MatchdayStatus = Open | Calculated

  /** A matchday as listed to the application; `votes` maps player ids to statistics. */
  datatype Matchday = Matchday(
    id: int,
    number: int,
    status: MatchdayStatus,
    votes: map<string, PlayerMatchStats>)

  datatype UserTeam = UserTeam(
    teamName: string,
    managerName: string,
    playerIds: seq<string>,
    currentLineupIds: seq<string>,
    creditsLeft: int,
    totalPoints: real,
    logo: Option<string>,
    isLineupConfirmed: bool)

  datatype User = User(id: string, email: string, team: UserTeam)

  datatype AppSettings = AppSettings(
    leagueName: string,
    isMarketOpen: bool,
    isLineupLocked: bool,
    marketDeadline: string,
    currentMatchday: int,
    youtubeLiveUrl: Option<string>,
    marqueeText: Option<string>)

  /** An entry of the bonus and malus rule tables. */
  datatype RuleEntry = RuleEntry(
    id: string,
    category: string,
    name: string,
    points: real,
    description: string)
}
