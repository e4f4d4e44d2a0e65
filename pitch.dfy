/**
 * The pitch of components/Pitch.tsx: the score a player's badge shows, its
 * colour, where the starters are placed, and what a click does.
 */
module Pitch {
  import opened Wrappers
  import opened Types
  import opened Scoring
  import opened Constants

  /** The score `PitchPlayer` shows: nothing without statistics or without a positive rating,
      otherwise the points computed by the same formula as settlement. */
  function DisplayScore(stats: Option<PlayerMatchStats>): (r: Option<real>)
    ensures r.None? <==> stats.None? || stats.value.voto <= 0.0
    ensures r.Some? ==> r.value == PlayerPoints(stats.value)
  {
    if stats.Some? && stats.value.voto > 0.0 then
      var s := stats.value;
      Some(s.voto + (s.goals as real) * 3.0 + (s.assists as real) * 1.0 - (s.ownGoals as real) * 2.0
           - (if s.yellowCard then 0.5 else 0.0) - (if s.redCard then 1.0 else 0.0) + s.extraPoints)
    else None
  }

  /** `votes?.[p.id]`: the statistics of player `id`, when there are votes and the player is in them. */
  function StatsOf(votes: Option<map<string, PlayerMatchStats>>, id: string): (r: Option<PlayerMatchStats>)
    ensures r.Some? <==> votes.Some? && id in votes.value
    ensures r.Some? ==> r.value == votes.value[id]
  {
    if votes.Some? && id in votes.value then Some(votes.value[id]) else None
  }

  /** The display score and the settlement score disagree exactly on players with statistics but
      no positive rating: the display shows nothing, settlement still counts the formula. */
  lemma DisplayAgreesWithSettlement(votes: map<string, PlayerMatchStats>, id: string)
    ensures id in votes && votes[id].voto > 0.0 ==>
      DisplayScore(StatsOf(Some(votes), id)) == Some(LineupTotal(votes, [id]))
    ensures id !in votes ==> DisplayScore(StatsOf(Some(votes), id)).None? && LineupTotal(votes, [id]) == 0.0
    ensures id in votes && votes[id].voto <= 0.0 ==>
      DisplayScore(StatsOf(Some(votes), id)).None? && LineupTotal(votes, [id]) == PlayerPoints(votes[id])
  {
    LineupTotalSingle(votes, id);
  }

  datatype BadgeColour = Green | Red

  /** The colour of a shown score: green from 6 upwards, red below. */
  function ScoreBadge(stats: Option<PlayerMatchStats>): (r: Option<BadgeColour>)
    ensures r.Some? <==> DisplayScore(stats).Some?
    ensures r == Some(Green) <==> DisplayScore(stats).Some? && DisplayScore(stats).value >= 6.0
    ensures r == Some(Red) <==> DisplayScore(stats).Some? && DisplayScore(stats).value < 6.0
  {
    match DisplayScore(stats)
    case None => None
    case Some(score) => Some(if score >= 6.0 then Green else Red)
  }

  /** `ROLE_COLORS[player.role]`: defined for every player. */
  function RoleColour(p: Player): (c: string)
    ensures p.role in ROLE_COLORS && c == ROLE_COLORS[p.role] && c != ""
  {
    RoleColorsTotal();
    ROLE_COLORS[p.role]
  }

  /** `s.filter(p => p.role === role)` */
  function FilterRole(s: seq<Player>, role: Role): (r: seq<Player>)
    ensures |r| <= |s|
    ensures forall i :: 0 <= i < |r| ==> r[i].role == role && r[i] in s
    ensures forall p :: p in s && p.role == role ==> p in r
  {
    if |s| == 0 then []
    else
      var rest := FilterRole(s[1..], role);
      assert forall p :: p in s ==> p == s[0] || p in s[1..];
      if s[0].role == role then [s[0]] + rest else rest
  }

  /** Filtering a concatenation filters each part, in order. */
  lemma {:induction false} FilterRoleAppend(a: seq<Player>, b: seq<Player>, role: Role)
    ensures FilterRole(a + b, role) == FilterRole(a, role) + FilterRole(b, role)
  {
    if |a| > 0 {
      assert (a + b)[1..] == a[1..] + b;
      FilterRoleAppend(a[1..], b, role);
    } else {
      assert a + b == b;
    }
  }

  /** The index of the first player of `s` with role `role` (`s.find`). */
  function FirstWithRole(s: seq<Player>, role: Role): (r: Option<nat>)
    ensures r.Some? ==> r.value < |s| && s[r.value].role == role
    ensures r.Some? ==> forall j :: 0 <= j < r.value ==> s[j].role != role
    ensures r.None? <==> forall j :: 0 <= j < |s| ==> s[j].role != role
  {
    if |s| == 0 then None
    else if s[0].role == role then Some(0)
    else match FirstWithRole(s[1..], role)
      case None => None
      case Some(i) => Some(i + 1)
  }

  /** `s.slice(start, end)` for non-negative bounds, which are clamped to the length. */
  function Slice(s: seq<Player>, start: nat, end: nat): (r: seq<Player>)
    ensures |r| <= |s| && (start <= end ==> |r| <= end - start)
    ensures start <= end <= |s| ==> r == s[start..end]
    ensures start <= |s| <= end ==> r == s[start..]
    ensures |s| <= start || end <= start ==> r == []
  {
    var hi := if end <= |s| then end else |s|;
    var lo := if start <= hi then start else hi;
    s[lo..hi]
  }

  /** Where the starters go: two rows of outfielders and the goalkeeper slot. */
  datatype PitchLayout = PitchLayout(firstRow: seq<Player>, secondRow: seq<Player>, goalkeeper: Option<Player>)

  /** The layout `Pitch` renders for `starters`. */
  function Layout(starters: seq<Player>): PitchLayout {
    var startersM := FilterRole(starters, M);
    var keeper := FirstWithRole(starters, P);
    PitchLayout(Slice(startersM, 0, 2), Slice(startersM, 2, 4),
      if keeper.Some? then Some(starters[keeper.value]) else None)
  }

  /** The first four outfield starters are shown, two per row, in lineup order, and no other;
      the goalkeeper slot shows the first goalkeeper among the starters, or nothing when there is none. */
  lemma LayoutShowsFirstFourOutfieldersAndFirstKeeper(starters: seq<Player>)
    ensures var l := Layout(starters); var m := FilterRole(starters, M);
      && |l.firstRow| <= 2 && |l.secondRow| <= 2
      && l.firstRow == m[..if |m| < 2 then |m| else 2]
      && l.firstRow + l.secondRow == m[..if |m| < 4 then |m| else 4]
      && (|m| >= 4 ==> |l.firstRow + l.secondRow| == 4)
      && (forall p :: p in l.firstRow + l.secondRow ==> p in starters && p.role == M)
    ensures var l := Layout(starters);
      && (l.goalkeeper.None? <==> forall p :: p in starters ==> p.role != P)
      && (l.goalkeeper.Some? ==> exists i :: 0 <= i < |starters| && starters[i] == l.goalkeeper.value
                                   && l.goalkeeper.value.role == P
                                   && forall j :: 0 <= j < i ==> starters[j].role != P)
  {
    var l := Layout(starters);
    var m := FilterRole(starters, M);
    var k := if |m| < 4 then |m| else 4;
    assert l.firstRow + l.secondRow == m[..k];
    forall p | p in l.firstRow + l.secondRow ensures p in starters && p.role == M {
      var i :| 0 <= i < k && m[i] == p;
    }
    var keeper := FirstWithRole(starters, P);
    if keeper.Some? {
      assert starters[keeper.value] == l.goalkeeper.value;
    }
  }

  datatype Mode = Starter | Bench

  /** What a click on a player asks of the page. */
  datatype ClickAction = SetBench(player: Player) | SetStarter(player: Player)

  /** `onClick={!isLocked ? onClick : undefined}`: nothing when locked; a starter is sent to the
      bench and a bench player is made a starter. */
  function Click(isLocked: bool, mode: Mode, p: Player): (r: Option<ClickAction>)
    ensures isLocked <==> r.None?
    ensures r.Some? ==> r.value.player == p
    ensures r.Some? ==> (r.value.SetBench? <==> mode == Starter)
  {
    if isLocked then None
    else match mode
      case Starter => Some(SetBench(p))
      case Bench => Some(SetStarter(p))
  }

  /** Every player placed on the pitch is shown as a starter, so an unlocked click on it benches it. */
  lemma PitchClickBenches(starters: seq<Player>, p: Player)
    requires p in Layout(starters).firstRow + Layout(starters).secondRow
      || (Layout(starters).goalkeeper.Some? && p == Layout(starters).goalkeeper.value)
    ensures Click(false, Starter, p) == Some(SetBench(p))
    ensures p in starters
  {
    LayoutShowsFirstFourOutfieldersAndFirstKeeper(starters);
  }
}
