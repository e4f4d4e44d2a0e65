/**
 * The settlement scorer of services/dbService.ts: the per-player formula and
 * the per-lineup total that `calculateMatchday` accumulates with `forEach`.
 * Unlike the display scorer on the pitch, it does not skip players whose
 * rating is 0: a player without statistics counts as all zeros.
 */
module Scoring {
  import opened Types

  /** The statistics that stand in for a player missing from the stats record. */
  const NoStats := PlayerMatchStats(0.0, 0, 0, 0, false, false, 0.0)

  /** `stats[pid] || { all zeros }` */
  function StatsFor(stats: map<string, PlayerMatchStats>, pid: string): (s: PlayerMatchStats)
    ensures pid !in stats ==> s == NoStats
    ensures pid in stats ==> s == stats[pid]
  {
    if pid in stats then stats[pid] else NoStats
  }

  /** One player's points: rating + 3 per goal + 1 per assist - 2 per own goal
      - 0.5 for a yellow card - 1 for a red card + the free-form extra points. */
  function PlayerPoints(s: PlayerMatchStats): real {
    s.voto
    + (s.goals as real) * 3.0
    + (s.assists as real) * 1.0
    - (s.ownGoals as real) * 2.0
    - (if s.yellowCard then 0.5 else 0.0)
    - (if s.redCard then 1.0 else 0.0)
    + s.extraPoints
  }

  /** The sum of the points of the players `pids`, in order, looked up in `stats`. */
  function LineupTotal(stats: map<string, PlayerMatchStats>, pids: seq<string>): real
    decreases |pids|
  {
    if |pids| == 0 then 0.0
    else LineupTotal(stats, pids[..|pids| - 1]) + PlayerPoints(StatsFor(stats, pids[|pids| - 1]))
  }

  /** The `forEach` loop of settlement that accumulates `matchdayTotal`. */
  method SumLineup(stats: map<string, PlayerMatchStats>, pids: seq<string>) returns (total: real)
    ensures total == LineupTotal(stats, pids)
  {
    total := 0.0;
    var i := 0;
    while i < |pids|
      invariant 0 <= i <= |pids|
      invariant total == LineupTotal(stats, pids[..i])
    {
      var s := StatsFor(stats, pids[i]);
      var points := s.voto + (s.goals as real) * 3.0 + (s.assists as real) * 1.0
                    - (s.ownGoals as real) * 2.0 - (if s.yellowCard then 0.5 else 0.0)
                    - (if s.redCard then 1.0 else 0.0) + s.extraPoints;
      assert pids[..i + 1][..i] == pids[..i];
      total := total + points;
      i := i + 1;
    }
    assert pids[..i] == pids;
  }

  /** The total of a lineup of one player is that player's points. */
  lemma LineupTotalSingle(stats: map<string, PlayerMatchStats>, pid: string)
    ensures LineupTotal(stats, [pid]) == PlayerPoints(StatsFor(stats, pid))
  {
    assert [pid][..0] == [];
  }

  /** The total is additive over concatenated lineups: order and grouping do not matter. */
  lemma {:induction false} LineupTotalAppend(stats: map<string, PlayerMatchStats>, a: seq<string>, b: seq<string>)
    ensures LineupTotal(stats, a + b) == LineupTotal(stats, a) + LineupTotal(stats, b)
    decreases |b|
  {
    if |b| == 0 {
      assert a + b == a;
    } else {
      var b' := b[..|b| - 1];
      assert (a + b)[..|a + b| - 1] == a + b';
      assert (a + b)[|a + b| - 1] == b[|b| - 1];
      LineupTotalAppend(stats, a, b');
    }
  }

  /** Swapping two lineups around does not change their combined total. */
  lemma LineupTotalCommutes(stats: map<string, PlayerMatchStats>, a: seq<string>, b: seq<string>)
    ensures LineupTotal(stats, a + b) == LineupTotal(stats, b + a)
  {
    LineupTotalAppend(stats, a, b);
    LineupTotalAppend(stats, b, a);
  }

  /** A lineup none of whose players has statistics scores 0. */
  lemma {:induction false} LineupTotalWithoutStats(stats: map<string, PlayerMatchStats>, pids: seq<string>)
    requires forall i :: 0 <= i < |pids| ==> pids[i] !in stats
    ensures LineupTotal(stats, pids) == 0.0
    decreases |pids|
  {
    if |pids| > 0 {
      LineupTotalWithoutStats(stats, pids[..|pids| - 1]);
    }
  }

  /** A rating of 0 is not excluded by settlement: the other statistics still count. */
  lemma ZeroRatingStillScores(stats: map<string, PlayerMatchStats>, pid: string)
    requires pid in stats && stats[pid].voto == 0.0
    ensures LineupTotal(stats, [pid]) == PlayerPoints(stats[pid])
    ensures PlayerPoints(stats[pid]) == (stats[pid].goals as real) * 3.0 + (stats[pid].assists as real)
      - (stats[pid].ownGoals as real) * 2.0 - (if stats[pid].yellowCard then 0.5 else 0.0)
      - (if stats[pid].redCard then 1.0 else 0.0) + stats[pid].extraPoints
  {
    LineupTotalSingle(stats, pid);
  }
}
