/**
 * The matchday scoring and settlement ledger of services/dbService.ts.
 *
 * The tables the service reads and writes are the fields of one `LeagueStore`;
 * every awaited database call is one step of a method. Each method's new
 * state is given by the specification functions below, and the lemmas state
 * what those functions promise: settlement credits each team with exactly the
 * total of its history snapshot, deletion takes it back (floored at 0), and a
 * second settlement credits it again.
 */
module DbService {
  import opened Wrappers
  import opened Types
  import opened Scoring
  import opened DbRows

  /** A `lineup_history` row is identified by its (user_id, matchday_number) conflict key. */
  datatype HistoryKey = HistoryKey(userId: string, matchdayNumber: int)

  /** A `lineup_history` row: the snapshot of fielded players and the points they earned. */
  datatype HistoryRow = HistoryRow(playerIds: Option<seq<string>>, pointsEarned: Option<real>)

  /** A `matchdays` row. */
  datatype MatchdayRow = MatchdayRow(number: int, status: MatchdayStatus, votes: map<string, PlayerMatchStats>)

  datatype CalcError = MatchdayNotFound | NoLineupsSubmitted
  datatype InsertError = DuplicateKey

  /** The id `resetAllStandings` excludes from its profile update (`.neq('id', ...)`). */
  const NilUuid := "00000000-0000-0000-0000-000000000000"

  /** `history.player_ids || []` */
  function SnapshotOf(h: HistoryRow): seq<string> {
    h.playerIds.GetOr([])
  }

  /** `Number(h.points_earned) || 0` */
  function EarnedOf(h: HistoryRow): real {
    h.pointsEarned.GetOr(0.0)
  }

  /** What a history row's snapshot scores against `stats`. */
  function RowTotal(stats: map<string, PlayerMatchStats>, h: HistoryRow): real {
    LineupTotal(stats, SnapshotOf(h))
  }

  /** The users with a history row for matchday number `n`. */
  function RowUsers(history: map<HistoryKey, HistoryRow>, n: int): (users: set<string>)
    ensures forall u :: u in users <==> HistoryKey(u, n) in history
  {
    var users := set k | k in history && k.matchdayNumber == n :: k.userId;
    assert forall u :: HistoryKey(u, n) in history ==> u in users by {
      forall u | HistoryKey(u, n) in history ensures u in users {
        var k := HistoryKey(u, n);
        assert k in history && k.matchdayNumber == n;
      }
    }
    users
  }

  /** `Math.max(0, x)` */
  function Max0(x: real): (r: real)
    ensures r >= 0.0 && r >= x
    ensures r == x || r == 0.0
  {
    if x > 0.0 then x else 0.0
  }

  /** The profile update of settlement: add `total`, clear the confirmation. */
  function Credit(row: ProfileRow, total: real): (r: ProfileRow)
    ensures PointsOf(r) == PointsOf(row) + total && r.isLineupConfirmed == Some(false)
    ensures r == row.(points := r.points, isLineupConfirmed := r.isLineupConfirmed)
  {
    row.(points := Some(PointsOf(row) + total), isLineupConfirmed := Some(false))
  }

  /** The profile update of deletion: take `earned` away, not going below 0. */
  function Debit(row: ProfileRow, earned: real): (r: ProfileRow)
    ensures PointsOf(r) >= 0.0 && PointsOf(r) >= PointsOf(row) - earned
    ensures PointsOf(r) == PointsOf(row) - earned || PointsOf(r) == 0.0
    ensures r == row.(points := r.points)
  {
    row.(points := Some(Max0(PointsOf(row) - earned)))
  }

  /** History after settlement has scored the rows of the users in `done`. */
  function ScoreRows(history: map<HistoryKey, HistoryRow>, n: int, stats: map<string, PlayerMatchStats>, done: set<string>)
    : map<HistoryKey, HistoryRow>
  {
    map k | k in history ::
      if k.matchdayNumber == n && k.userId in done
      then history[k].(pointsEarned := Some(RowTotal(stats, history[k])))
      else history[k]
  }

  /** Profiles after settlement has credited the users in `done`. */
  function CreditRows(profiles: map<string, ProfileRow>, history: map<HistoryKey, HistoryRow>, n: int,
                      stats: map<string, PlayerMatchStats>, done: set<string>): map<string, ProfileRow>
  {
    map u | u in profiles ::
      if u in done && HistoryKey(u, n) in history
      then Credit(profiles[u], RowTotal(stats, history[HistoryKey(u, n)]))
      else profiles[u]
  }

  /** Profiles after deletion has debited the users in `done`. */
  function DebitRows(profiles: map<string, ProfileRow>, history: map<HistoryKey, HistoryRow>, n: int, done: set<string>)
    : map<string, ProfileRow>
  {
    map u | u in profiles ::
      if u in done && HistoryKey(u, n) in history
      then Debit(profiles[u], EarnedOf(history[HistoryKey(u, n)]))
      else profiles[u]
  }

  /** History once settlement of matchday number `n` has run over every row. */
  function SettledHistory(history: map<HistoryKey, HistoryRow>, n: int, stats: map<string, PlayerMatchStats>)
    : map<HistoryKey, HistoryRow>
  {
    ScoreRows(history, n, stats, RowUsers(history, n))
  }

  /** Profiles once settlement of matchday number `n` has run over every row. */
  function SettledProfiles(profiles: map<string, ProfileRow>, history: map<HistoryKey, HistoryRow>, n: int,
                           stats: map<string, PlayerMatchStats>): map<string, ProfileRow>
  {
    CreditRows(profiles, history, n, stats, RowUsers(history, n))
  }

  /** Profiles once deletion of a calculated matchday number `n` has run over every row. */
  function ReversedProfiles(profiles: map<string, ProfileRow>, history: map<HistoryKey, HistoryRow>, n: int)
    : map<string, ProfileRow>
  {
    DebitRows(profiles, history, n, RowUsers(history, n))
  }

  /** History without the rows of matchday number `n`. */
  function WithoutMatchday(history: map<HistoryKey, HistoryRow>, n: int): (h: map<HistoryKey, HistoryRow>)
    ensures forall k :: k in h <==> k in history && k.matchdayNumber != n
    ensures forall k :: k in h ==> h[k] == history[k]
  {
    map k | k in history && k.matchdayNumber != n :: history[k]
  }

  /** One more scored row: the loop step of settlement on the history table. */
  lemma ScoreRowsStep(history: map<HistoryKey, HistoryRow>, n: int, stats: map<string, PlayerMatchStats>,
                      done: set<string>, u: string)
    requires HistoryKey(u, n) in history && u !in done
    ensures var k := HistoryKey(u, n);
      && ScoreRows(history, n, stats, done)[k] == history[k]
      && ScoreRows(history, n, stats, done + {u})
         == ScoreRows(history, n, stats, done)[k := history[k].(pointsEarned := Some(RowTotal(stats, history[k])))]
  {
  }

  /** One more credited team: the loop step of settlement on the profiles table. */
  lemma CreditRowsStep(profiles: map<string, ProfileRow>, history: map<HistoryKey, HistoryRow>, n: int,
                       stats: map<string, PlayerMatchStats>, done: set<string>, u: string)
    requires HistoryKey(u, n) in history && u !in done
    ensures u in profiles ==> CreditRows(profiles, history, n, stats, done)[u] == profiles[u]
    ensures CreditRows(profiles, history, n, stats, done + {u})
      == if u in profiles
         then CreditRows(profiles, history, n, stats, done)[u := Credit(profiles[u], RowTotal(stats, history[HistoryKey(u, n)]))]
         else CreditRows(profiles, history, n, stats, done)
  {
  }

  /** One more debited team: the loop step of deletion on the profiles table. */
  lemma DebitRowsStep(profiles: map<string, ProfileRow>, history: map<HistoryKey, HistoryRow>, n: int,
                      done: set<string>, u: string)
    requires HistoryKey(u, n) in history && u !in done
    ensures u in profiles ==> DebitRows(profiles, history, n, done)[u] == profiles[u]
    ensures DebitRows(profiles, history, n, done + {u})
      == if u in profiles
         then DebitRows(profiles, history, n, done)[u := Debit(profiles[u], EarnedOf(history[HistoryKey(u, n)]))]
         else DebitRows(profiles, history, n, done)
  {
  }

  /** One more settled user: the loop step of settlement on both tables. */
  lemma SettleStep(profiles: map<string, ProfileRow>, history: map<HistoryKey, HistoryRow>, n: int,
                   stats: map<string, PlayerMatchStats>, done: set<string>, u: string)
    requires HistoryKey(u, n) in history && u !in done
    ensures var k := HistoryKey(u, n);
      var h := ScoreRows(history, n, stats, done);
      var p := CreditRows(profiles, history, n, stats, done);
      var total := RowTotal(stats, history[k]);
      && k in h && h[k] == history[k]
      && h[k := h[k].(pointsEarned := Some(total))] == ScoreRows(history, n, stats, done + {u})
      && (u in p <==> u in profiles)
      && (u in p ==> p[u := p[u].(points := Some(PointsOf(p[u]) + total), isLineupConfirmed := Some(false))]
                     == CreditRows(profiles, history, n, stats, done + {u}))
      && (u !in p ==> p == CreditRows(profiles, history, n, stats, done + {u}))
  {
    ScoreRowsStep(history, n, stats, done, u);
    CreditRowsStep(profiles, history, n, stats, done, u);
  }

  /** The database's descending order on the raw `points` column: null sorts first
      (descending order puts nulls first), then higher points before lower. */
  predicate RanksBefore(a: Option<real>, b: Option<real>) {
    a.None? || (b.Some? && a.value >= b.value)
  }

  /** Rows in standings order. */
  ghost predicate IsRanked(s: seq<(string, ProfileRow)>) {
    forall i, j :: 0 <= i < j < |s| ==> RanksBefore(s[i].1.points, s[j].1.points)
  }

  /** The first of rows in standings order comes before every one of them. */
  lemma RankedHead(s: seq<(string, ProfileRow)>)
    requires IsRanked(s) && |s| > 0
    ensures forall y :: y in s ==> RanksBefore(s[0].1.points, y.1.points)
  {
    forall y | y in s ensures RanksBefore(s[0].1.points, y.1.points) {
      var k :| 0 <= k < |s| && s[k] == y;
    }
  }

  /** A row that comes before every row of a ranked sequence can be put in front of it. */
  lemma RankedCons(x: (string, ProfileRow), s: seq<(string, ProfileRow)>)
    requires IsRanked(s)
    requires forall y :: y in s ==> RanksBefore(x.1.points, y.1.points)
    ensures IsRanked([x] + s)
  {
    var t := [x] + s;
    forall i, j | 0 <= i < j < |t| ensures RanksBefore(t[i].1.points, t[j].1.points) {
      assert t[j] == s[j - 1];
      if i > 0 {
        assert t[i] == s[i - 1];
      } else {
        assert s[j - 1] in s;
      }
    }
  }

  /** Places one more row into rows already in standings order. */
  function InsertRanked(ranked: seq<(string, ProfileRow)>, e: (string, ProfileRow)): (r: seq<(string, ProfileRow)>)
    requires IsRanked(ranked)
    ensures |r| == |ranked| + 1
    ensures multiset(r) == multiset(ranked) + multiset{e}
    ensures forall x :: x in r <==> x in ranked || x == e
    ensures IsRanked(r)
  {
    if |ranked| == 0 then [e]
    else if RanksBefore(e.1.points, ranked[0].1.points) then
      RankedHead(ranked);
      RankedCons(e, ranked);
      [e] + ranked
    else
      var rest := InsertRanked(ranked[1..], e);
      assert ranked == [ranked[0]] + ranked[1..];
      RankedHead(ranked);
      RankedCons(ranked[0], rest);
      [ranked[0]] + rest
  }

  /** The backing tables of the league. */
  class LeagueStore {
    /** `profiles`: user id to row. */
    var profiles: map<string, ProfileRow>
    /** `lineup_history`, by its (user, matchday number) key. */
    var history: map<HistoryKey, HistoryRow>
    /** `matchdays`: id to row. */
    var matchdays: map<int, MatchdayRow>
    /** The next value of the serial `matchdays.id` column. */
    var nextMatchdayId: int
    /** The singleton `settings` row, absent until first written. */
    var settings: Option<SettingsRow>

    /** Matchday ids are drawn from the serial sequence, which starts at 1. */
    ghost predicate Valid()
      reads this
    {
      && 1 <= nextMatchdayId
      && forall id :: id in matchdays ==> 1 <= id < nextMatchdayId
    }

    constructor ()
      ensures Valid()
      ensures profiles == map[] && history == map[] && matchdays == map[] && settings == None
    {
      profiles := map[];
      history := map[];
      matchdays := map[];
      nextMatchdayId := 1;
      settings := None;
    }

    /** The profile row `signUp` inserts for a new user; the insert fails on an existing id. */
    method InsertSignUpProfile(userId: string, teamName: string, managerName: string) returns (r: Outcome<InsertError>)
      requires Valid()
      modifies this`profiles
      ensures Valid()
      ensures userId in old(profiles) ==> r == Fail(DuplicateKey) && profiles == old(profiles)
      ensures userId !in old(profiles) ==> r == Pass && profiles == old(profiles)[userId := SignUpProfile(teamName, managerName)]
    {
      if userId in profiles {
        return Fail(DuplicateKey);
      }
      profiles := profiles[userId := SignUpProfile(teamName, managerName)];
      r := Pass;
    }

    /** `confirmLineup`: store the lineup on the profile (if there is one), mark it confirmed, and
        upsert the history row for (user, matchday) with the lineup and 0 points. */
    method ConfirmLineup(userId: string, matchdayNumber: int, lineupIds: seq<string>)
      requires Valid()
      modifies this`profiles, this`history
      ensures Valid()
      ensures userId in old(profiles) ==>
        profiles == old(profiles)[userId := old(profiles)[userId].(lineupIds := Some(lineupIds), isLineupConfirmed := Some(true))]
      ensures userId !in old(profiles) ==> profiles == old(profiles)
      ensures history == old(history)[HistoryKey(userId, matchdayNumber) := HistoryRow(Some(lineupIds), Some(0.0))]
    {
      if userId in profiles {
        profiles := profiles[userId := profiles[userId].(lineupIds := Some(lineupIds), isLineupConfirmed := Some(true))];
      }
      history := history[HistoryKey(userId, matchdayNumber) := HistoryRow(Some(lineupIds), Some(0.0))];
    }

    /** `createMatchday`: insert an open matchday with no votes under the next serial id. */
    method CreateMatchday(number: int) returns (id: int)
      requires Valid()
      modifies this`matchdays, this`nextMatchdayId
      ensures Valid()
      ensures id == old(nextMatchdayId) && id !in old(matchdays)
      ensures matchdays == old(matchdays)[id := MatchdayRow(number, Open, map[])]
    {
      id := nextMatchdayId;
      matchdays := matchdays[id := MatchdayRow(number, Open, map[])];
      nextMatchdayId := nextMatchdayId + 1;
    }

    /** `saveMatchdayVotes`: replace the votes and, when one is given, the status; an unknown id matches no row. */
    method SaveMatchdayVotes(id: int, votes: map<string, PlayerMatchStats>, status: Option<MatchdayStatus>)
      requires Valid()
      modifies this`matchdays
      ensures Valid()
      ensures id !in old(matchdays) ==> matchdays == old(matchdays)
      ensures id in old(matchdays) ==>
        matchdays == old(matchdays)[id := old(matchdays)[id].(votes := votes, status := status.GetOr(old(matchdays)[id].status))]
    {
      if id in matchdays {
        var row := matchdays[id].(votes := votes);
        if status.Some? {
          row := row.(status := status.value);
        }
        matchdays := matchdays[id := row];
      }
    }

    /** The `for..of` loop of `calculateMatchday` over the history rows of matchday number `n`
        (the users `users`), in whatever order the table returns them. */
    method SettleRows(n: int, stats: map<string, PlayerMatchStats>, users: set<string>)
      requires users == RowUsers(history, n)
      modifies this`profiles, this`history
      ensures history == SettledHistory(old(history), n, stats)
      ensures profiles == SettledProfiles(old(profiles), old(history), n, stats)
    {
      ghost var profiles0, history0 := profiles, history;
      var h, p := history, profiles;
      var pending := users;
      ghost var done: set<string> := {};
      while pending != {}
        invariant pending !! done && pending + done == users
        invariant h == ScoreRows(history0, n, stats, done)
        invariant p == CreditRows(profiles0, history0, n, stats, done)
        decreases pending
      {
        var u :| u in pending;
        var key := HistoryKey(u, n);
        SettleStep(profiles0, history0, n, stats, done, u);
        var total := SumLineup(stats, SnapshotOf(h[key]));
        h := h[key := h[key].(pointsEarned := Some(total))];
        if u in p {
          var prof := p[u];
          p := p[u := prof.(points := Some(PointsOf(prof) + total), isLineupConfirmed := Some(false))];
        }
        pending := pending - {u};
        done := done + {u};
      }
      history, profiles := h, p;
    }

    /** The rows of `profiles` in standings order, with their ids. */
    method RankProfiles() returns (ranked: seq<(string, ProfileRow)>)
      ensures |ranked| == |profiles|
      ensures forall e :: e in ranked <==> e.0 in profiles && e.1 == profiles[e.0]
      ensures IsRanked(ranked)
    {
      ranked := [];
      var pending := profiles.Keys;
      ghost var done: set<string> := {};
      while pending != {}
        invariant pending !! done && pending + done == profiles.Keys
        invariant IsRanked(ranked) && |ranked| == |done|
        invariant forall e :: e in ranked <==> e.0 in done && e.1 == profiles[e.0]
        decreases pending
      {
        var u :| u in pending;
        ranked := InsertRanked(ranked, (u, profiles[u]));
        pending := pending - {u};
        done := done + {u};
      }
      assert done == profiles.Keys;
    }

    /** `getAllProfiles`: every profile, mapped as the listing maps it, in standings order
        (the order the query asks the database for; ties come in any order). */
    method GetAllProfiles() returns (users: seq<User>)
      ensures |users| == |profiles|
      ensures forall i :: 0 <= i < |users| ==>
        users[i].id in profiles && users[i] == ListedUser(users[i].id, profiles[users[i].id])
      ensures forall u :: u in profiles ==> exists i :: 0 <= i < |users| && users[i].id == u
      ensures forall i, j :: 0 <= i < j < |users| ==>
        RanksBefore(profiles[users[i].id].points, profiles[users[j].id].points)
    {
      var ranked := RankProfiles();
      users := seq(|ranked|, i requires 0 <= i < |ranked| => ListedUser(ranked[i].0, ranked[i].1));
      forall i | 0 <= i < |users|
        ensures users[i].id == ranked[i].0 && ranked[i].0 in profiles && ranked[i].1 == profiles[ranked[i].0]
      {
        assert ranked[i] in ranked;
      }
      forall u | u in profiles ensures exists i :: 0 <= i < |users| && users[i].id == u {
        assert (u, profiles[u]) in ranked;
        var i :| 0 <= i < |ranked| && ranked[i] == (u, profiles[u]);
        assert users[i].id == u;
      }
    }

    /** `calculateMatchday`: score every history row of the matchday against `stats`, credit each
        row's user with the row's total and clear the confirmation, store `stats` as the votes and
        mark the matchday calculated, then move `currentMatchday` to the matchday's number + 1.
        It fails, changing nothing, on an unknown id or when no lineup was submitted. There is no
        check of the matchday's status. */
    method CalculateMatchday(id: int, stats: map<string, PlayerMatchStats>) returns (r: Outcome<CalcError>)
      requires Valid()
      modifies this`profiles, this`history, this`matchdays, this`settings
      ensures Valid()
      ensures id !in old(matchdays) ==> r == Fail(MatchdayNotFound) && unchanged(this)
      ensures id in old(matchdays) && RowUsers(old(history), old(matchdays)[id].number) == {} ==>
        r == Fail(NoLineupsSubmitted) && unchanged(this)
      ensures id in old(matchdays) && RowUsers(old(history), old(matchdays)[id].number) != {} ==>
        var n := old(matchdays)[id].number;
        && r == Pass
        && history == SettledHistory(old(history), n, stats)
        && profiles == SettledProfiles(old(profiles), old(history), n, stats)
        && matchdays == old(matchdays)[id := old(matchdays)[id].(votes := stats, status := Calculated)]
        && settings == Some(SettingsRowOf(GetSettings(old(settings)).(currentMatchday := n + 1)))
    {
      if id !in matchdays {
        return Fail(MatchdayNotFound);
      }
      var matchday := matchdays[id];
      var n := matchday.number;
      var users := RowUsers(history, n);
      if users == {} {
        return Fail(NoLineupsSubmitted);
      }
      SettleRows(n, stats, users);
      matchdays := matchdays[id := matchday.(votes := stats, status := Calculated)];
      var current := GetSettings(settings);
      settings := Some(SettingsRowOf(current.(currentMatchday := n + 1)));
      r := Pass;
    }

    /** `deleteMatchday`: on an unknown id nothing happens. Otherwise, when the matchday is
        calculated, every history row's user loses the row's points (not going below 0); in
        either status the history rows of its number and then the matchday are deleted. */
    method DeleteMatchday(id: int)
      requires Valid()
      modifies this`profiles, this`history, this`matchdays
      ensures Valid()
      ensures id !in old(matchdays) ==> unchanged(this)
      ensures id in old(matchdays) ==>
        var md := old(matchdays)[id];
        && profiles == (if md.status == Calculated then ReversedProfiles(old(profiles), old(history), md.number) else old(profiles))
        && history == WithoutMatchday(old(history), md.number)
        && matchdays == old(matchdays) - {id}
    {
      if id !in matchdays {
        return;
      }
      var matchday := matchdays[id];
      var n := matchday.number;
      if matchday.status == Calculated {
        var users := RowUsers(history, n);
        ghost var profiles0 := profiles;
        var pending := users;
        while pending != {}
          invariant pending <= users
          invariant profiles == DebitRows(profiles0, history, n, users - pending)
          invariant history == old(history) && matchdays == old(matchdays)
          decreases pending
        {
          var u :| u in pending;
          ghost var done := users - pending;
          DebitRowsStep(profiles0, history, n, done, u);
          var h := history[HistoryKey(u, n)];
          if u in profiles {
            var prof := profiles[u];
            profiles := profiles[u := prof.(points := Some(Max0(PointsOf(prof) - EarnedOf(h))))];
          }
          assert users - (pending - {u}) == done + {u};
          pending := pending - {u};
        }
      }
      history := map k | k in history && k.matchdayNumber != n :: history[k];
      matchdays := matchdays - {id};
    }

    /** `resetAllStandings`: every profile (but the nil id) gets 0 points and loses its
        confirmation, the history is emptied, and every matchday (but id 0) is reopened with no
        votes. Credits, rosters, lineups and the settings are untouched. */
    method ResetAllStandings()
      requires Valid()
      modifies this`profiles, this`history, this`matchdays
      ensures Valid()
      ensures profiles.Keys == old(profiles).Keys
      ensures forall u :: u in profiles && u != NilUuid ==>
        profiles[u] == old(profiles)[u].(points := Some(0.0), isLineupConfirmed := Some(false))
      ensures NilUuid in profiles ==> profiles[NilUuid] == old(profiles)[NilUuid]
      ensures history == map[]
      ensures matchdays.Keys == old(matchdays).Keys
      ensures forall id :: id in matchdays ==> matchdays[id] == old(matchdays)[id].(status := Open, votes := map[])
    {
      profiles := map u | u in profiles ::
        if u != NilUuid then profiles[u].(points := Some(0.0), isLineupConfirmed := Some(false)) else profiles[u];
      history := map[];
      matchdays := map id | id in matchdays ::
        if id != 0 then matchdays[id].(status := Open, votes := map[]) else matchdays[id];
    }
  }

  /** Settlement scores every history row of matchday number `n` with its own snapshot, and leaves
      the rows of other matchdays and the snapshots themselves alone. */
  lemma SettlementScoresSnapshots(history: map<HistoryKey, HistoryRow>, n: int, stats: map<string, PlayerMatchStats>)
    ensures SettledHistory(history, n, stats).Keys == history.Keys
    ensures forall k :: k in history ==>
      SettledHistory(history, n, stats)[k].playerIds == history[k].playerIds
    ensures forall k :: k in history && k.matchdayNumber == n ==>
      SettledHistory(history, n, stats)[k].pointsEarned == Some(LineupTotal(stats, SnapshotOf(history[k])))
    ensures forall k :: k in history && k.matchdayNumber != n ==>
      SettledHistory(history, n, stats)[k] == history[k]
  {
    var users := RowUsers(history, n);
    assert forall k :: k in history && k.matchdayNumber == n ==> k.userId in users;
  }

  /** Settlement: every team with a history row for `n` gains exactly that row's total and is no
      longer confirmed; every other team is untouched; names, rosters, lineups and credits never change. */
  lemma SettlementCreditsTeams(profiles: map<string, ProfileRow>, history: map<HistoryKey, HistoryRow>, n: int,
                               stats: map<string, PlayerMatchStats>)
    ensures SettledProfiles(profiles, history, n, stats).Keys == profiles.Keys
    ensures forall u :: u in profiles && HistoryKey(u, n) in history ==>
      var row := SettledProfiles(profiles, history, n, stats)[u];
      && PointsOf(row) == PointsOf(profiles[u]) + RowTotal(stats, history[HistoryKey(u, n)])
      && row.isLineupConfirmed == Some(false)
    ensures forall u :: u in profiles && HistoryKey(u, n) !in history ==>
      SettledProfiles(profiles, history, n, stats)[u] == profiles[u]
    ensures forall u :: u in profiles ==>
      var row := SettledProfiles(profiles, history, n, stats)[u];
      && row.playerIds == profiles[u].playerIds && row.lineupIds == profiles[u].lineupIds
      && row.credits == profiles[u].credits && row.teamName == profiles[u].teamName
      && row.managerName == profiles[u].managerName && row.logoUrl == profiles[u].logoUrl
  {
  }

  /** Settlement scores the history snapshot, not the live lineup: changing a profile's
      `lineup_ids` changes nothing in what it is credited. */
  lemma SettlementIgnoresLiveLineup(profiles: map<string, ProfileRow>, history: map<HistoryKey, HistoryRow>, n: int,
                                    stats: map<string, PlayerMatchStats>, u: string, live: Option<seq<string>>)
    requires u in profiles
    ensures PointsOf(SettledProfiles(profiles[u := profiles[u].(lineupIds := live)], history, n, stats)[u])
         == PointsOf(SettledProfiles(profiles, history, n, stats)[u])
  {
  }

  /** A lineup confirmed for matchday `n` is what settlement of `n` scores. */
  lemma ConfirmedLineupIsScored(history: map<HistoryKey, HistoryRow>, u: string, n: int, lineupIds: seq<string>,
                                stats: map<string, PlayerMatchStats>)
    ensures var h := history[HistoryKey(u, n) := HistoryRow(Some(lineupIds), Some(0.0))];
      SettledHistory(h, n, stats)[HistoryKey(u, n)] == HistoryRow(Some(lineupIds), Some(LineupTotal(stats, lineupIds)))
  {
    var h := history[HistoryKey(u, n) := HistoryRow(Some(lineupIds), Some(0.0))];
    SettlementScoresSnapshots(h, n, stats);
  }

  /** Deletion of a calculated matchday: every team with a row loses that row's points, floored at 0;
      every other team is untouched; nothing but the points changes. */
  lemma ReversalDebitsTeams(profiles: map<string, ProfileRow>, history: map<HistoryKey, HistoryRow>, n: int)
    ensures ReversedProfiles(profiles, history, n).Keys == profiles.Keys
    ensures forall u :: u in profiles && HistoryKey(u, n) in history ==>
      var row := ReversedProfiles(profiles, history, n)[u];
      && PointsOf(row) == Max0(PointsOf(profiles[u]) - EarnedOf(history[HistoryKey(u, n)]))
      && row == profiles[u].(points := row.points)
    ensures forall u :: u in profiles && HistoryKey(u, n) !in history ==>
      ReversedProfiles(profiles, history, n)[u] == profiles[u]
  {
  }

  /** Round trip: settling matchday `n` and then deleting it gives every team with non-negative
      points exactly its points from before, because deletion subtracts the `points_earned` that
      settlement recorded. */
  lemma SettleThenDeleteRestoresPoints(profiles: map<string, ProfileRow>, history: map<HistoryKey, HistoryRow>, n: int,
                                       stats: map<string, PlayerMatchStats>, u: string)
    requires u in profiles && PointsOf(profiles[u]) >= 0.0
    ensures var after := ReversedProfiles(SettledProfiles(profiles, history, n, stats), SettledHistory(history, n, stats), n);
      u in after && PointsOf(after[u]) == PointsOf(profiles[u])
  {
    var settled := SettledProfiles(profiles, history, n, stats);
    var h := SettledHistory(history, n, stats);
    SettlementCreditsTeams(profiles, history, n, stats);
    SettlementScoresSnapshots(history, n, stats);
    ReversalDebitsTeams(settled, h, n);
    var k := HistoryKey(u, n);
    if k in history {
      assert EarnedOf(h[k]) == RowTotal(stats, history[k]);
    }
  }

  /** Without a status check, settling the same matchday twice credits every team with a row twice. */
  lemma SecondSettlementAddsAgain(profiles: map<string, ProfileRow>, history: map<HistoryKey, HistoryRow>, n: int,
                                  stats: map<string, PlayerMatchStats>, u: string)
    requires u in profiles && HistoryKey(u, n) in history
    ensures var twice := SettledProfiles(SettledProfiles(profiles, history, n, stats), SettledHistory(history, n, stats), n, stats);
      u in twice && PointsOf(twice[u]) == PointsOf(profiles[u]) + 2.0 * RowTotal(stats, history[HistoryKey(u, n)])
  {
    var h := SettledHistory(history, n, stats);
    var once := SettledProfiles(profiles, history, n, stats);
    SettlementCreditsTeams(profiles, history, n, stats);
    SettlementScoresSnapshots(history, n, stats);
    SettlementCreditsTeams(once, h, n, stats);
    assert RowTotal(stats, h[HistoryKey(u, n)]) == RowTotal(stats, history[HistoryKey(u, n)]);
  }
}
