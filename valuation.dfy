/**
 * Value-level meaning of a roster and of the marginal value of a candidate
 * ("net additional score").  A `Lineup` is what the roster's three underlying
 * lists hold: the QB list, the RB list, and the one list that the WR slot and
 * the TE slot share.  The roster classes are proved to compute these
 * functions of their current lists.
 */
module Valuation {
  import opened Wrappers
  import opened Stats
  import opened TopK

  /** Fixed league format: capacity of each position slot. */
  function MaxPlayers(pos: Pos): nat
  {
    match pos
    case QB => 3
    case RB => 10
    case WR => 11
    case TE => 11
  }

  /** Fixed league format: starting spots of each position slot. */
  function StartingPlayers(pos: Pos): nat
  {
    match pos
    case QB => 1
    case RB => 2
    case WR => 3
    case TE => 3
  }

  predicate IsReceiver(pos: Pos)
  {
    pos == WR || pos == TE
  }

  /** The test of `Position.matching_players`: does a slot of position `slot` match a `candidate`? */
  predicate Matches(slot: Pos, candidate: Pos)
  {
    (IsReceiver(candidate) && IsReceiver(slot)) || candidate == slot
  }

  /** Position groups: WR and TE form one receiver group. */
  datatype Group = Quarterbacks | RunningBacks | Receivers

  function GroupOf(pos: Pos): Group
  {
    match pos
    case QB => Quarterbacks
    case RB => RunningBacks
    case WR => Receivers
    case TE => Receivers
  }

  /** A slot matches a candidate exactly when both belong to the same group. */
  lemma MatchesIffSameGroup(slot: Pos, candidate: Pos)
    ensures Matches(slot, candidate) <==> GroupOf(slot) == GroupOf(candidate)
  {
  }

  /** Contents of a roster: the QB list, the RB list and the shared receivers list, in draft order. */
  datatype Lineup = Lineup(qbs: seq<Player>, rbs: seq<Player>, receivers: seq<Player>)

  const EmptyLineup: Lineup := Lineup([], [], [])

  /** The list that the slot of position `pos` holds; WR and TE see the same list. */
  function SlotPlayers(l: Lineup, pos: Pos): seq<Player>
  {
    match pos
    case QB => l.qbs
    case RB => l.rbs
    case WR => l.receivers
    case TE => l.receivers
  }

  predicate HasSpot(l: Lineup, pos: Pos)
  {
    |SlotPlayers(l, pos)| < MaxPlayers(pos)
  }

  predicate HasStartingSpot(l: Lineup, pos: Pos)
  {
    |SlotPlayers(l, pos)| < StartingPlayers(pos)
  }

  /** An open starting spot is always an open spot. */
  lemma StartingSpotIsSpot(l: Lineup, pos: Pos)
    ensures HasStartingSpot(l, pos) ==> HasSpot(l, pos)
  {
  }

  /** WR and TE share one count: their spot and starting-spot answers always agree. */
  lemma ReceiverSlotsShareCount(l: Lineup)
    ensures HasSpot(l, WR) <==> HasSpot(l, TE)
    ensures HasStartingSpot(l, WR) <==> HasStartingSpot(l, TE)
  {
  }

  /**
   * What `Roster.matching_players` returns: the four slots in the order
   * QB, RB, WR, TE, each contributing its list when it matches.  For a
   * receiver both receiver slots match, so the shared list comes twice.
   */
  function Matching(l: Lineup, candidate: Pos): seq<Player>
  {
    if IsReceiver(candidate) then l.receivers + l.receivers else SlotPlayers(l, candidate)
  }

  /** The lineup after drafting `p`: `p` is appended to the list its position slot holds. */
  function Added(l: Lineup, p: Player): Lineup
  {
    match p.position
    case QB => l.(qbs := l.qbs + [p])
    case RB => l.(rbs := l.rbs + [p])
    case WR => l.(receivers := l.receivers + [p])
    case TE => l.(receivers := l.receivers + [p])
  }

  /**
   * Drafting appends to every slot that matches the player's position (both
   * receiver slots for a WR or TE) and leaves the other slots as they were.
   */
  lemma AddedSlots(l: Lineup, p: Player, pos: Pos)
    ensures SlotPlayers(Added(l, p), pos) ==
            if Matches(pos, p.position) then SlotPlayers(l, pos) + [p] else SlotPlayers(l, pos)
  {
  }

  /** The scores a run of weeks has for week `w`, in order. */
  function ScoresAt(stats: seq<WeekStats>, w: Week): seq<real>
  {
    if stats == [] then []
    else
      var last := stats[|stats| - 1];
      ScoresAt(stats[..|stats| - 1], w) + (if last.week == w then [Score(last.line)] else [])
  }

  /** The scores the players of `ps` have for week `w`, player by player (the merged dict's entry). */
  function WeekScores(ps: seq<Player>, w: Week): seq<real>
  {
    if ps == [] then []
    else WeekScores(ps[..|ps| - 1], w) + ScoresAt(ps[|ps| - 1].stats, w)
  }

  /** `merged` maps exactly the weeks some player of `ps` has data for to those players' scores. */
  ghost predicate Describes(merged: map<Week, seq<real>>, ps: seq<Player>)
  {
    forall w :: DescribesAt(merged, ps, w)
  }

  /** The merged dict's entry for week `w` is the players' scores for it, and is absent when they have none. */
  ghost predicate DescribesAt(merged: map<Week, seq<real>>, ps: seq<Player>, w: Week)
  {
    (w in merged <==> WeekScores(ps, w) != []) && (w in merged ==> merged[w] == WeekScores(ps, w))
  }

  lemma {:induction false} ScoresAtNonEmpty(stats: seq<WeekStats>, w: Week)
    ensures ScoresAt(stats, w) != [] <==> exists j :: 0 <= j < |stats| && stats[j].week == w
    decreases |stats|
  {
    if stats != [] {
      var s' := stats[..|stats| - 1];
      ScoresAtNonEmpty(s', w);
      if exists j :: 0 <= j < |stats| && stats[j].week == w {
        var j :| 0 <= j < |stats| && stats[j].week == w;
        if j < |s'| {
          assert s'[j].week == w;
        }
      }
    }
  }

  /** A week has merged scores exactly when some player of `ps` has data for it. */
  lemma {:induction false} WeekScoresNonEmpty(ps: seq<Player>, w: Week)
    ensures WeekScores(ps, w) != [] <==>
      exists i, j :: 0 <= i < |ps| && 0 <= j < |ps[i].stats| && ps[i].stats[j].week == w
    decreases |ps|
  {
    if ps != [] {
      var ps' := ps[..|ps| - 1];
      WeekScoresNonEmpty(ps', w);
      ScoresAtNonEmpty(ps[|ps| - 1].stats, w);
      if exists i, j :: 0 <= i < |ps| && 0 <= j < |ps[i].stats| && ps[i].stats[j].week == w {
        var i, j :| 0 <= i < |ps| && 0 <= j < |ps[i].stats| && ps[i].stats[j].week == w;
        if i < |ps'| {
          assert ps'[i].stats[j].week == w;
        }
      }
    }
  }

  /** Scores of a concatenation of player lists are the concatenated scores. */
  lemma {:induction false} WeekScoresAppend(a: seq<Player>, b: seq<Player>, w: Week)
    ensures WeekScores(a + b, w) == WeekScores(a, w) + WeekScores(b, w)
    decreases |b|
  {
    if b == [] {
      assert a + b == a;
    } else {
      var b', last := b[..|b| - 1], b[|b| - 1];
      var ab := a + b;
      assert ab[..|ab| - 1] == a + b' && ab[|ab| - 1] == last;
      WeekScoresAppend(a, b', w);
      var x, y, z := WeekScores(a, w), WeekScores(b', w), ScoresAt(last.stats, w);
      assert (x + y) + z == x + (y + z);
    }
  }

  /** Since a receiver candidate matches the shared list twice, every receiver's weekly score is merged twice. */
  lemma ReceiverScoresDoubled(l: Lineup, candidate: Pos, w: Week)
    requires IsReceiver(candidate)
    ensures WeekScores(Matching(l, candidate), w) == WeekScores(l.receivers, w) + WeekScores(l.receivers, w)
  {
    WeekScoresAppend(l.receivers, l.receivers, w);
  }

  function Max0(x: real): real
  {
    if x > 0.0 then x else 0.0
  }

  /**
   * One week of the bench calculation: `scores` are the merged scores for the
   * week, `k` the starting count, `s` the candidate's score that week.  With
   * T the top `k` merged scores, the candidate adds max(0, s - min T) when T
   * is full, max(0, s) when T has fewer than `k` entries, and nothing when
   * there are no starting spots.
   */
  function WeekGain(scores: seq<real>, k: nat, s: real): real
  {
    var t := Top(scores, k);
    if k == 0 then 0.0 else if |t| < k then Max0(s) else Max0(s - t[k - 1])
  }

  /**
   * The calculation as the loop writes it (sort, keep `k`, add the candidate,
   * sort and keep `k` again, subtract the sums, keep positive deltas) always
   * comes to `WeekGain`.
   */
  lemma DeltaIsWeekGain(scores: seq<real>, k: nat, s: real, delta: real)
    requires delta == Sum(Top(Top(scores, k) + [s], k)) - Sum(Top(scores, k))
    ensures Max0(delta) == WeekGain(scores, k, s)
  {
    TopIsLargest(scores, k);
    SortedJoins(Top(scores, k), k, s);
  }

  /** Adding `s` to `k` or fewer sorted scores and keeping the top `k` changes their sum by `s` less the score dropped. */
  lemma SortedJoins(t: seq<real>, k: nat, s: real)
    requires SortedDesc(t) && |t| <= k
    ensures Sum(Top(t + [s], k)) - Sum(t) ==
      if k == 0 then 0.0 else if |t| < k then s else Max0(s - t[k - 1])
  {
    SortedAppend(t, s);
    if |t| < k {
      JoinsShort(t, k, s);
    } else if 0 < k {
      JoinsFull(t, s);
    }
  }

  lemma SortedAppend(t: seq<real>, s: real)
    requires SortedDesc(t)
    ensures SortDesc(t + [s]) == Insert(t, s)
  {
    SortStep(t, s);
    SortDescOfSorted(t);
  }

  lemma JoinsShort(t: seq<real>, k: nat, s: real)
    requires |t| < k && SortDesc(t + [s]) == Insert(t, s)
    ensures Sum(Top(t + [s], k)) == Sum(t) + s
  {
    assert Top(t + [s], k) == Insert(t, s);
    SumInsert(t, s);
  }

  lemma JoinsFull(t: seq<real>, s: real)
    requires SortedDesc(t) && t != [] && SortDesc(t + [s]) == Insert(t, s)
    ensures Sum(Top(t + [s], |t|)) == Sum(t) + s - (if s < t[|t| - 1] then s else t[|t| - 1])
  {
    var u := Insert(t, s);
    assert Top(t + [s], |t|) == u[..|u| - 1];
    SumInsert(t, s);
    SumDropLast(u);
    InsertLast(t, s);
  }

  /**
   * The bench branch of `net_additional_score`: the candidate's weeks in
   * order, each adding its `WeekGain`; a week no matching player has data
   * for raises `KeyError`, reported here as `Err` with that week.
   */
  function BenchGain(ps: seq<Player>, k: nat, stats: seq<WeekStats>): Result<real, Week>
  {
    if stats == [] then Ok(0.0)
    else
      match BenchGain(ps, k, stats[..|stats| - 1])
      case Err(w) => Err(w)
      case Ok(total) =>
        var last := stats[|stats| - 1];
        var scores := WeekScores(ps, last.week);
        if scores == [] then Err(last.week)
        else Ok(total + WeekGain(scores, k, Score(last.line)))
  }

  /** `net_additional_score` of candidate `c` for a roster holding `l`. */
  function Net(l: Lineup, c: Player): Result<real, Week>
  {
    if !HasSpot(l, c.position) then Ok(0.0)
    else if HasStartingSpot(l, c.position) then Ok(OverallScore(c))
    else BenchGain(Matching(l, c.position), StartingPlayers(c.position), c.stats)
  }

  /** Only positive weekly deltas are added, so a bench value is never negative. */
  lemma {:induction false} BenchGainNonNegative(ps: seq<Player>, k: nat, stats: seq<WeekStats>)
    ensures BenchGain(ps, k, stats).Ok? ==> BenchGain(ps, k, stats).value >= 0.0
    decreases |stats|
  {
    if stats != [] {
      BenchGainNonNegative(ps, k, stats[..|stats| - 1]);
    }
  }

  /** The bench calculation fails exactly when one of the candidate's weeks has no merged scores. */
  lemma {:induction false} BenchGainFails(ps: seq<Player>, k: nat, stats: seq<WeekStats>)
    ensures BenchGain(ps, k, stats).Err? <==>
      exists i :: 0 <= i < |stats| && WeekScores(ps, stats[i].week) == []
    decreases |stats|
  {
    if stats != [] {
      var s' := stats[..|stats| - 1];
      BenchGainFails(ps, k, s');
      BenchGainLastWeek(ps, k, stats);
      if exists i :: 0 <= i < |stats| && WeekScores(ps, stats[i].week) == [] {
        var i :| 0 <= i < |stats| && WeekScores(ps, stats[i].week) == [];
        if i < |s'| {
          assert WeekScores(ps, s'[i].week) == [];
        }
      }
    }
  }

  /** The week a failed bench calculation reports is one of the candidate's weeks with no merged scores. */
  lemma {:induction false} BenchGainErrorWeek(ps: seq<Player>, k: nat, stats: seq<WeekStats>)
    requires BenchGain(ps, k, stats).Err?
    ensures WeekScores(ps, BenchGain(ps, k, stats).error) == []
    ensures exists i :: 0 <= i < |stats| && stats[i].week == BenchGain(ps, k, stats).error
    decreases |stats|
  {
    var s', n := stats[..|stats| - 1], |stats| - 1;
    BenchGainLastWeek(ps, k, stats);
    if BenchGain(ps, k, s').Err? {
      BenchGainErrorWeek(ps, k, s');
      var i :| 0 <= i < |s'| && s'[i].week == BenchGain(ps, k, s').error;
      assert stats[i].week == BenchGain(ps, k, stats).error;
    } else {
      assert stats[n].week == BenchGain(ps, k, stats).error;
    }
  }

  /** The calculation fails at an earlier week or, when that succeeds, at the last week if it has no merged scores. */
  lemma BenchGainLastWeek(ps: seq<Player>, k: nat, stats: seq<WeekStats>)
    requires stats != []
    ensures var s', last := stats[..|stats| - 1], stats[|stats| - 1];
      BenchGain(ps, k, stats) ==
        if BenchGain(ps, k, s').Err? then BenchGain(ps, k, s')
        else if WeekScores(ps, last.week) == [] then Err(last.week)
        else Ok(BenchGain(ps, k, s').value + WeekGain(WeekScores(ps, last.week), k, Score(last.line)))
  {
  }

  /** Once a prefix of the candidate's weeks fails, the whole calculation fails the same way. */
  lemma {:induction false} BenchGainPrefixErr(ps: seq<Player>, k: nat, stats: seq<WeekStats>, n: nat)
    requires n <= |stats| && BenchGain(ps, k, stats[..n]).Err?
    ensures BenchGain(ps, k, stats) == BenchGain(ps, k, stats[..n])
    decreases |stats| - n
  {
    if n < |stats| {
      assert stats[..n + 1][..n] == stats[..n];
      BenchGainPrefixErr(ps, k, stats, n + 1);
    } else {
      assert stats[..n] == stats;
    }
  }

  /**
   * The three cases of `net_additional_score`: zero without a spot, the full
   * overall score with an open starting spot, and otherwise a bench value
   * that is never negative.
   */
  lemma NetCases(l: Lineup, c: Player)
    ensures !HasSpot(l, c.position) ==> Net(l, c) == Ok(0.0)
    ensures HasSpot(l, c.position) && HasStartingSpot(l, c.position) ==> Net(l, c) == Ok(OverallScore(c))
    ensures !HasStartingSpot(l, c.position) && Net(l, c).Ok? ==> Net(l, c).value >= 0.0
  {
    BenchGainNonNegative(Matching(l, c.position), StartingPlayers(c.position), c.stats);
  }

  /** On an empty roster every position has an open starting spot, so nothing fails. */
  lemma EmptyLineupNet(c: Player)
    ensures Net(EmptyLineup, c) == Ok(OverallScore(c))
  {
  }

  /**
   * With an open starting spot the value is the overall score, which may be
   * negative: a quarterback projected only to fumble once is worth -1.
   */
  lemma StarterValueCanBeNegative()
    ensures Net(EmptyLineup, Player([WeekStats("1", PlayerStats(0.0, 0.0, 0.0, 0.0, 0.0, 0.0, 0.0, 1.0))],
                                    "Q", QB)) == Ok(-1.0)
  {
    var stats := [WeekStats("1", PlayerStats(0.0, 0.0, 0.0, 0.0, 0.0, 0.0, 0.0, 1.0))];
    assert stats[..0] == [];
  }

  /** A single week "1" in which the player gains `yards` rushing and nothing else. */
  function RushingWeek(yards: real): seq<WeekStats>
  {
    [WeekStats("1", PlayerStats(0.0, 0.0, 0.0, yards, 0.0, 0.0, 0.0, 0.0))]
  }

  /** The week-1 scores of a list of players, each of whom has only week 1. */
  lemma OneWeekScores(ps: seq<Player>, w: Week)
    requires forall i :: 0 <= i < |ps| ==> |ps[i].stats| == 1 && ps[i].stats[0].week == w
    ensures WeekScores(ps, w) == seq(|ps|, i requires 0 <= i < |ps| => Score(ps[i].stats[0].line))
    decreases |ps|
  {
    if ps != [] {
      OneWeekScores(ps[..|ps| - 1], w);
      var st := ps[|ps| - 1].stats;
      assert st[..0] == [];
      assert ScoresAt(st, w) == [Score(st[0].line)];
    }
  }

  /**
   * Two rostered running backs score 10 and 8 in week 1 and fill both RB
   * starting spots; a third running back scoring 9 that week is worth
   * (10 + 9) - (10 + 8) = 1.
   */
  lemma RunningBackBenchExample()
    ensures Net(Lineup([], [Player(RushingWeek(300.0), "A", RB), Player(RushingWeek(240.0), "B", RB)], []),
                Player(RushingWeek(270.0), "C", RB)) == Ok(1.0)
  {
    var a, b := Player(RushingWeek(300.0), "A", RB), Player(RushingWeek(240.0), "B", RB);
    var c := Player(RushingWeek(270.0), "C", RB);
    RunningBackExampleScores([a, b]);
    assert WeekGain([10.0, 8.0], 2, 9.0) == 1.0 by {
      SortDescOfSorted([10.0, 8.0]);
    }
    assert Score(c.stats[0].line) == 9.0;
    BenchGainOneWeek([a, b], 2, c.stats);
  }

  /** The merged receiver scores of the example, sorted. */
  lemma SortDoubledScores()
    ensures SortDesc([10.0, 8.0, 6.0, 10.0, 8.0, 6.0]) == [10.0, 10.0, 8.0, 8.0, 6.0, 6.0]
  {
    SortDescOfSorted([10.0, 8.0, 6.0]);
    assert [10.0, 8.0, 6.0] == [10.0] + [8.0, 6.0];
    SortAppendBetween([10.0, 8.0, 6.0], 10.0, [10.0], [8.0, 6.0]);
    assert [10.0, 8.0, 6.0] + [10.0] == [10.0, 8.0, 6.0, 10.0];
    assert [10.0] + [10.0] + [8.0, 6.0] == [10.0, 10.0, 8.0] + [6.0];
    SortAppendBetween([10.0, 8.0, 6.0, 10.0], 8.0, [10.0, 10.0, 8.0], [6.0]);
    assert [10.0, 8.0, 6.0, 10.0] + [8.0] == [10.0, 8.0, 6.0, 10.0, 8.0];
    assert [10.0, 10.0, 8.0] + [8.0] + [6.0] == [10.0, 10.0, 8.0, 8.0, 6.0] + [];
    SortAppendBetween([10.0, 8.0, 6.0, 10.0, 8.0], 6.0, [10.0, 10.0, 8.0, 8.0, 6.0], []);
    assert [10.0, 8.0, 6.0, 10.0, 8.0] + [6.0] == [10.0, 8.0, 6.0, 10.0, 8.0, 6.0];
  }

  /**
   * Three rostered receivers score 10, 8 and 6 in week 1.  Because the
   * shared list is matched twice, the merged scores are 10, 8, 6, 10, 8, 6,
   * the top three are 10, 10, 8, and a fourth receiver scoring 9 is worth
   * 9 - 8 = 1 (compare `ReceiverCountedOnceExample`).
   */
  lemma ReceiverBenchExample()
    ensures Net(Lineup([], [], [Player(ReceivingWeek(300.0), "A", WR), Player(ReceivingWeek(240.0), "B", WR),
                                Player(ReceivingWeek(180.0), "C", TE)]),
                Player(ReceivingWeek(270.0), "D", WR)) == Ok(1.0)
  {
    var rs := [Player(ReceivingWeek(300.0), "A", WR), Player(ReceivingWeek(240.0), "B", WR),
               Player(ReceivingWeek(180.0), "C", TE)];
    var d := Player(ReceivingWeek(270.0), "D", WR);
    var l := Lineup([], [], rs);
    ReceiverExampleScores(rs);
    ReceiverScoresDoubled(l, WR, "1");
    var m := WeekScores(Matching(l, WR), "1");
    assert m == [10.0, 8.0, 6.0, 10.0, 8.0, 6.0];
    SortDoubledScores();
    assert Top(m, 3) == [10.0, 10.0, 8.0];
    BenchGainOneWeek(Matching(l, WR), 3, d.stats);
    assert Score(d.stats[0].line) == 9.0;
  }

  lemma RunningBackExampleScores(ps: seq<Player>)
    requires ps == [Player(RushingWeek(300.0), "A", RB), Player(RushingWeek(240.0), "B", RB)]
    ensures WeekScores(ps, "1") == [10.0, 8.0]
  {
    OneWeekScores(ps, "1");
  }

  lemma ReceiverExampleScores(rs: seq<Player>)
    requires rs == [Player(ReceivingWeek(300.0), "A", WR), Player(ReceivingWeek(240.0), "B", WR),
                    Player(ReceivingWeek(180.0), "C", TE)]
    ensures WeekScores(rs, "1") == [10.0, 8.0, 6.0]
  {
    OneWeekScores(rs, "1");
  }

  /** The bench calculation for a candidate with a single week. */
  lemma BenchGainOneWeek(ps: seq<Player>, k: nat, stats: seq<WeekStats>)
    requires |stats| == 1 && WeekScores(ps, stats[0].week) != []
    ensures BenchGain(ps, k, stats) == Ok(WeekGain(WeekScores(ps, stats[0].week), k, Score(stats[0].line)))
  {
    assert stats[..0] == [];
  }

  /** Counting each of the three receivers of the example once, the fourth would be worth 9 - 6 = 3. */
  lemma ReceiverCountedOnceExample()
    ensures WeekGain([10.0, 8.0, 6.0], 3, 9.0) == 3.0
  {
    var once := [10.0, 8.0, 6.0];
    SortDescOfSorted(once);
    assert Top(once, 3) == once;
  }

  /** A single week "1" in which the player gains `yards` receiving and nothing else. */
  function ReceivingWeek(yards: real): seq<WeekStats>
  {
    [WeekStats("1", PlayerStats(0.0, 0.0, 0.0, 0.0, 0.0, yards, 0.0, 0.0))]
  }
}
