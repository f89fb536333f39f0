/**
 * `src/models.py`: the position slots, the roster (whose WR and TE slots
 * share one list object), the marginal-value computation, and the draft's
 * list of available players.
 */
module Models {
  import opened Wrappers
  import opened Stats
  import opened TopK
  import opened Valuation

  /** A Python list of players, as an object that several slots may reference. */
  class PlayerList {
    var items: seq<Player>

    constructor ()
      ensures items == []
    {
      items := [];
    }

    /** `list.append`. */
    method Append(p: Player)
      modifies this
      ensures items == old(items) + [p]
    {
      items := items + [p];
    }
  }

  /** One position slot: a reference to the list it holds, its capacity and its starting spots. */
  class Position {
    const position: Pos
    const players: PlayerList
    const maxPlayers: nat
    const startingPlayers: nat

    constructor (position: Pos, players: PlayerList, maxPlayers: nat, startingPlayers: nat)
      ensures this.position == position && this.players == players
      ensures this.maxPlayers == maxPlayers && this.startingPlayers == startingPlayers
    {
      this.position := position;
      this.players := players;
      this.maxPlayers := maxPlayers;
      this.startingPlayers := startingPlayers;
    }

    /** Room for one more player in the list this slot sees. */
    predicate HasSpot()
      reads players
      ensures HasSpot() <==> |players.items| < maxPlayers
    {
      |players.items| < maxPlayers
    }

    /** Room for one more starter; when starting spots do not exceed capacity it implies `HasSpot`. */
    predicate HasStartingSpot()
      reads players
      ensures HasStartingSpot() <==> |players.items| < startingPlayers
      ensures startingPlayers <= maxPlayers && HasStartingSpot() ==> HasSpot()
    {
      |players.items| < startingPlayers
    }

    /** This slot's list when the slot and the candidate are in the same group, else nothing. */
    function MatchingPlayers(player: Player): (r: seq<Player>)
      reads players
      ensures r == if GroupOf(position) == GroupOf(player.position) then players.items else []
    {
      if IsReceiver(player.position) && IsReceiver(position) then players.items
      else if player.position == position then players.items
      else []
    }
  }

  /** A slot of position `pos` with the fixed league capacity and starting count. */
  ghost predicate SlotIs(p: Position, pos: Pos)
  {
    p.position == pos && p.maxPlayers == MaxPlayers(pos) && p.startingPlayers == StartingPlayers(pos)
  }

  /** `Roster` of `src/models.py`: four slots keyed by position, plus the draft history. */
  class Roster {
    const qb: Position
    const rb: Position
    const wr: Position
    const te: Position
    var allPlayers: seq<Player>
    ghost const Repr: set<object>

    /** The slot `self.positions[pos]`. */
    function PositionOf(pos: Pos): Position
    {
      match pos
      case QB => qb
      case RB => rb
      case WR => wr
      case TE => te
    }

    /**
     * The slots carry the league format, WR and TE hold the same list object,
     * and the QB, RB and receivers lists are three distinct objects.
     */
    ghost predicate Valid()
    {
      && SlotIs(qb, QB) && SlotIs(rb, RB) && SlotIs(wr, WR) && SlotIs(te, TE)
      && wr.players == te.players
      && qb.players != rb.players && qb.players != wr.players && rb.players != wr.players
      && Repr == {this, qb.players, rb.players, wr.players}
    }

    /** What the three underlying lists hold. */
    function View(): Lineup
      reads qb.players, rb.players, wr.players
    {
      Lineup(qb.players.items, rb.players.items, wr.players.items)
    }

    constructor ()
      ensures Valid() && fresh(Repr)
      ensures View() == EmptyLineup && allPlayers == []
    {
      var receivers := new PlayerList();
      var qbs := new PlayerList();
      var rbs := new PlayerList();
      qb := new Position(QB, qbs, 3, 1);
      rb := new Position(RB, rbs, 10, 2);
      wr := new Position(WR, receivers, 11, 3);
      te := new Position(TE, receivers, 11, 3);
      allPlayers := [];
      Repr := {this, qbs, rbs, receivers};
    }

    /**
     * Appends the player to the list of its position's slot (the shared list
     * for WR and TE) and to the draft history; no other list changes.
     */
    method Add(player: Player)
      requires Valid()
      modifies this, PositionOf(player.position).players
      ensures View() == Added(old(View()), player)
      ensures allPlayers == old(allPlayers) + [player]
      ensures forall pos ::
                (SlotPlayers(View(), pos) ==
                 if Matches(pos, player.position) then SlotPlayers(old(View()), pos) + [player]
                 else SlotPlayers(old(View()), pos))
    {
      PositionOf(player.position).players.Append(player);
      allPlayers := allPlayers + [player];
      forall pos ensures SlotPlayers(View(), pos) ==
        (if Matches(pos, player.position) then SlotPlayers(old(View()), pos) + [player]
         else SlotPlayers(old(View()), pos))
      {
        AddedSlots(old(View()), player, pos);
      }
    }

    /** Room left in the candidate's slot, against the fixed capacity table. */
    predicate HasSpot(player: Player)
      requires Valid()
      reads Repr
      ensures HasSpot(player) <==> |SlotPlayers(View(), player.position)| < MaxPlayers(player.position)
    {
      PositionOf(player.position).HasSpot()
    }

    /** A starting spot left in the candidate's slot, against the fixed starting table. */
    predicate HasStartingSpot(player: Player)
      requires Valid()
      reads Repr
      ensures HasStartingSpot(player) <==>
        |SlotPlayers(View(), player.position)| < StartingPlayers(player.position)
    {
      PositionOf(player.position).HasStartingSpot()
    }

    /**
     * All four slots' matching players, in the order QB, RB, WR, TE: for a
     * receiver the shared list twice, otherwise exactly the candidate's slot.
     */
    function MatchingPlayers(player: Player): (r: seq<Player>)
      requires Valid()
      reads Repr
      ensures IsReceiver(player.position) ==> r == View().receivers + View().receivers
      ensures !IsReceiver(player.position) ==> r == SlotPlayers(View(), player.position)
    {
      qb.MatchingPlayers(player) + rb.MatchingPlayers(player)
      + wr.MatchingPlayers(player) + te.MatchingPlayers(player)
    }

    /** The starting count of the candidate's slot. */
    function StartingPositions(player: Player): (k: nat)
      requires Valid()
      ensures k == StartingPlayers(player.position)
    {
      PositionOf(player.position).startingPlayers
    }

    /**
     * `net_additional_score`: zero without a spot, the overall score with an
     * open starting spot, otherwise the bench value, which is never
     * negative; a candidate week that no matching player has data for is
     * the `KeyError`, returned as `Err`.
     */
    method NetAdditionalScore(player: Player) returns (r: Result<real, Week>)
      requires Valid()
      ensures r == Net(View(), player)
      ensures !Valuation.HasSpot(View(), player.position) ==> r == Ok(0.0)
      ensures Valuation.HasSpot(View(), player.position) && Valuation.HasStartingSpot(View(), player.position) ==>
        r == Ok(OverallScore(player))
      ensures !Valuation.HasStartingSpot(View(), player.position) && r.Ok? ==> r.value >= 0.0
    {
      NetCases(View(), player);
      if !HasSpot(player) {
        return Ok(0.0);
      }
      if HasStartingSpot(player) {
        return Ok(OverallScore(player));
      }
      var matching := MatchingPlayers(player);
      var merged := MergeDicts(matching);
      r := TotalDelta(merged, matching, StartingPositions(player), player.stats);
    }
  }

  /**
   * `merge_dicts` over the matching players' week-to-score dicts: each week
   * any of them has maps to their scores for it, in player order.
   */
  method MergeDicts(ps: seq<Player>) returns (merged: map<Week, seq<real>>)
    ensures Describes(merged, ps)
    ensures forall w :: w in merged <==> WeekScores(ps, w) != []
    ensures forall w :: w in merged ==> merged[w] == WeekScores(ps, w)
  {
    merged := map[];
    for i := 0 to |ps|
      invariant Describes(merged, ps[..i])
    {
      var stats := ps[i].stats;
      MergeStart(merged, ps[..i], stats);
      for j := 0 to |stats|
        invariant MergedSoFar(merged, ps[..i], stats[..j])
      {
        var week := stats[j].week;
        var value := Score(stats[j].line);
        MergeStep(merged, ps[..i], stats, j);
        merged := merged[week := (if week in merged then merged[week] else []) + [value]];
      }
      MergeEnd(merged, ps, i);
    }
    assert ps[..|ps|] == ps;
    forall w ensures (w in merged <==> WeekScores(ps, w) != []) && (w in merged ==> merged[w] == WeekScores(ps, w)) {
      assert DescribesAt(merged, ps, w);
    }
  }

  /** `merged` holds the scores of the players `ps` and then of the weeks `stats` of one more player. */
  ghost predicate MergedSoFar(merged: map<Week, seq<real>>, ps: seq<Player>, stats: seq<WeekStats>)
  {
    forall w :: && (w in merged <==> WeekScores(ps, w) + ScoresAt(stats, w) != [])
                && (w in merged ==> merged[w] == WeekScores(ps, w) + ScoresAt(stats, w))
  }

  lemma MergeStart(merged: map<Week, seq<real>>, ps: seq<Player>, stats: seq<WeekStats>)
    requires Describes(merged, ps)
    ensures MergedSoFar(merged, ps, stats[..0])
  {
    assert stats[..0] == [];
    forall w ensures (w in merged <==> WeekScores(ps, w) + ScoresAt(stats[..0], w) != [])
                  && (w in merged ==> merged[w] == WeekScores(ps, w) + ScoresAt(stats[..0], w))
    {
      assert DescribesAt(merged, ps, w);
    }
  }

  lemma MergeStep(merged: map<Week, seq<real>>, ps: seq<Player>, stats: seq<WeekStats>, j: nat)
    requires j < |stats| && MergedSoFar(merged, ps, stats[..j])
    ensures MergedSoFar(merged[stats[j].week := (if stats[j].week in merged then merged[stats[j].week] else [])
                                                + [Score(stats[j].line)]],
                        ps, stats[..j + 1])
  {
    forall w ensures ScoresAt(stats[..j + 1], w) ==
      ScoresAt(stats[..j], w) + (if stats[j].week == w then [Score(stats[j].line)] else [])
    {
      ScoresAtStep(stats, j, w);
    }
  }

  lemma MergeEnd(merged: map<Week, seq<real>>, ps: seq<Player>, i: nat)
    requires i < |ps| && MergedSoFar(merged, ps[..i], ps[i].stats[..|ps[i].stats|])
    ensures Describes(merged, ps[..i + 1])
  {
    assert ps[i].stats[..|ps[i].stats|] == ps[i].stats;
    var pre := ps[..i + 1];
    forall w ensures DescribesAt(merged, pre, w) {
      WeekScoresStep(ps, i, w);
    }
  }

  lemma ScoresAtStep(stats: seq<WeekStats>, j: nat, w: Week)
    requires j < |stats|
    ensures ScoresAt(stats[..j + 1], w) ==
      ScoresAt(stats[..j], w) + (if stats[j].week == w then [Score(stats[j].line)] else [])
  {
    assert stats[..j + 1][..j] == stats[..j];
  }

  lemma WeekScoresStep(ps: seq<Player>, i: nat, w: Week)
    requires i < |ps|
    ensures WeekScores(ps[..i + 1], w) == WeekScores(ps[..i], w) + ScoresAt(ps[i].stats, w)
  {
    assert ps[..i + 1][..i] == ps[..i];
  }

  /**
   * The `total_delta` loop over the candidate's weeks: the sum of the
   * positive weekly deltas, or the first week missing from `merged`.
   */
  method TotalDelta(merged: map<Week, seq<real>>, ghost ps: seq<Player>, k: nat, stats: seq<WeekStats>)
    returns (r: Result<real, Week>)
    requires Describes(merged, ps)
    ensures r == BenchGain(ps, k, stats)
  {
    var totalDelta := 0.0;
    for i := 0 to |stats|
      invariant BenchGain(ps, k, stats[..i]) == Ok(totalDelta)
    {
      var week := stats[i].week;
      assert DescribesAt(merged, ps, week);
      if week !in merged {
        TotalDeltaMiss(ps, k, stats, i);
        return Err(week);
      }
      var delta := WeeklyDelta(merged[week], k, Score(stats[i].line));
      TotalDeltaStep(ps, k, stats, i, totalDelta, Max0(delta));
      if delta > 0.0 {
        totalDelta := totalDelta + delta;
      }
    }
    assert stats[..|stats|] == stats;
    return Ok(totalDelta);
  }

  /** A candidate week with merged scores adds its `WeekGain` to the total so far. */
  lemma TotalDeltaStep(ps: seq<Player>, k: nat, stats: seq<WeekStats>, i: nat, total: real, gain: real)
    requires i < |stats| && BenchGain(ps, k, stats[..i]) == Ok(total)
    requires WeekScores(ps, stats[i].week) != []
    requires gain == WeekGain(WeekScores(ps, stats[i].week), k, Score(stats[i].line))
    ensures BenchGain(ps, k, stats[..i + 1]) == Ok(total + gain)
  {
    var pre := stats[..i + 1];
    assert pre[..i] == stats[..i] && pre[i] == stats[i];
    BenchGainLastWeek(ps, k, pre);
  }

  /**
   * One week of the `total_delta` loop: the delta of the top `k` sums when
   * the candidate's score joins the week's merged scores; its positive part is
   * the week's `WeekGain`.
   */
  method WeeklyDelta(scores: seq<real>, k: nat, weeklyScore: real) returns (delta: real)
    ensures Max0(delta) == WeekGain(scores, k, weeklyScore)
  {
    var weeklyMaxes := Top(scores, k);
    var weeklyMax := Sum(weeklyMaxes);
    var withWeekly := Sum(Top(weeklyMaxes + [weeklyScore], k));
    delta := withWeekly - weeklyMax;
    DeltaIsWeekGain(scores, k, weeklyScore, delta);
  }

  /** A candidate week without merged scores ends the whole calculation with that week. */
  lemma TotalDeltaMiss(ps: seq<Player>, k: nat, stats: seq<WeekStats>, i: nat)
    requires i < |stats| && BenchGain(ps, k, stats[..i]).Ok? && WeekScores(ps, stats[i].week) == []
    ensures BenchGain(ps, k, stats) == Err(stats[i].week)
  {
    var pre := stats[..i + 1];
    assert pre[..i] == stats[..i] && pre[i] == stats[i];
    BenchGainLastWeek(ps, k, pre);
    BenchGainPrefixErr(ps, k, stats, i + 1);
  }

  /** A player with its sort key `(net_additional_score, overall_score)`. */
  datatype Ranked = Ranked(player: Player, net: real, overall: real)

  /** Strictly greater sort key: compare net scores, then overall scores. */
  predicate Above(a: Ranked, b: Ranked)
  {
    a.net > b.net || (a.net == b.net && a.overall > b.overall)
  }

  /** Non-increasing by sort key. */
  predicate RankSorted(es: seq<Ranked>)
  {
    forall i, j :: 0 <= i < j < |es| ==> !Above(es[j], es[i])
  }

  /** Places `e` after every entry whose key is at least `e`'s, so equal keys keep their order. */
  function InsertRanked(t: seq<Ranked>, e: Ranked): seq<Ranked>
  {
    if t == [] then [e]
    else if Above(e, t[0]) then [e] + t
    else [t[0]] + InsertRanked(t[1..], e)
  }

  /** `sorted(..., key=..., reverse=True)` on keyed entries. */
  function SortRanked(es: seq<Ranked>): seq<Ranked>
  {
    if es == [] then [] else InsertRanked(SortRanked(es[..|es| - 1]), es[|es| - 1])
  }

  function Players(es: seq<Ranked>): seq<Player>
  {
    seq(|es|, i requires 0 <= i < |es| => es[i].player)
  }

  lemma {:induction false} InsertRankedPermutation(t: seq<Ranked>, e: Ranked)
    ensures multiset(InsertRanked(t, e)) == multiset(t) + multiset{e}
    decreases |t|
  {
    if t != [] && !Above(e, t[0]) {
      InsertRankedPermutation(t[1..], e);
      assert t == [t[0]] + t[1..];
    }
  }

  lemma PlayersCons(e: Ranked, t: seq<Ranked>)
    ensures Players([e] + t) == [e.player] + Players(t)
  {
  }

  lemma {:induction false} InsertRankedPlayers(t: seq<Ranked>, e: Ranked)
    ensures multiset(Players(InsertRanked(t, e))) == multiset(Players(t)) + multiset{e.player}
    decreases |t|
  {
    if t == [] {
      assert Players([e]) == [e.player];
    } else if Above(e, t[0]) {
      PlayersCons(e, t);
    } else {
      InsertRankedPlayers(t[1..], e);
      PlayersCons(t[0], InsertRanked(t[1..], e));
      PlayersCons(t[0], t[1..]);
      assert t == [t[0]] + t[1..];
    }
  }

  lemma {:induction false} InsertRankedSorted(t: seq<Ranked>, e: Ranked)
    requires RankSorted(t)
    ensures RankSorted(InsertRanked(t, e))
    decreases |t|
  {
    if t != [] && !Above(e, t[0]) {
      InsertRankedSorted(t[1..], e);
      InsertRankedPermutation(t[1..], e);
      var r := InsertRanked(t[1..], e);
      forall j | 0 <= j < |r| ensures !Above(r[j], t[0]) {
        assert r[j] in multiset(t[1..]) + multiset{e};
      }
    }
  }

  /** The ranking sort returns a non-increasing rearrangement of its entries. */
  lemma {:induction false} SortRankedIsSortedPermutation(es: seq<Ranked>)
    ensures RankSorted(SortRanked(es))
    ensures multiset(SortRanked(es)) == multiset(es)
    decreases |es|
  {
    if es != [] {
      var es' := es[..|es| - 1];
      var e := es[|es| - 1];
      SortRankedIsSortedPermutation(es');
      InsertRankedSorted(SortRanked(es'), e);
      InsertRankedPermutation(SortRanked(es'), e);
      assert es == es' + [e];
    }
  }

  /** The sorted players are the entries' players, rearranged. */
  lemma {:induction false} SortRankedPlayers(es: seq<Ranked>)
    ensures multiset(Players(SortRanked(es))) == multiset(Players(es))
    decreases |es|
  {
    if es != [] {
      var es' := es[..|es| - 1];
      var e := es[|es| - 1];
      SortRankedPlayers(es');
      InsertRankedPlayers(SortRanked(es'), e);
      assert Players(es) == Players(es') + [e.player];
    }
  }

  /** The entries whose sort key is `(net, overall)`, in their order in `es`. */
  function Tied(es: seq<Ranked>, net: real, overall: real): seq<Ranked>
  {
    if es == [] then []
    else (if es[0].net == net && es[0].overall == overall then [es[0]] else []) + Tied(es[1..], net, overall)
  }

  lemma {:induction false} TiedAppend(a: seq<Ranked>, b: seq<Ranked>, net: real, overall: real)
    ensures Tied(a + b, net, overall) == Tied(a, net, overall) + Tied(b, net, overall)
    decreases |a|
  {
    if a == [] {
      assert a + b == b;
    } else {
      var ab := a + b;
      assert ab[0] == a[0] && ab[1..] == a[1..] + b;
      TiedAppend(a[1..], b, net, overall);
      var head := if a[0].net == net && a[0].overall == overall then [a[0]] else [];
      assert Tied(ab, net, overall) == head + Tied(ab[1..], net, overall);
      assert Tied(a, net, overall) == head + Tied(a[1..], net, overall);
      var x, y := Tied(a[1..], net, overall), Tied(b, net, overall);
      assert head + (x + y) == (head + x) + y;
    }
  }

  lemma {:induction false} TiedNone(t: seq<Ranked>, net: real, overall: real)
    requires forall j :: 0 <= j < |t| ==> !(t[j].net == net && t[j].overall == overall)
    ensures Tied(t, net, overall) == []
    decreases |t|
  {
    if t != [] {
      TiedNone(t[1..], net, overall);
    }
  }

  /** Inserting keeps the entries of each key in the order of `t + [e]`. */
  lemma {:induction false} InsertRankedStable(t: seq<Ranked>, e: Ranked, net: real, overall: real)
    requires RankSorted(t)
    ensures Tied(InsertRanked(t, e), net, overall) == Tied(t + [e], net, overall)
    decreases |t|
  {
    TiedAppend(t, [e], net, overall);
    if t == [] {
      assert t + [e] == [e];
    } else if Above(e, t[0]) {
      if e.net == net && e.overall == overall {
        forall j | 0 <= j < |t| ensures !(t[j].net == net && t[j].overall == overall) {
          if j > 0 { assert !Above(t[j], t[0]); }
        }
        TiedNone(t, net, overall);
      }
    } else {
      InsertRankedStable(t[1..], e, net, overall);
      TiedAppend(t[1..], [e], net, overall);
    }
  }

  /**
   * The ranking sort is stable: for every key, the entries with that key
   * come out in the order they went in.
   */
  lemma {:induction false} SortRankedStable(es: seq<Ranked>, net: real, overall: real)
    ensures Tied(SortRanked(es), net, overall) == Tied(es, net, overall)
    decreases |es|
  {
    if es != [] {
      var es' := es[..|es| - 1];
      var e := es[|es| - 1];
      SortRankedStable(es', net, overall);
      SortRankedIsSortedPermutation(es');
      InsertRankedStable(SortRanked(es'), e, net, overall);
      TiedAppend(SortRanked(es'), [e], net, overall);
      TiedAppend(es', [e], net, overall);
      assert es == es' + [e];
    }
  }

  /** The value used as the first sort key; a failing computation has no key (see `Keyed`). */
  function NetValue(l: Lineup, p: Player): real
  {
    match Net(l, p)
    case Ok(v) => v
    case Err(_) => 0.0
  }

  function Entry(l: Lineup, p: Player): Ranked
  {
    Ranked(p, NetValue(l, p), OverallScore(p))
  }

  /**
   * Computing every sort key in list order; the first player whose net
   * score raises stops the sort with that error.
   */
  function Keyed(l: Lineup, ps: seq<Player>): Result<seq<Ranked>, Week>
  {
    if ps == [] then Ok([])
    else
      match Keyed(l, ps[..|ps| - 1])
      case Err(w) => Err(w)
      case Ok(es) =>
        match Net(l, ps[|ps| - 1])
        case Err(w) => Err(w)
        case Ok(_) => Ok(es + [Entry(l, ps[|ps| - 1])])
  }

  /** The available list re-sorted for a roster holding `l`. */
  function RankFor(l: Lineup, ps: seq<Player>): Result<seq<Player>, Week>
  {
    match Keyed(l, ps)
    case Err(w) => Err(w)
    case Ok(es) => Ok(Players(SortRanked(es)))
  }

  /** `ps` is non-increasing by `(net_additional_score, overall_score)` for a roster holding `l`. */
  ghost predicate RankedBy(l: Lineup, ps: seq<Player>)
  {
    && (forall i :: 0 <= i < |ps| ==> Net(l, ps[i]).Ok?)
    && (forall i, j :: 0 <= i < j < |ps| ==> !Above(Entry(l, ps[j]), Entry(l, ps[i])))
  }

  lemma {:induction false} KeyedEntries(l: Lineup, ps: seq<Player>)
    ensures Keyed(l, ps).Ok? <==> forall i :: 0 <= i < |ps| ==> Net(l, ps[i]).Ok?
    ensures Keyed(l, ps).Ok? ==> Keyed(l, ps).value == seq(|ps|, i requires 0 <= i < |ps| => Entry(l, ps[i]))
    ensures Keyed(l, ps).Err? ==> exists i :: 0 <= i < |ps| && Net(l, ps[i]) == Err(Keyed(l, ps).error)
    decreases |ps|
  {
    if ps != [] {
      var ps' := ps[..|ps| - 1];
      var x := ps[|ps| - 1];
      KeyedEntries(l, ps');
      assert forall i :: 0 <= i < |ps'| ==> ps'[i] == ps[i];
      match Keyed(l, ps')
      case Err(w) =>
        var i :| 0 <= i < |ps'| && Net(l, ps'[i]) == Err(w);
        assert Net(l, ps[i]) == Err(w);
      case Ok(es) =>
        if Net(l, x).Ok? {
          var want := seq(|ps|, i requires 0 <= i < |ps| => Entry(l, ps[i]));
          assert Keyed(l, ps).value == es + [Entry(l, x)];
          assert es + [Entry(l, x)] == want by {
            forall i | 0 <= i < |ps| ensures (es + [Entry(l, x)])[i] == want[i] {
              if i < |ps'| { assert es[i] == Entry(l, ps'[i]); }
            }
          }
        } else {
          assert Keyed(l, ps).error == Net(l, x).error;
        }
    }
  }

  /**
   * The re-sorted list is a rearrangement of its input that is non-increasing
   * by `(net_additional_score, overall_score)`; the sort fails exactly when
   * some player's net score raises, and with that player's error.
   */
  lemma RankForSpec(l: Lineup, ps: seq<Player>)
    ensures RankFor(l, ps).Ok? <==> forall i :: 0 <= i < |ps| ==> Net(l, ps[i]).Ok?
    ensures RankFor(l, ps).Ok? ==> multiset(RankFor(l, ps).value) == multiset(ps)
    ensures RankFor(l, ps).Ok? ==> RankedBy(l, RankFor(l, ps).value)
    ensures RankFor(l, ps).Err? ==> exists i :: 0 <= i < |ps| && Net(l, ps[i]) == Err(RankFor(l, ps).error)
  {
    KeyedEntries(l, ps);
    if Keyed(l, ps).Ok? {
      var es := Keyed(l, ps).value;
      assert Players(es) == ps;
      SortedEntriesRanked(l, es);
    }
  }

  /** Sorting the keyed entries of players that all have a net score ranks those players. */
  lemma SortedEntriesRanked(l: Lineup, es: seq<Ranked>)
    requires forall i :: 0 <= i < |es| ==> es[i] == Entry(l, es[i].player) && Net(l, es[i].player).Ok?
    ensures multiset(Players(SortRanked(es))) == multiset(Players(es))
    ensures RankedBy(l, Players(SortRanked(es)))
  {
    SortRankedIsSortedPermutation(es);
    SortRankedPlayers(es);
    var out := SortRanked(es);
    forall i | 0 <= i < |out| ensures out[i] == Entry(l, out[i].player) && Net(l, out[i].player).Ok? {
      assert out[i] in multiset(es);
      var j :| 0 <= j < |es| && es[j] == out[i];
    }
    assert RankedBy(l, Players(out));
  }

  /** The players of `ps` whose sort key for a roster holding `l` is `(net, overall)`, in order. */
  function TiedPlayers(l: Lineup, ps: seq<Player>, net: real, overall: real): seq<Player>
  {
    if ps == [] then []
    else (if NetValue(l, ps[0]) == net && OverallScore(ps[0]) == overall then [ps[0]] else [])
         + TiedPlayers(l, ps[1..], net, overall)
  }

  lemma {:induction false} TiedPlayersOfEntries(l: Lineup, es: seq<Ranked>, net: real, overall: real)
    requires forall i :: 0 <= i < |es| ==> es[i] == Entry(l, es[i].player)
    ensures Players(Tied(es, net, overall)) == TiedPlayers(l, Players(es), net, overall)
    decreases |es|
  {
    if es != [] {
      var rest := es[1..];
      assert forall i :: 0 <= i < |rest| ==> rest[i] == es[i + 1];
      TiedPlayersOfEntries(l, rest, net, overall);
      var ps := Players(es);
      assert ps[0] == es[0].player && ps[1..] == Players(rest);
      if es[0].net == net && es[0].overall == overall {
        PlayersCons(es[0], Tied(rest, net, overall));
      } else {
        assert Tied(es, net, overall) == Tied(rest, net, overall);
      }
    }
  }

  /**
   * The re-sort is stable, as Python's `sorted` is: for every sort key, the
   * players with that key come out in the order they had in the input.
   */
  lemma RankForStable(l: Lineup, ps: seq<Player>)
    ensures RankFor(l, ps).Ok? ==>
      forall net, overall :: TiedPlayers(l, RankFor(l, ps).value, net, overall) == TiedPlayers(l, ps, net, overall)
  {
    KeyedEntries(l, ps);
    if Keyed(l, ps).Ok? {
      var es := Keyed(l, ps).value;
      assert Players(es) == ps;
      var out := SortRanked(es);
      SortRankedIsSortedPermutation(es);
      forall i | 0 <= i < |out| ensures out[i] == Entry(l, out[i].player) {
        assert out[i] in multiset(es);
        var j :| 0 <= j < |es| && es[j] == out[i];
      }
      forall net, overall ensures TiedPlayers(l, Players(out), net, overall) == TiedPlayers(l, ps, net, overall) {
        TiedPlayersOfEntries(l, out, net, overall);
        SortRankedStable(es, net, overall);
        TiedPlayersOfEntries(l, es, net, overall);
      }
    }
  }

  /** `[p for p in players if p.name != name]`. */
  function Without(players: seq<Player>, name: string): seq<Player>
  {
    if players == [] then []
    else if players[0].name != name then [players[0]] + Without(players[1..], name)
    else Without(players[1..], name)
  }

  /** No entry named `name` remains; every other entry keeps its multiplicity. */
  lemma {:induction false} WithoutSpec(players: seq<Player>, name: string)
    ensures forall p :: p in Without(players, name) ==> p.name != name
    ensures forall p: Player :: p.name != name ==> multiset(Without(players, name))[p] == multiset(players)[p]
    decreases |players|
  {
    if players != [] {
      WithoutSpec(players[1..], name);
      assert players == [players[0]] + players[1..];
    }
  }

  /** The last entry of `players` named `name`, as `Draft.find` returns it. */
  function LastNamed(players: seq<Player>, name: string): Option<Player>
  {
    if players == [] then None
    else if players[|players| - 1].name == name then Some(players[|players| - 1])
    else LastNamed(players[..|players| - 1], name)
  }

  /** `LastNamed` is absent exactly when no entry has the name, and otherwise the last entry that has it. */
  lemma {:induction false} LastNamedSpec(players: seq<Player>, name: string)
    ensures LastNamed(players, name).None? <==> forall i :: 0 <= i < |players| ==> players[i].name != name
    ensures LastNamed(players, name).Some? ==>
      exists i :: 0 <= i < |players| && players[i] == LastNamed(players, name).value && players[i].name == name
                  && forall j :: i < j < |players| ==> players[j].name != name
    decreases |players|
  {
    if players != [] && players[|players| - 1].name != name {
      var ps' := players[..|players| - 1];
      LastNamedSpec(ps', name);
      if LastNamed(ps', name).Some? {
        var i :| 0 <= i < |ps'| && ps'[i] == LastNamed(ps', name).value && ps'[i].name == name
                 && forall j :: i < j < |ps'| ==> ps'[j].name != name;
        assert players[i] == ps'[i];
      } else {
        assert forall i :: 0 <= i < |ps'| ==> players[i] == ps'[i];
      }
    }
  }

  /** What a draft action reports: done, no such player, or the `KeyError` week from re-sorting. */
  datatype Status = Done | NotFound | MissingWeek(week: Week)

  /**
   * The available list after removing `name` and re-sorting for a roster
   * holding `l`: on success the sorted list, on a failed sort the list as
   * it was before.
   */
  ghost predicate Reranked(before: seq<Player>, name: string, l: Lineup, status: Status, after: seq<Player>)
  {
    match RankFor(l, Without(before, name))
    case Ok(r) => status == Done && after == r
    case Err(w) => status == MissingWeek(w) && after == before
  }

  /**
   * After a successful re-sort of the list without `name`: no entry with
   * that name remains, every other entry keeps its multiplicity, the list
   * is non-increasing by `(net_additional_score, overall_score)`, and
   * players with equal keys keep their order.
   */
  lemma RerankedSpec(before: seq<Player>, name: string, l: Lineup, after: seq<Player>)
    requires RankFor(l, Without(before, name)) == Ok(after)
    ensures forall p :: p in after ==> p.name != name
    ensures forall p: Player :: p.name != name ==> multiset(after)[p] == multiset(before)[p]
    ensures RankedBy(l, after)
    ensures forall net, overall ::
      TiedPlayers(l, after, net, overall) == TiedPlayers(l, Without(before, name), net, overall)
  {
    var kept := Without(before, name);
    WithoutSpec(before, name);
    RankForSpec(l, kept);
    RankForStable(l, kept);
    assert multiset(after) == multiset(kept);
    forall p | p in after ensures p.name != name {
      assert p in multiset(after);
      assert p in kept;
    }
  }

  /** `Draft` of `src/models.py`: one roster and the available players, best first. */
  class Draft {
    const roster: Roster
    var availablePlayers: seq<Player>

    ghost predicate Valid()
    {
      roster.Valid()
    }

    /**
     * A draft over the given players with an empty roster; on an empty
     * roster every net score is the overall score, so the list is sorted by
     * overall score, with players of equal key in their given order.
     */
    constructor (players: seq<Player>)
      ensures Valid() && fresh(roster.Repr)
      ensures roster.View() == EmptyLineup && roster.allPlayers == []
      ensures RankFor(EmptyLineup, players) == Ok(availablePlayers)
      ensures multiset(availablePlayers) == multiset(players)
      ensures forall i, j :: 0 <= i < j < |availablePlayers| ==>
        OverallScore(availablePlayers[i]) >= OverallScore(availablePlayers[j])
      ensures forall net, overall ::
        TiedPlayers(EmptyLineup, availablePlayers, net, overall) == TiedPlayers(EmptyLineup, players, net, overall)
    {
      var r := new Roster();
      forall p | p in players ensures Net(EmptyLineup, p) == Ok(OverallScore(p)) {
        EmptyLineupNet(p);
      }
      RankForSpec(EmptyLineup, players);
      RankForStable(EmptyLineup, players);
      var ranked := RankFor(r.View(), players);
      var av := ranked.value;
      forall i, j | 0 <= i < j < |av| ensures OverallScore(av[i]) >= OverallScore(av[j]) {
        assert av[i] in multiset(players) && av[j] in multiset(players);
        EmptyLineupNet(av[i]);
        EmptyLineupNet(av[j]);
      }
      roster := r;
      availablePlayers := av;
    }

    /** `find`: the last available player with that name, or `None`. */
    method Find(name: string) returns (found: Option<Player>)
      ensures found == LastNamed(availablePlayers, name)
      ensures found.None? <==> forall i :: 0 <= i < |availablePlayers| ==> availablePlayers[i].name != name
      ensures found.Some? ==>
        exists i :: 0 <= i < |availablePlayers| && availablePlayers[i] == found.value
                    && found.value.name == name
                    && forall j :: i < j < |availablePlayers| ==> availablePlayers[j].name != name
    {
      found := None;
      for i := 0 to |availablePlayers|
        invariant found == LastNamed(availablePlayers[..i], name)
      {
        assert availablePlayers[..i + 1][..i] == availablePlayers[..i];
        if name == availablePlayers[i].name {
          found := Some(availablePlayers[i]);
        }
      }
      assert availablePlayers[..|availablePlayers|] == availablePlayers;
      LastNamedSpec(availablePlayers, name);
    }

    /**
     * `remove_player_from_available_list`: drops every entry with the
     * player's name and re-sorts the rest for the current roster; if the sort
     * raises, the list stays as it was.
     */
    method RemovePlayerFromAvailableList(player: Player) returns (status: Status)
      requires Valid()
      modifies this
      ensures Valid()
      ensures Reranked(old(availablePlayers), player.name, roster.View(), status, availablePlayers)
      ensures status == Done ==>
        && (forall p :: p in availablePlayers ==> p.name != player.name)
        && (forall p: Player :: p.name != player.name ==>
              multiset(availablePlayers)[p] == multiset(old(availablePlayers))[p])
        && RankedBy(roster.View(), availablePlayers)
        && (forall net, overall :: TiedPlayers(roster.View(), availablePlayers, net, overall) ==
              TiedPlayers(roster.View(), Without(old(availablePlayers), player.name), net, overall))
      ensures status != NotFound
    {
      var withoutPlayer := Without(availablePlayers, player.name);
      var ranked := RankFor(roster.View(), withoutPlayer);
      match ranked
      case Ok(r) =>
        RerankedSpec(availablePlayers, player.name, roster.View(), r);
        availablePlayers := r;
        status := Done;
      case Err(w) =>
        status := MissingWeek(w);
    }

    /**
     * `select`: on a miss nothing changes; on a hit the last player with
     * that name joins the roster and the list is re-sorted for the new
     * roster without that name.
     */
    method Select(name: string) returns (status: Status)
      requires Valid()
      modifies this, roster.Repr
      ensures Valid()
      ensures LastNamed(old(availablePlayers), name).None? ==>
        && status == NotFound
        && availablePlayers == old(availablePlayers)
        && roster.View() == old(roster.View()) && roster.allPlayers == old(roster.allPlayers)
      ensures LastNamed(old(availablePlayers), name).Some? ==>
        var p := LastNamed(old(availablePlayers), name).value;
        && roster.View() == Added(old(roster.View()), p)
        && roster.allPlayers == old(roster.allPlayers) + [p]
        && Reranked(old(availablePlayers), name, roster.View(), status, availablePlayers)
    {
      var playerToAdd := Find(name);
      if playerToAdd.None? {
        return NotFound;
      }
      roster.Add(playerToAdd.value);
      status := RemovePlayerFromAvailableList(playerToAdd.value);
    }

    /**
     * `lose`: on a miss nothing changes; on a hit the list is re-sorted
     * without that name, and the roster is never touched.
     */
    method Lose(name: string) returns (status: Status)
      requires Valid()
      modifies this
      ensures Valid()
      ensures LastNamed(old(availablePlayers), name).None? ==>
        status == NotFound && availablePlayers == old(availablePlayers)
      ensures LastNamed(old(availablePlayers), name).Some? ==>
        Reranked(old(availablePlayers), name, roster.View(), status, availablePlayers)
    {
      var playerLost := Find(name);
      if playerLost.None? {
        return NotFound;
      }
      status := RemovePlayerFromAvailableList(playerLost.value);
    }
  }
}
