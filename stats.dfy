/**
 * Per-week scoring of one player (`PlayerStats`) and a player's season total
 * (`Player.overall_score`).  `PlayerStats` and `overall_score` are the same
 * text in `src/models.py` and `src/models/models.py` and are modelled once,
 * here; the rest of each file's `Player` is modelled with that file.
 */
module Stats {

  /** The four position groups a player can be drafted into. */
  datatype Pos = QB | RB | WR | TE

  /**
   * One raw stat field as ingested: text that Python's `float()` either
   * converts to a number (`Numeric`) or rejects with a `ValueError`
   * (`Unparseable`).
   */
  datatype RawField = Numeric(value: real) | Unparseable(text: string)

  /** Tolerant conversion: a rejected field counts as zero and never raises. */
  function Parse(raw: RawField): (r: real)
    ensures raw.Numeric? ==> r == raw.value
    ensures raw.Unparseable? ==> r == 0.0
  {
    match raw
    case Numeric(v) => v
    case Unparseable(_) => 0.0
  }

  /** The statistics of one player in one week, every field already parsed. */
  datatype PlayerStats = PlayerStats(
    passingYards: real, passingTd: real, interceptions: real,
    rushingYards: real, rushingTd: real,
    receivingYards: real, receivingTd: real,
    fumbles: real)

  /**
   * The `PlayerStats` constructor: its parameters come in the source's order
   * (fumbles before the receiving fields), and each field is the parsed
   * raw value of the parameter with the same name.
   */
  function MakeStats(passingYards: RawField, passingTd: RawField, interceptions: RawField,
                     rushingYards: RawField, rushingTd: RawField, fumbles: RawField,
                     receivingYards: RawField, receivingTd: RawField): (s: PlayerStats)
    ensures s.passingYards == Parse(passingYards) && s.passingTd == Parse(passingTd)
    ensures s.interceptions == Parse(interceptions)
    ensures s.rushingYards == Parse(rushingYards) && s.rushingTd == Parse(rushingTd)
    ensures s.receivingYards == Parse(receivingYards) && s.receivingTd == Parse(receivingTd)
    ensures s.fumbles == Parse(fumbles)
  {
    PlayerStats(Parse(passingYards), Parse(passingTd), Parse(interceptions),
                Parse(rushingYards), Parse(rushingTd),
                Parse(receivingYards), Parse(receivingTd),
                Parse(fumbles))
  }

  /** The fixed fantasy-points formula for one week. */
  function Score(s: PlayerStats): real
  {
    s.passingTd * 3.0 + s.passingYards / 50.0 - s.interceptions
    + s.rushingTd * 3.0 + s.rushingYards / 30.0 - s.fumbles
    + s.receivingTd * 3.0 + s.receivingYards / 30.0
  }

  /** The eight fields in a fixed order, and the weight each carries in `Score`. */
  function Fields(s: PlayerStats): seq<real>
  {
    [s.passingYards, s.passingTd, s.interceptions, s.rushingYards,
     s.rushingTd, s.receivingYards, s.receivingTd, s.fumbles]
  }

  function Weights(): seq<real>
  {
    [1.0 / 50.0, 3.0, -1.0, 1.0 / 30.0, 3.0, 1.0 / 30.0, 3.0, -1.0]
  }

  /** The sum of `a[j] * b[j]` for `j` from `i` on. */
  function DotFrom(a: seq<real>, b: seq<real>, i: nat): real
    requires |a| == |b| && i <= |a|
    decreases |a| - i
  {
    if i == |a| then 0.0 else a[i] * b[i] + DotFrom(a, b, i + 1)
  }

  /** `Score` is the weighted sum of the fields with the fixed league weights. */
  lemma {:induction false} ScoreIsWeightedSum(s: PlayerStats)
    ensures Score(s) == DotFrom(Weights(), Fields(s), 0)
  {
    var w, f := Weights(), Fields(s);
    assert DotFrom(w, f, 6) == w[6] * f[6] + w[7] * f[7] + DotFrom(w, f, 8);
    assert DotFrom(w, f, 3) == w[3] * f[3] + w[4] * f[4] + w[5] * f[5] + DotFrom(w, f, 6);
    assert DotFrom(w, f, 0) == w[0] * f[0] + w[1] * f[1] + w[2] * f[2] + DotFrom(w, f, 3);
  }

  /** 300 passing yards, 2 passing touchdowns and 1 interception score 11 points. */
  lemma ScoreExample()
    ensures Score(MakeStats(Numeric(300.0), Numeric(2.0), Numeric(1.0), Numeric(0.0),
                            Numeric(0.0), Numeric(0.0), Numeric(0.0), Numeric(0.0))) == 11.0
  {
  }

  /** A field `float()` rejects, replaced by the number zero. */
  function AsZero(raw: RawField): RawField
  {
    if raw.Unparseable? then Numeric(0.0) else raw
  }

  /**
   * A rejected field is indistinguishable from a field holding `0`: replacing
   * every rejected field by zero gives the same statistics, hence the same score.
   */
  lemma RejectedFieldsCountAsZero(passingYards: RawField, passingTd: RawField, interceptions: RawField,
                                  rushingYards: RawField, rushingTd: RawField, fumbles: RawField,
                                  receivingYards: RawField, receivingTd: RawField)
    ensures MakeStats(passingYards, passingTd, interceptions, rushingYards, rushingTd, fumbles,
                      receivingYards, receivingTd)
         == MakeStats(AsZero(passingYards), AsZero(passingTd), AsZero(interceptions), AsZero(rushingYards),
                      AsZero(rushingTd), AsZero(fumbles), AsZero(receivingYards), AsZero(receivingTd))
    ensures Score(MakeStats(passingYards, passingTd, interceptions, rushingYards, rushingTd, fumbles,
                            receivingYards, receivingTd))
         == Score(MakeStats(AsZero(passingYards), AsZero(passingTd), AsZero(interceptions), AsZero(rushingYards),
                            AsZero(rushingTd), AsZero(fumbles), AsZero(receivingYards), AsZero(receivingTd)))
  {
  }

  /** A week whose every field failed to parse, whatever the texts, contributes nothing. */
  lemma UnparseableWeekScoresZero(t1: string, t2: string, t3: string, t4: string,
                                  t5: string, t6: string, t7: string, t8: string)
    ensures Score(MakeStats(Unparseable(t1), Unparseable(t2), Unparseable(t3), Unparseable(t4),
                            Unparseable(t5), Unparseable(t6), Unparseable(t7), Unparseable(t8))) == 0.0
  {
  }

  /** More yards or touchdowns never lower the score; more turnovers never raise it. */
  lemma ScoreMonotone(a: PlayerStats, b: PlayerStats)
    requires a.passingYards <= b.passingYards && a.passingTd <= b.passingTd
    requires a.rushingYards <= b.rushingYards && a.rushingTd <= b.rushingTd
    requires a.receivingYards <= b.receivingYards && a.receivingTd <= b.receivingTd
    requires a.interceptions >= b.interceptions && a.fumbles >= b.fumbles
    ensures Score(a) <= Score(b)
  {
  }

  /** A player's statistics for one week (one entry of the `stats` dict). */
  type Week = string
  datatype WeekStats = WeekStats(week: Week, line: PlayerStats)

  /**
   * A player: `stats` lists the entries of the week-to-statistics dict in
   * insertion order.
   */
  datatype Player = Player(stats: seq<WeekStats>, name: string, position: Pos)

  /** True when no week occurs twice, as for the keys of a dict. */
  predicate DistinctWeeks(stats: seq<WeekStats>)
  {
    forall i, j :: 0 <= i < j < |stats| ==> stats[i].week != stats[j].week
  }

  /** Sum of the weekly scores. */
  function TotalScore(stats: seq<WeekStats>): real
  {
    if stats == [] then 0.0
    else TotalScore(stats[..|stats| - 1]) + Score(stats[|stats| - 1].line)
  }

  /** `Player.overall_score`. */
  function OverallScore(p: Player): real
  {
    TotalScore(p.stats)
  }

  /** A player with no weeks scores zero. */
  lemma OverallScoreNoWeeks(name: string, position: Pos)
    ensures OverallScore(Player([], name, position)) == 0.0
  {
  }

  /** The total over two runs of weeks is the sum of the two totals. */
  lemma {:induction false} TotalScoreAppend(a: seq<WeekStats>, b: seq<WeekStats>)
    ensures TotalScore(a + b) == TotalScore(a) + TotalScore(b)
    decreases |b|
  {
    if b == [] {
      assert a + b == a;
    } else {
      var b' := b[..|b| - 1];
      assert (a + b)[..|a + b| - 1] == a + b';
      TotalScoreAppend(a, b');
    }
  }

  /** Taking week `i` out of a run of weeks lowers the total by that week's score. */
  lemma TotalScoreRemove(b: seq<WeekStats>, i: nat)
    requires i < |b|
    ensures TotalScore(b) == TotalScore(b[..i] + b[i + 1..]) + Score(b[i].line)
  {
    var pre, x, post := b[..i], b[i], b[i + 1..];
    assert b == (pre + [x]) + post;
    TotalScoreAppend(pre + [x], post);
    assert (pre + [x])[..|pre|] == pre;
    TotalScoreAppend(pre, post);
  }

  lemma MultisetRemove<T>(b: seq<T>, i: nat)
    requires i < |b|
    ensures multiset(b[..i] + b[i + 1..]) == multiset(b) - multiset{b[i]}
  {
    assert b == b[..i] + [b[i]] + b[i + 1..];
    assert multiset(b) == multiset(b[..i]) + multiset{b[i]} + multiset(b[i + 1..]);
  }

  /** The total does not depend on the order in which the weeks were inserted. */
  lemma {:induction false} TotalScorePermutation(a: seq<WeekStats>, b: seq<WeekStats>)
    requires multiset(a) == multiset(b)
    ensures TotalScore(a) == TotalScore(b)
    decreases |a|
  {
    if a != [] {
      var x := a[|a| - 1];
      var a' := a[..|a| - 1];
      assert a == a' + [x];
      assert multiset(a') == multiset(a) - multiset{x};
      assert x in multiset(b);
      var i :| 0 <= i < |b| && b[i] == x;
      MultisetRemove(b, i);
      TotalScorePermutation(a', b[..i] + b[i + 1..]);
      TotalScoreRemove(b, i);
    }
  }
}
