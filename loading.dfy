/**
 * `Player.load` of `src/models.py`: grouping the per-week projection records
 * of the already-decoded JSON file into one `Player` per player name.
 */
module Loading {
  import opened Stats

  /** One record of a week's list: the player's name, position and the eight raw stat fields. */
  datatype StatRecord = StatRecord(
    name: string, position: Pos,
    passingYards: RawField, passingTds: RawField, interceptions: RawField,
    rushingYards: RawField, rushingTds: RawField,
    receivingYards: RawField, receivingTds: RawField, fumbles: RawField)

  /** One week of the file, in the file's key order. */
  datatype WeekRecords = WeekRecords(week: Week, records: seq<StatRecord>)

  /** A record together with the week it was listed under. */
  datatype Entry = Entry(week: Week, rec: StatRecord)

  /** The stat line built from a record, keyword by keyword. */
  function LineOf(r: StatRecord): (s: PlayerStats)
    ensures s.passingTd == Parse(r.passingTds) && s.rushingTd == Parse(r.rushingTds)
    ensures s.receivingTd == Parse(r.receivingTds) && s.fumbles == Parse(r.fumbles)
    ensures s.passingYards == Parse(r.passingYards) && s.interceptions == Parse(r.interceptions)
    ensures s.rushingYards == Parse(r.rushingYards) && s.receivingYards == Parse(r.receivingYards)
  {
    MakeStats(r.passingYards, r.passingTds, r.interceptions, r.rushingYards, r.rushingTds,
              r.fumbles, r.receivingYards, r.receivingTds)
  }

  /** The week-to-line dictionary a stats sequence stands for. */
  function AsMap(stats: seq<WeekStats>): map<Week, PlayerStats>
  {
    if |stats| == 0 then map[] else AsMap(stats[1..])[stats[0].week := stats[0].line]
  }

  /**
   * Assigning `stats[week] = line` on an insertion-ordered dictionary:
   * an existing week keeps its place and gets the new line, a new week goes last.
   */
  function SetWeek(stats: seq<WeekStats>, w: Week, line: PlayerStats): seq<WeekStats>
  {
    if |stats| == 0 then [WeekStats(w, line)]
    else if stats[0].week == w then [WeekStats(w, line)] + stats[1..]
    else [stats[0]] + SetWeek(stats[1..], w, line)
  }

  /** `SetWeek` keeps every existing week in its place and appends a week only when it is new. */
  lemma {:induction false} SetWeekShape(stats: seq<WeekStats>, w: Week, line: PlayerStats)
    ensures |SetWeek(stats, w, line)| >= |stats|
    ensures forall i :: 0 <= i < |stats| ==> SetWeek(stats, w, line)[i].week == stats[i].week
    ensures (exists i :: 0 <= i < |stats| && stats[i].week == w) ==> |SetWeek(stats, w, line)| == |stats|
    ensures (forall i :: 0 <= i < |stats| ==> stats[i].week != w) ==>
      SetWeek(stats, w, line) == stats + [WeekStats(w, line)]
  {
    if |stats| > 0 && stats[0].week != w {
      var rest := SetWeek(stats[1..], w, line);
      SetWeekShape(stats[1..], w, line);
      assert SetWeek(stats, w, line) == [stats[0]] + rest;
      assert forall i :: 1 <= i < |stats| ==> ([stats[0]] + rest)[i] == rest[i - 1];
      if exists i :: 0 <= i < |stats| && stats[i].week == w {
        var i :| 0 <= i < |stats| && stats[i].week == w;
        assert stats[1..][i - 1].week == w;
      }
      if forall i :: 0 <= i < |stats| ==> stats[i].week != w {
        assert forall i :: 0 <= i < |stats[1..]| ==> stats[1..][i].week != w by {
          forall i | 0 <= i < |stats[1..]| ensures stats[1..][i].week != w {
            assert stats[1..][i] == stats[i + 1];
          }
        }
        assert [stats[0]] + (stats[1..] + [WeekStats(w, line)]) == stats + [WeekStats(w, line)];
      }
    }
  }

  lemma {:induction false} AsMapKeys(stats: seq<WeekStats>)
    ensures forall w :: w in AsMap(stats) <==> exists i :: 0 <= i < |stats| && stats[i].week == w
  {
    if |stats| > 0 {
      AsMapKeys(stats[1..]);
      forall w | exists i :: 0 <= i < |stats| && stats[i].week == w
        ensures w in AsMap(stats)
      {
        var i :| 0 <= i < |stats| && stats[i].week == w;
        if i > 0 { assert stats[1..][i - 1].week == w; }
      }
      forall w | w in AsMap(stats) && w != stats[0].week
        ensures exists i :: 0 <= i < |stats| && stats[i].week == w
      {
        assert w in AsMap(stats[1..]);
        var i :| 0 <= i < |stats[1..]| && stats[1..][i].week == w;
        assert stats[i + 1].week == w;
      }
    }
  }

  lemma DistinctCons(x: WeekStats, s: seq<WeekStats>)
    requires DistinctWeeks(s)
    requires forall i :: 0 <= i < |s| ==> s[i].week != x.week
    ensures DistinctWeeks([x] + s)
  {
    forall i, j | 0 <= i < j < |[x] + s| ensures ([x] + s)[i].week != ([x] + s)[j].week {
      assert ([x] + s)[j] == s[j - 1];
      if i > 0 { assert ([x] + s)[i] == s[i - 1]; }
    }
  }

  /** `SetWeek` keeps the weeks of a dictionary distinct. */
  lemma {:induction false} SetWeekDistinct(stats: seq<WeekStats>, w: Week, line: PlayerStats)
    requires DistinctWeeks(stats)
    ensures DistinctWeeks(SetWeek(stats, w, line))
  {
    var r := SetWeek(stats, w, line);
    if |stats| > 0 && stats[0].week != w {
      var x := stats[0];
      var tail := stats[1..];
      var rest := SetWeek(tail, w, line);
      assert r == [x] + rest;
      SetWeekShape(tail, w, line);
      SetWeekDistinct(tail, w, line);
      forall i | 0 <= i < |rest| ensures rest[i].week != x.week {
        if i < |tail| {
          assert rest[i].week == tail[i].week == stats[i + 1].week;
        } else {
          assert !(exists k :: 0 <= k < |tail| && tail[k].week == w);
          assert rest == tail + [WeekStats(w, line)];
          assert rest[i].week == w;
        }
      }
      DistinctCons(x, rest);
    }
  }

  /** On a dictionary without repeated weeks, `SetWeek` is map update. */
  lemma {:induction false} SetWeekMap(stats: seq<WeekStats>, w: Week, line: PlayerStats)
    requires DistinctWeeks(stats)
    ensures AsMap(SetWeek(stats, w, line)) == AsMap(stats)[w := line]
  {
    var r := SetWeek(stats, w, line);
    if |stats| == 0 {
    } else if stats[0].week == w {
      assert r[1..] == stats[1..];
    } else {
      var x := stats[0];
      var tail := stats[1..];
      var rest := SetWeek(tail, w, line);
      assert r == [x] + rest;
      assert r[1..] == rest;
      SetWeekMap(tail, w, line);
      assert AsMap(r) == AsMap(rest)[x.week := x.line];
    }
  }

  /** A week's records paired with the week. */
  function Pairs(w: Week, rs: seq<StatRecord>): (es: seq<Entry>)
    ensures |es| == |rs|
    ensures forall k :: 0 <= k < |rs| ==> es[k] == Entry(w, rs[k])
  {
    seq(|rs|, k requires 0 <= k < |rs| => Entry(w, rs[k]))
  }

  /** Every record of the file, in the order the two loops visit them. */
  function Entries(file: seq<WeekRecords>): seq<Entry>
  {
    if |file| == 0 then []
    else Entries(file[..|file| - 1]) + Pairs(file[|file| - 1].week, file[|file| - 1].records)
  }

  /** `e` is a record of the file tagged with the week it is listed under. */
  ghost predicate InFile(file: seq<WeekRecords>, e: Entry)
  {
    exists i, k :: 0 <= i < |file| && 0 <= k < |file[i].records| && e == Entry(file[i].week, file[i].records[k])
  }

  /** The two loops visit exactly the file's records, each with the week it is listed under. */
  lemma {:induction false} EntriesVisitEveryRecord(file: seq<WeekRecords>)
    ensures forall e :: e in Entries(file) <==> InFile(file, e)
    decreases |file|
  {
    if |file| > 0 {
      var init := file[..|file| - 1];
      var last := file[|file| - 1];
      EntriesVisitEveryRecord(init);
      var ps := Pairs(last.week, last.records);
      assert Entries(file) == Entries(init) + ps;
      forall e ensures e in Entries(file) <==> InFile(file, e) {
        if e in Entries(init) {
          var i, k :| 0 <= i < |init| && 0 <= k < |init[i].records| && e == Entry(init[i].week, init[i].records[k]);
          assert init[i] == file[i];
        } else if e in ps {
          var k :| 0 <= k < |ps| && ps[k] == e;
          assert e == Entry(file[|file| - 1].week, file[|file| - 1].records[k]);
        }
        if InFile(file, e) {
          var i, k :| 0 <= i < |file| && 0 <= k < |file[i].records| && e == Entry(file[i].week, file[i].records[k]);
          if i < |init| {
            assert init[i] == file[i];
            assert InFile(init, e);
          } else {
            assert ps[k] == e;
          }
        }
      }
    }
  }

  /** One iteration of the inner loop body. */
  function Step(players: map<string, Player>, e: Entry): map<string, Player>
  {
    var p := if e.rec.name in players then players[e.rec.name] else Player([], e.rec.name, e.rec.position);
    players[e.rec.name := p.(stats := SetWeek(p.stats, e.week, LineOf(e.rec)))]
  }

  /** The dictionary after visiting the records `es` in order. */
  function GroupAll(es: seq<Entry>): map<string, Player>
  {
    if |es| == 0 then map[] else Step(GroupAll(es[..|es| - 1]), es[|es| - 1])
  }

  /** The records naming player `name`, in order. */
  function RecordsOf(es: seq<Entry>, name: string): seq<Entry>
  {
    if |es| == 0 then []
    else RecordsOf(es[..|es| - 1], name) + (if es[|es| - 1].rec.name == name then [es[|es| - 1]] else [])
  }

  /** `RecordsOf` keeps exactly the records naming `name`. */
  lemma {:induction false} RecordsOfMembers(es: seq<Entry>, name: string)
    ensures forall e :: e in RecordsOf(es, name) <==> e in es && e.rec.name == name
  {
    if |es| > 0 {
      RecordsOfMembers(es[..|es| - 1], name);
      assert es == es[..|es| - 1] + [es[|es| - 1]];
    }
  }

  /** The stats dictionary built from one player's own records. */
  function Fold(rs: seq<Entry>): seq<WeekStats>
  {
    if |rs| == 0 then [] else SetWeek(Fold(rs[..|rs| - 1]), rs[|rs| - 1].week, LineOf(rs[|rs| - 1].rec))
  }

  lemma EntriesStep(file: seq<WeekRecords>, i: nat)
    requires i < |file|
    ensures Entries(file[..i + 1]) == Entries(file[..i]) + Pairs(file[i].week, file[i].records)
  {
    assert file[..i + 1][..i] == file[..i];
  }

  lemma GroupAllStep(es: seq<Entry>, e: Entry)
    ensures GroupAll(es + [e]) == Step(GroupAll(es), e)
  {
    assert (es + [e])[..|es|] == es;
  }

  lemma LoadStep(prefix: seq<Entry>, week: Week, stats: seq<StatRecord>, j: nat)
    requires j < |stats|
    ensures GroupAll(prefix + Pairs(week, stats[..j + 1])) ==
            Step(GroupAll(prefix + Pairs(week, stats[..j])), Entry(week, stats[j]))
  {
    assert Pairs(week, stats[..j + 1]) == Pairs(week, stats[..j]) + [Entry(week, stats[j])];
    assert prefix + Pairs(week, stats[..j + 1]) == prefix + Pairs(week, stats[..j]) + [Entry(week, stats[j])];
    GroupAllStep(prefix + Pairs(week, stats[..j]), Entry(week, stats[j]));
  }

  /** `Step` as the loop body does it: first create the player if missing, then set the week. */
  lemma StepCreatesThenSets(prev: map<string, Player>, e: Entry)
    ensures
      var m := if e.rec.name in prev then prev else prev[e.rec.name := Player([], e.rec.name, e.rec.position)];
      Step(prev, e) == m[e.rec.name := m[e.rec.name].(stats := SetWeek(m[e.rec.name].stats, e.week, LineOf(e.rec)))]
  {
  }

  /**
   * `Player.load`, lines 59-70: the file's weeks in order, each week's records in
   * order, creating the player on its first record and then setting that week's line.
   */
  method Load(file: seq<WeekRecords>) returns (players: map<string, Player>)
    ensures players == GroupAll(Entries(file))
  {
    players := map[];
    for i := 0 to |file|
      invariant players == GroupAll(Entries(file[..i]))
    {
      var week := file[i].week;
      var stats := file[i].records;
      assert Entries(file[..i]) + Pairs(week, stats[..0]) == Entries(file[..i]);
      for j := 0 to |stats|
        invariant players == GroupAll(Entries(file[..i]) + Pairs(week, stats[..j]))
      {
        var stat := stats[j];
        LoadStep(Entries(file[..i]), week, stats, j);
        ghost var prev := players;
        if stat.name !in players {
          players := players[stat.name := Player([], stat.name, stat.position)];
        }
        var p := players[stat.name];
        players := players[stat.name := p.(stats := SetWeek(p.stats, week, LineOf(stat)))];
        StepCreatesThenSets(prev, Entry(week, stat));
      }
      assert stats[..|stats|] == stats;
      EntriesStep(file, i);
    }
    assert file[..|file|] == file;
  }

  /**
   * Each player in the dictionary depends only on its own records: it exists
   * exactly when some record names it, and it is built from those records alone,
   * taking its name and position from the first of them.
   */
  lemma {:induction false} GroupAllByName(es: seq<Entry>, name: string)
    ensures name in GroupAll(es) <==> |RecordsOf(es, name)| > 0
    ensures name in GroupAll(es) ==>
      GroupAll(es)[name] == Player(Fold(RecordsOf(es, name)), name, RecordsOf(es, name)[0].rec.position)
  {
    if |es| > 0 {
      var init := es[..|es| - 1];
      var e := es[|es| - 1];
      GroupAllByName(init, name);
      var rs := RecordsOf(init, name);
      if e.rec.name == name {
        assert RecordsOf(es, name) == rs + [e];
        assert (rs + [e])[..|rs + [e]| - 1] == rs;
        if |rs| > 0 {
          assert (rs + [e])[0] == rs[0];
        } else {
          assert rs + [e] == [e];
        }
      } else {
        assert RecordsOf(es, name) == rs;
      }
    }
  }

  /** The stats dictionary built from one player's records has each week once. */
  lemma {:induction false} FoldDistinct(rs: seq<Entry>)
    ensures DistinctWeeks(Fold(rs))
  {
    if |rs| > 0 {
      FoldDistinct(rs[..|rs| - 1]);
      SetWeekDistinct(Fold(rs[..|rs| - 1]), rs[|rs| - 1].week, LineOf(rs[|rs| - 1].rec));
    }
  }

  /** One more record updates the stats dictionary's map at that record's week. */
  lemma FoldStep(rs: seq<Entry>)
    requires |rs| > 0
    ensures AsMap(Fold(rs)) == AsMap(Fold(rs[..|rs| - 1]))[rs[|rs| - 1].week := LineOf(rs[|rs| - 1].rec)]
  {
    FoldDistinct(rs[..|rs| - 1]);
    SetWeekMap(Fold(rs[..|rs| - 1]), rs[|rs| - 1].week, LineOf(rs[|rs| - 1].rec));
  }

  /** The stats dictionary holds exactly the weeks the player's records are listed under. */
  lemma {:induction false} FoldKeys(rs: seq<Entry>)
    ensures forall w :: w in AsMap(Fold(rs)) <==> exists i :: 0 <= i < |rs| && rs[i].week == w
  {
    if |rs| > 0 {
      var init := rs[..|rs| - 1];
      var e := rs[|rs| - 1];
      FoldKeys(init);
      FoldStep(rs);
      forall w ensures w in AsMap(Fold(rs)) <==> exists i :: 0 <= i < |rs| && rs[i].week == w {
        if w != e.week && w in AsMap(Fold(rs)) {
          assert w in AsMap(Fold(init));
          var i :| 0 <= i < |init| && init[i].week == w;
          assert rs[i].week == w;
        }
        if w != e.week && exists i :: 0 <= i < |rs| && rs[i].week == w {
          var i :| 0 <= i < |rs| && rs[i].week == w;
          assert init[i].week == w;
        }
      }
    }
  }

  /** No later record of `rs` is listed under the week of record `i`. */
  ghost predicate LastOfItsWeek(rs: seq<Entry>, i: nat)
    requires i < |rs|
  {
    forall j :: i < j < |rs| ==> rs[j].week != rs[i].week
  }

  /** For each week the stats dictionary holds the line of the last record listed under it. */
  lemma {:induction false} FoldLast(rs: seq<Entry>)
    ensures forall i :: 0 <= i < |rs| && LastOfItsWeek(rs, i) ==>
      rs[i].week in AsMap(Fold(rs)) && AsMap(Fold(rs))[rs[i].week] == LineOf(rs[i].rec)
  {
    if |rs| > 0 {
      var init := rs[..|rs| - 1];
      var e := rs[|rs| - 1];
      FoldLast(init);
      FoldStep(rs);
      forall i | 0 <= i < |rs| && LastOfItsWeek(rs, i)
        ensures rs[i].week in AsMap(Fold(rs)) && AsMap(Fold(rs))[rs[i].week] == LineOf(rs[i].rec)
      {
        if i < |init| {
          assert init[i] == rs[i];
          assert e.week != rs[i].week;
          assert LastOfItsWeek(init, i) by {
            forall j | i < j < |init| ensures init[j].week != init[i].week {
              assert init[j] == rs[j];
            }
          }
          assert AsMap(Fold(init))[rs[i].week] == LineOf(rs[i].rec);
        }
      }
    }
  }

  /** A name has a player in the loaded dictionary exactly when some record of the file names it. */
  lemma LoadedNames(file: seq<WeekRecords>, name: string)
    ensures name in GroupAll(Entries(file)) <==> exists e :: e in Entries(file) && e.rec.name == name
  {
    var es := Entries(file);
    GroupAllByName(es, name);
    var rs := RecordsOf(es, name);
    RecordsOfMembers(es, name);
    if |rs| > 0 {
      assert rs[0] in rs;
    }
  }

  /**
   * What the loaded dictionary says about one player name: its `name` is the
   * key; its position is the one on its first record; its weeks are distinct and
   * are exactly the weeks with a record for it; and a week's line is that of the
   * last such record under that week.
   */
  lemma LoadedPlayer(file: seq<WeekRecords>, name: string)
    requires name in GroupAll(Entries(file))
    ensures
      var p := GroupAll(Entries(file))[name];
      var rs := RecordsOf(Entries(file), name);
      && |rs| > 0
      && p.name == name
      && p.position == rs[0].rec.position
      && DistinctWeeks(p.stats)
      && (forall w :: w in AsMap(p.stats) <==> exists i :: 0 <= i < |rs| && rs[i].week == w)
      && (forall i :: 0 <= i < |rs| && LastOfItsWeek(rs, i) ==>
            rs[i].week in AsMap(p.stats) && AsMap(p.stats)[rs[i].week] == LineOf(rs[i].rec))
  {
    var es := Entries(file);
    var rs := RecordsOf(es, name);
    GroupAllByName(es, name);
    assert GroupAll(es)[name].stats == Fold(rs);
    FoldDistinct(rs);
    FoldKeys(rs);
    FoldLast(rs);
  }
}
