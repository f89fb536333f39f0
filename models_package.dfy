/**
 * `src/models/models.py`: the same scoring and position classes as
 * `src/models.py` (modelled by `Stats` and `Models.Position`), a roster
 * without draft history whose drafting method is `draft`, and the
 * marginal-value computation placed on `Player`.
 */
module PackageModels {
  import opened Wrappers
  import opened Stats
  import opened Valuation
  import Models

  /** `Roster` of `src/models/models.py`: the four slots, WR and TE sharing one list. */
  class Roster {
    const qb: Models.Position
    const rb: Models.Position
    const wr: Models.Position
    const te: Models.Position
    ghost const Repr: set<object>

    function PositionOf(pos: Pos): Models.Position
    {
      match pos
      case QB => qb
      case RB => rb
      case WR => wr
      case TE => te
    }

    ghost predicate Valid()
    {
      && Models.SlotIs(qb, QB) && Models.SlotIs(rb, RB) && Models.SlotIs(wr, WR) && Models.SlotIs(te, TE)
      && wr.players == te.players
      && qb.players != rb.players && qb.players != wr.players && rb.players != wr.players
      && Repr == {qb.players, rb.players, wr.players}
    }

    function View(): Lineup
      reads qb.players, rb.players, wr.players
    {
      Lineup(qb.players.items, rb.players.items, wr.players.items)
    }

    /** Four slots with the league format; the WR and TE slots are built around one `receivers` list. */
    constructor ()
      ensures Valid() && fresh(Repr)
      ensures View() == EmptyLineup
    {
      var receivers := new Models.PlayerList();
      var qbs := new Models.PlayerList();
      var rbs := new Models.PlayerList();
      qb := new Models.Position(QB, qbs, 3, 1);
      rb := new Models.Position(RB, rbs, 10, 2);
      wr := new Models.Position(WR, receivers, 11, 3);
      te := new Models.Position(TE, receivers, 11, 3);
      Repr := {qbs, rbs, receivers};
    }

    /**
     * `draft`: appends to exactly one underlying list, the shared receivers
     * list for a WR or TE, so both receiver slots see the new player.
     */
    method Draft(player: Player)
      requires Valid()
      modifies PositionOf(player.position).players
      ensures View() == Added(old(View()), player)
      ensures forall pos ::
                (SlotPlayers(View(), pos) ==
                 if Matches(pos, player.position) then SlotPlayers(old(View()), pos) + [player]
                 else SlotPlayers(old(View()), pos))
    {
      PositionOf(player.position).players.Append(player);
      forall pos ensures SlotPlayers(View(), pos) ==
        (if Matches(pos, player.position) then SlotPlayers(old(View()), pos) + [player]
         else SlotPlayers(old(View()), pos))
      {
        AddedSlots(old(View()), player, pos);
      }
    }

    predicate HasSpot(player: Player)
      requires Valid()
      reads Repr
      ensures HasSpot(player) <==> |SlotPlayers(View(), player.position)| < MaxPlayers(player.position)
    {
      PositionOf(player.position).HasSpot()
    }

    predicate HasStartingSpot(player: Player)
      requires Valid()
      reads Repr
      ensures HasStartingSpot(player) <==>
        |SlotPlayers(View(), player.position)| < StartingPlayers(player.position)
    {
      PositionOf(player.position).HasStartingSpot()
    }

    function MatchingPlayers(player: Player): (r: seq<Player>)
      requires Valid()
      reads Repr
      ensures IsReceiver(player.position) ==> r == View().receivers + View().receivers
      ensures !IsReceiver(player.position) ==> r == SlotPlayers(View(), player.position)
    {
      qb.MatchingPlayers(player) + rb.MatchingPlayers(player)
      + wr.MatchingPlayers(player) + te.MatchingPlayers(player)
    }

    function StartingPositions(player: Player): (k: nat)
      requires Valid()
      ensures k == StartingPlayers(player.position)
    {
      PositionOf(player.position).startingPlayers
    }
  }

  /**
   * `Player.net_additional_score(roster)`: the same three cases and the same
   * bench loop as `Models.Roster.NetAdditionalScore`, so for the same list
   * contents both return `Net` of those contents.
   */
  method NetAdditionalScore(player: Player, roster: Roster) returns (r: Result<real, Week>)
    requires roster.Valid()
    ensures r == Net(roster.View(), player)
    ensures !Valuation.HasSpot(roster.View(), player.position) ==> r == Ok(0.0)
    ensures (Valuation.HasSpot(roster.View(), player.position) &&
             Valuation.HasStartingSpot(roster.View(), player.position)) ==> r == Ok(OverallScore(player))
    ensures !Valuation.HasStartingSpot(roster.View(), player.position) && r.Ok? ==> r.value >= 0.0
  {
    NetCases(roster.View(), player);
    if !roster.HasSpot(player) {
      return Ok(0.0);
    }
    if roster.HasStartingSpot(player) {
      return Ok(OverallScore(player));
    }
    var matching := roster.MatchingPlayers(player);
    var merged := Models.MergeDicts(matching);
    r := Models.TotalDelta(merged, matching, roster.StartingPositions(player), player.stats);
  }
}
