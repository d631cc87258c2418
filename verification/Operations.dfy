/** What clients do to their slots (libsnake/player/player_manager.c). */
module Operations {
  import opened Torus
  import opened Engine

  /** The operations of player_manager.c, each atomic under the lock of its slot. */
  datatype Operation = Register | Unregister | Pause | Unpause | Respawn | Turn(direction: Direction)

  function Operate(player: Player, op: Operation): Player {
    match op
    case Register => Player(Joining, Up)
    case Unregister => Unregistered(player)
    case Pause => Switched(player, Playing, Paused)
    case Unpause => Switched(player, Paused, Playing)
    case Respawn => Switched(player, PlayerDead, Respawning)
    case Turn(d) => player.(direction := d)
  }

  function Unregistered(player: Player): Player {
    player.(status := if Alive(player.status) || player.status == NotConnected then Disconnecting else NotConnected)
  }

  function Switched(player: Player, from: Status, to: Status): Player {
    if player.status == from then player.(status := to) else player
  }

  /** Pausing and unpausing undo each other, on a playing and on a paused player, and nothing else
      becomes playing by them. */
  lemma PauseUndone(player: Player)
    ensures player.status == Playing <==> Operate(player, Pause) != player
    ensures player.status == Paused <==> Operate(player, Unpause) != player
    ensures player.status == Playing ==> Operate(Operate(player, Pause), Unpause) == player
    ensures player.status == Paused ==> Operate(Operate(player, Unpause), Pause) == player
  {
  }

  /** After respawning a player waits for a place without bringing a fruit; only registering makes
      it join. */
  lemma WhoWaits(player: Player, op: Operation)
    ensures Operate(player, op).status == Joining <==>
      op.Register? || (player.status == Joining && !op.Unregister?)
    ensures Operate(player, op).status == Respawning <==>
      (op.Respawn? && player.status == PlayerDead)
      || (player.status == Respawning && !op.Register? && !op.Unregister?)
  {
  }
}
