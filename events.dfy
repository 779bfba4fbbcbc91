/** The Socket.io notifications the round engine emits, recorded as values
    in the order they are sent. */
module Events {
  import opened Store

  datatype Event =
    | Timer(timeLeft: int)
    | Participants(participants: seq<Participant>)
    | Spin(winner: UserId, username: string, items: seq<Item>, totalValue: real,
           skinCount: nat, color: string, startTime: int, duration: int)
    | NewJackPot
    | NextRound(startTime: int)
    | NextRoundTimer(timeLeft: int)
    | NewRoundStarted
}
