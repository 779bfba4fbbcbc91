/** The round life cycle of jackpotManager.js: the time left in a round,
    the round timer that ends the round once, `endRound` and the countdown
    to the next round. The clock (`Date.now()`), the random draw and the
    bot inventory the trade library delivers are parameters. */
module JackpotManager {
  import opened Wrappers
  import opened Store
  import opened WeightedSelection
  import opened Settlement
  import opened Events

  /** Round length, in seconds. */
  const RoundDuration := 10
  /** Spin length and the delay before it starts, in milliseconds. */
  const SpinDuration := 5000
  const SpinStartDelay := 1000
  /** Pause between rounds, in milliseconds. */
  const TimeBetweenRounds := 10000

  /** `getTimeLeft`: whole seconds left in the round that started at
      `start` (no start: a full round). */
  function TimeLeft(start: Option<int>, now: int): (t: int)
    ensures t >= 0
    ensures start.None? ==> t == RoundDuration
    ensures start.Some? && start.value <= now ==> t <= RoundDuration
    ensures start.Some? ==> (t == 0 <==> now - start.value >= 1000 * RoundDuration)
  {
    match start
    case None => RoundDuration
    case Some(s) =>
      var left := RoundDuration - (now - s) / 1000;
      if left > 0 then left else 0
  }

  /** The time left never grows as the clock advances. */
  lemma TimeLeftNonIncreasing(start: Option<int>, now: int, later: int)
    requires now <= later
    ensures TimeLeft(start, later) <= TimeLeft(start, now)
  {
    if start.Some? {
      DivMonotone(now - start.value, later - start.value);
    }
  }

  lemma DivMonotone(a: int, b: int)
    requires a <= b
    ensures a / 1000 <= b / 1000
  {
  }

  /** The module-level timer variables: `roundStartTime` and whether
      `timerInterval` is set. */
  datatype TimerState = TimerState(roundStartTime: Option<int>, running: bool)

  /** The state `startRoundTimer` leaves: a running interval for a round
      starting now, whatever ran before. */
  function Started(now: int): (s: TimerState)
    ensures s.running && s.roundStartTime == Some(now)
  {
    TimerState(Some(now), true)
  }

  /** One interval callback: the new timer state and whether it calls
      `endRound`. A stopped timer has no callback. */
  function TickStep(s: TimerState, now: int): (r: (TimerState, bool))
    ensures r.1 ==> r.0 == TimerState(None, false)
    ensures !r.1 ==> r.0 == s
  {
    if s.running && TimeLeft(s.roundStartTime, now) <= 0 then (TimerState(None, false), true)
    else (s, false)
  }

  /** The number of `endRound` calls a sequence of callbacks at the clock
      readings `nows` makes, and the final timer state. */
  function Run(s: TimerState, nows: seq<int>): (TimerState, nat)
    decreases |nows|
  {
    if nows == [] then (s, 0)
    else
      var (s1, fired) := TickStep(s, nows[0]);
      var (s2, calls) := Run(s1, nows[1..]);
      (s2, calls + if fired then 1 else 0)
  }

  lemma {:induction false} StoppedNeverFires(start: Option<int>, nows: seq<int>)
    ensures Run(TimerState(start, false), nows).1 == 0
  {
    if nows != [] {
      StoppedNeverFires(start, nows[1..]);
    }
  }

  /** A started timer calls `endRound` at most once, and it does so exactly
      when some callback runs a full round after the start. */
  lemma {:induction false} EndRoundAtMostOnce(start: int, nows: seq<int>)
    ensures Run(Started(start), nows).1 <= 1
    ensures Run(Started(start), nows).1 == 1 <==>
      exists k :: 0 <= k < |nows| && nows[k] - start >= 1000 * RoundDuration
  {
    if nows != [] {
      if nows[0] - start >= 1000 * RoundDuration {
        StoppedNeverFires(None, nows[1..]);
      } else {
        EndRoundAtMostOnce(start, nows[1..]);
        if Run(Started(start), nows).1 == 1 {
          var k :| 0 <= k < |nows[1..]| && nows[1..][k] - start >= 1000 * RoundDuration;
          assert nows[k + 1] == nows[1..][k];
        }
        if exists k :: 0 <= k < |nows| && nows[k] - start >= 1000 * RoundDuration {
          var k :| 0 <= k < |nows| && nows[k] - start >= 1000 * RoundDuration;
          assert k > 0 && nows[1..][k - 1] == nows[k];
        }
      }
    }
  }

  /** The countdown's notifications: 9, 8, ..., 1, then 0 and the start of
      the new round. */
  predicate IsCountdown(events: seq<Event>) {
    && |events| == 11
    && (forall k :: 0 <= k < 10 ==> events[k] == NextRoundTimer(9 - k))
    && events[10] == NewRoundStarted
  }

  /** The interval after a round ends: ten one-second ticks, then a fresh
      `waiting` round is saved. */
  method NextRoundCountdown(db: Db) returns (events: seq<Event>)
    requires db.Valid()
    modifies db
    ensures db.Valid()
    ensures IsCountdown(events)
    ensures db.jackpots == old(db.jackpots) + [NewJackpot(|old(db.jackpots)|)]
    ensures db.users == old(db.users) && db.items == old(db.items) && db.nextItemId == old(db.nextItemId)
  {
    var countdown := TimeBetweenRounds / 1000;
    events := [];
    var done := false;
    while !done
      invariant 0 <= countdown <= 10
      invariant !done ==> 1 <= countdown
      invariant db.Valid()
      invariant !done ==> |events| == 10 - countdown
      invariant !done ==> forall k :: 0 <= k < |events| ==> events[k] == NextRoundTimer(9 - k)
      invariant !done ==> db.jackpots == old(db.jackpots)
      invariant done ==> IsCountdown(events) && db.jackpots == old(db.jackpots) + [NewJackpot(|old(db.jackpots)|)]
      invariant db.users == old(db.users) && db.items == old(db.items) && db.nextItemId == old(db.nextItemId)
      decreases !done, countdown
    {
      countdown := countdown - 1;
      if countdown <= 0 {
        events := events + [NextRoundTimer(0), NewRoundStarted];
        var _ := db.SaveNewJackpot();
        done := true;
      } else {
        events := events + [NextRoundTimer(countdown)];
      }
    }
  }

  /** How `endRound` finished. `Settled` carries how many participant
      entries the bookkeeping loop got through: fewer than all when the loop
      met a participant whose user no longer exists. */
  datatype RoundOutcome =
    | NoRoundInProgress
    | NoContributions(round: JackpotId)
    | WinnerMissing(round: JackpotId, winner: UserId)
    | Settled(round: JackpotId, winner: UserId, payout: Option<Payout>, processed: nat)

  /** The round as `endRound` leaves it when a winner is recorded. */
  function Finished(j: Jackpot, winner: UserId): (r: Jackpot)
    ensures r.status == Completed && r.winner == Some(winner)
    ensures r.id == j.id && r.participants == j.participants && r.totalValue == j.totalValue
  {
    j.(status := Completed, winner := Some(winner))
  }

  /** One turn of the bookkeeping loop: an entry whose user is found is
      settled, and the entries settled so far all had their user. */
  lemma BookkeepingStep(users: seq<User>, ws: seq<Entry>, i: nat, winner: UserId, pot: real, id: JackpotId)
    requires i < |ws|
    requires forall e :: 0 <= e < i ==> FindUser(users, ws[e].participant.user).Some?
    requires FindUser(SettleAll(users, ws[..i], winner, pot, id), ws[i].participant.user).Some?
    ensures forall e :: 0 <= e < i + 1 ==> FindUser(users, ws[e].participant.user).Some?
    ensures SettleAll(users, ws[..i + 1], winner, pot, id)
         == SettleEntry(SettleAll(users, ws[..i], winner, pot, id), ws[i], winner, pot, id)
  {
    FindUserSameIds(SettleAll(users, ws[..i], winner, pot, id), users, ws[i].participant.user);
    assert ws[..i + 1][..i] == ws[..i];
  }

  /** The bookkeeping loop of `endRound`: each participant entry re-reads
      its user and updates its statistics; a participant whose user no
      longer exists stops the loop (its populated user is null). */
  method Bookkeeping(db: Db, ws: seq<Entry>, winner: UserId, pot: real, id: JackpotId) returns (processed: nat)
    requires db.Valid()
    modifies db
    ensures db.Valid()
    ensures processed <= |ws|
    ensures forall e :: 0 <= e < processed ==> FindUser(old(db.users), ws[e].participant.user).Some?
    ensures processed < |ws| ==> FindUser(old(db.users), ws[processed].participant.user).None?
    ensures db.users == SettleAll(old(db.users), ws[..processed], winner, pot, id)
    ensures db.jackpots == old(db.jackpots) && db.items == old(db.items) && db.nextItemId == old(db.nextItemId)
  {
    ghost var users0 := db.users;
    var i := 0;
    while i < |ws|
      invariant 0 <= i <= |ws|
      invariant db.users == SettleAll(users0, ws[..i], winner, pot, id)
      invariant forall e :: 0 <= e < i ==> FindUser(users0, ws[e].participant.user).Some?
      invariant db.jackpots == old(db.jackpots) && db.items == old(db.items) && db.nextItemId == old(db.nextItemId)
    {
      var e := ws[i];
      var at := FindUser(db.users, e.participant.user);
      if at.None? {
        return i;
      }
      BookkeepingStep(users0, ws, i, winner, pot, id);
      db.users := SettleEntry(db.users, e, winner, pot, id);
      i := i + 1;
    }
    assert ws[..|ws|] == ws;
    return |ws|;
  }

  /** What finishing a round leaves behind, for round `id` of `jackpots`
      with entries `ws`, won by `w` whose user is `users[k]`: the payout
      decision, the round completed with its winner, the users settled for
      the entries the bookkeeping loop got through (all of them unless it
      met a participant whose user is missing, which ends `endRound`
      there), and only after a complete loop the spin notifications, the
      countdown and a fresh round. */
  ghost predicate AwardedRound(
    jackpots: seq<Jackpot>, users: seq<User>, items: seq<Item>,
    id: JackpotId, ws: seq<Entry>, w: Entry, k: nat,
    escrow: Escrow, now: int,
    outcome: RoundOutcome, jackpots': seq<Jackpot>, users': seq<User>, events: seq<Event>)
    requires id < |jackpots| && k < |users|
  {
    var j := jackpots[id];
    && outcome.Settled? && outcome.round == id && outcome.winner == w.participant.user
    && outcome.payout == TransferWinnings(users[k], escrow)
    && outcome.processed <= |ws|
    && (forall e :: 0 <= e < outcome.processed ==> FindUser(users, ws[e].participant.user).Some?)
    && users' == SettleAll(users, ws[..outcome.processed], outcome.winner, j.totalValue, id)
    && (outcome.processed < |ws| ==>
          && FindUser(users, ws[outcome.processed].participant.user).None?
          && jackpots' == jackpots[id := Finished(j, outcome.winner)]
          && events == [])
    && (outcome.processed == |ws| ==>
          var winnerItems := SplitPayout(Populate(w.participant.items, items)).0;
          && jackpots' == jackpots[id := Finished(j, outcome.winner)] + [NewJackpot(|jackpots|)]
          && |events| == 14
          && events[..3] == [Spin(outcome.winner, users[k].username, winnerItems, w.totalContribution,
                                  |winnerItems|, w.participant.color, now + SpinStartDelay, SpinDuration),
                             NewJackPot, NextRound(now + SpinDuration + TimeBetweenRounds)]
          && IsCountdown(events[3..]))
  }

  /** The part of `endRound` after a winner `w` whose user is
      `db.users[k]` has been drawn from the entries `ws` of round `id`. */
  method AwardRound(db: Db, id: JackpotId, ws: seq<Entry>, w: Entry, k: nat,
                    escrow: Escrow, now: int)
    returns (outcome: RoundOutcome, events: seq<Event>)
    requires db.Valid()
    requires id < |db.jackpots| && k < |db.users| && db.users[k].id == w.participant.user
    modifies db
    ensures db.Valid()
    ensures db.items == old(db.items) && db.nextItemId == old(db.nextItemId)
    ensures AwardedRound(old(db.jackpots), old(db.users), old(db.items), id, ws, w, k, escrow, now,
                         outcome, db.jackpots, db.users, events)
  {
    var j := db.jackpots[id];
    var winner := w.participant.user;
    var winnerUser := db.users[k];
    var winnerItems := SplitPayout(Populate(w.participant.items, db.items)).0;
    var payout := TransferWinnings(winnerUser, escrow);
    db.jackpots := db.jackpots[id := Finished(j, winner)];

    var processed := Bookkeeping(db, ws, winner, j.totalValue, id);
    if processed < |ws| {
      return Settled(id, winner, payout, processed), [];
    }

    events := [Spin(winner, winnerUser.username, winnerItems, w.totalContribution, |winnerItems|,
                    w.participant.color, now + SpinStartDelay, SpinDuration),
               NewJackPot, NextRound(now + SpinDuration + TimeBetweenRounds)];
    var countdown := NextRoundCountdown(db);
    events := events + countdown;
    outcome := Settled(id, winner, payout, |ws|);
  }

  /** The entry the draw picks: the first whose running sum exceeds
      `draw * Total(ws)`, or the last one. */
  function Drawn(ws: seq<Entry>, draw: real): (w: Entry)
    requires Total(ws) != 0.0
    ensures w in ws
  {
    assert |ws| > 0;
    ws[SelectedIndex(ws, draw * Total(ws))]
  }

  /** The winner part of `endRound` for round `id`, whose entries `ws`
      have a non-zero total: the draw picks the winner, and nothing is
      saved when its user is missing. */
  method DrawAndAward(db: Db, id: JackpotId, ws: seq<Entry>, draw: real,
                      escrow: Escrow, now: int)
    returns (outcome: RoundOutcome, events: seq<Event>)
    requires db.Valid() && id < |db.jackpots| && Total(ws) != 0.0
    modifies db
    ensures db.Valid()
    ensures db.items == old(db.items) && db.nextItemId == old(db.nextItemId)
    ensures var winner := Drawn(ws, draw).participant.user;
      && (outcome.WinnerMissing? || outcome.Settled?)
      && (outcome.WinnerMissing? <==> FindUser(old(db.users), winner).None?)
      && (outcome.WinnerMissing? ==>
            outcome == WinnerMissing(id, winner) && db.jackpots == old(db.jackpots) && db.users == old(db.users) && events == [])
      && (outcome.Settled? ==>
            AwardedRound(old(db.jackpots), old(db.users), old(db.items), id, ws, Drawn(ws, draw),
                         FindUser(old(db.users), winner).value, escrow, now,
                         outcome, db.jackpots, db.users, events))
  {
    var chosen := WeightedRandomSelection(ws, Total(ws), draw);
    if chosen.None? {
      assert false;
    }
    var w := chosen.value;
    assert w == Drawn(ws, draw);
    var winnerAt := FindUser(db.users, w.participant.user);
    if winnerAt.None? {
      return WinnerMissing(id, w.participant.user), [];
    }
    outcome, events := AwardRound(db, id, ws, w, winnerAt.value, escrow, now);
  }

  /** `endRound`: the round in progress, if any, is completed. A round
      whose contributions sum to 0 gets no winner; otherwise
      `DrawAndAward` decides it. */
  method EndRound(db: Db, draw: real, escrow: Escrow, now: int)
    returns (outcome: RoundOutcome, events: seq<Event>)
    requires db.Valid()
    modifies db
    ensures db.Valid()
    ensures db.items == old(db.items) && db.nextItemId == old(db.nextItemId)
    ensures FirstInProgress(old(db.jackpots)).None? <==> outcome == NoRoundInProgress
    ensures outcome == NoRoundInProgress ==>
      db.jackpots == old(db.jackpots) && db.users == old(db.users) && events == []
    ensures outcome != NoRoundInProgress ==>
      var id := FirstInProgress(old(db.jackpots)).value;
      var ws := Contributions(old(db.jackpots)[id].participants, old(db.items));
      && outcome.round == id
      && (Total(ws) == 0.0 <==> outcome.NoContributions?)
      && (outcome.NoContributions? ==>
            && db.jackpots == old(db.jackpots)[id := old(db.jackpots)[id].(status := Completed)]
            && db.users == old(db.users) && events == [])
      && (Total(ws) != 0.0 ==>
            var winner := Drawn(ws, draw).participant.user;
            && (outcome.WinnerMissing? <==> FindUser(old(db.users), winner).None?)
            && (outcome.WinnerMissing? ==>
                  outcome.winner == winner && db.jackpots == old(db.jackpots) && db.users == old(db.users) && events == [])
            && (outcome.Settled? ==>
                  AwardedRound(old(db.jackpots), old(db.users), old(db.items), id, ws, Drawn(ws, draw),
                               FindUser(old(db.users), winner).value, escrow, now,
                               outcome, db.jackpots, db.users, events)))
  {
    var found := FirstInProgress(db.jackpots);
    if found.None? {
      return NoRoundInProgress, [];
    }
    var id := found.value;
    var j := db.jackpots[id];
    var ws := Contributions(j.participants, db.items);
    if Total(ws) == 0.0 {
      db.jackpots := db.jackpots[id := j.(status := Completed)];
      return NoContributions(id), [];
    }
    outcome, events := DrawAndAward(db, id, ws, draw, escrow, now);
  }

  /** The round timer of jackpotManager.js: the module-level
      `roundStartTime` and `timerInterval`. */
  class RoundTimer {
    var roundStartTime: Option<int>
    /** Whether an interval is scheduled. */
    var running: bool

    constructor ()
      ensures roundStartTime.None? && !running
    {
      roundStartTime := None;
      running := false;
    }

    function State(): TimerState
      reads this
    {
      TimerState(roundStartTime, running)
    }

    /** `startRoundTimer`: replaces any running interval by one for a round
      starting now and announces a full round. */
    method StartRoundTimer(now: int) returns (events: seq<Event>)
      modifies this
      ensures State() == Started(now)
      ensures events == [Timer(RoundDuration)]
    {
      roundStartTime := Some(now);
      running := true;
      events := [Timer(RoundDuration)];
    }

    /** One interval callback at clock reading `now`: announces the time
      left and, once it reaches 0, stops the timer and ends the round. */
    method Tick(db: Db, now: int, draw: real, escrow: Escrow)
      returns (events: seq<Event>, ended: Option<RoundOutcome>)
      requires db.Valid()
      modifies this, db
      ensures db.Valid()
      ensures (State(), ended.Some?) == TickStep(old(State()), now)
      ensures !old(running) ==> events == []
      ensures old(running) ==> |events| >= 1 && events[0] == Timer(TimeLeft(old(roundStartTime), now))
      ensures ended.None? ==> db.jackpots == old(db.jackpots) && db.users == old(db.users) && db.items == old(db.items)
    {
      if !running {
        return [], None;
      }
      var timeLeft := TimeLeft(roundStartTime, now);
      events := [Timer(timeLeft)];
      ended := None;
      if timeLeft <= 0 {
        running := false;
        roundStartTime := None;
        var outcome, roundEvents := EndRound(db, draw, escrow, now);
        events := events + roundEvents;
        ended := Some(outcome);
      }
    }
  }
}
