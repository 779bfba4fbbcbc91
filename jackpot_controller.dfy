/** The join path of controllers/jackpotController.js: `joinJackpot`
    validates a request, finds or creates the open round and hands over to
    `addUserToJackpot`, which appends the participant, keeps the running
    total and starts the round timer when the second participant arrives;
    and `saveTradeUrl`. */
module JackpotController {
  import opened Wrappers
  import opened Store
  import opened Events
  import opened RandColor
  import opened JackpotManager

  /** The status a round has after a join brings it to `participants`
      participants: `waiting` turns `in_progress` at two, and no other
      status ever changes. */
  function NextStatus(status: Status, participants: nat): (s: Status)
    ensures status != Waiting ==> s == status
    ensures status == Waiting ==> (s == InProgress <==> participants >= 2)
    ensures status == Waiting ==> (s == Waiting <==> participants < 2)
  {
    if status == Waiting && participants >= 2 then InProgress else status
  }

  /** `j'` is round `j` after `user` joined with the stored items `found`:
      one participant appended, with the ids of those items and a colour,
      earlier participants untouched, the total raised by the items' value,
      and the status moved on by `NextStatus`. */
  ghost predicate IsJoin(j: Jackpot, j': Jackpot, user: UserId, found: seq<Item>) {
    && j'.id == j.id && j'.winner == j.winner
    && |j'.participants| == |j.participants| + 1
    && j'.participants[..|j.participants|] == j.participants
    && j'.participants[|j.participants|].user == user
    && j'.participants[|j.participants|].items == Ids(found)
    && IsHexColor(j'.participants[|j.participants|].color)
    && j'.totalValue == j.totalValue + SumPrices(found)
    && j'.status == NextStatus(j.status, |j'.participants|)
  }

  lemma SumContributionsAppend(ps: seq<Participant>, p: Participant, items: seq<Item>)
    ensures SumContributions(ps + [p], items) == SumContributions(ps, items) + Contribution(p, items)
  {
    assert (ps + [p])[..|ps|] == ps;
  }

  /** The running-sum invariant survives a join: the value `addUserToJackpot`
      adds (the prices of the items `Item.find` returns) is exactly the
      contribution `endRound` later computes from the recorded item ids. */
  lemma JoinKeepsRunningTotal(j: Jackpot, j': Jackpot, user: UserId, itemIds: seq<ItemId>, items: seq<Item>)
    requires DistinctIds(items)
    requires IsJoin(j, j', user, FindItems(items, itemIds))
    requires RunningTotalHolds(j, items)
    ensures RunningTotalHolds(j', items)
  {
    var found := FindItems(items, itemIds);
    var ps := j.participants;
    var p := j'.participants[|ps|];
    JoinAppends(ps, j'.participants);
    JoinedContribution(p, found, items);
    SumContributionsAppend(ps, p, items);
  }

  lemma JoinAppends(ps: seq<Participant>, ps': seq<Participant>)
    requires |ps'| == |ps| + 1 && ps'[..|ps|] == ps
    ensures ps' == ps + [ps'[|ps|]]
  {
  }

  /** The new participant's recorded ids populate back to the items found. */
  lemma JoinedContribution(p: Participant, found: seq<Item>, items: seq<Item>)
    requires DistinctIds(items)
    requires forall x :: x in found ==> x in items
    requires p.items == Ids(found)
    ensures Contribution(p, items) == SumPrices(found)
  {
    PopulateIds(found, items);
  }

  lemma JoinPreservesRunningTotal(j: Jackpot, j': Jackpot, user: UserId, itemIds: seq<ItemId>, items: seq<Item>)
    requires DistinctIds(items)
    requires IsJoin(j, j', user, FindItems(items, itemIds))
    ensures RunningTotalHolds(j, items) ==> RunningTotalHolds(j', items)
  {
    if RunningTotalHolds(j, items) {
      JoinKeepsRunningTotal(j, j', user, itemIds, items);
    }
  }

  /** A round that starts with no participants and a zero total keeps its
      running-sum invariant. */
  lemma FreshRoundHoldsRunningTotal(id: JackpotId, items: seq<Item>)
    ensures RunningTotalHolds(NewJackpot(id), items)
  {
  }

  /** The round `addUserToJackpot` saves: the participant pushed with the
      ids of the items found, the total raised by their prices, and
      `waiting` turned `in_progress` once there are two participants. */
  function JoinedRound(j: Jackpot, user: UserId, found: seq<Item>, color: string): (j': Jackpot)
    requires IsHexColor(color)
    ensures IsJoin(j, j', user, found)
  {
    var participants := j.participants + [Participant(user, Ids(found), color)];
    assert participants[..|j.participants|] == j.participants;
    j.(participants := participants, totalValue := j.totalValue + SumPrices(found),
       status := NextStatus(j.status, |participants|))
  }

  /** What a join announces: the second participant of a waiting round
      starts the round timer (timer state `before` becomes `after`) and a
      full-round countdown precedes the participants list; otherwise the
      timer is untouched and only the participants list is sent. */
  ghost predicate JoinAnnounced(j: Jackpot, j': Jackpot, before: TimerState, after: TimerState, now: int, events: seq<Event>) {
    if j.status == Waiting && j'.status == InProgress then
      after == Started(now) && events == [Timer(RoundDuration), Participants(j'.participants)]
    else
      after == before && events == [Participants(j'.participants)]
  }

  /** `addUserToJackpot(userId, itemIds, jackpotId)`; `draws` are the six
      random numbers the colour is made of. A missing round or user makes
      the handler fail before anything is saved. */
  method AddUserToJackpot(db: Db, timer: RoundTimer, userId: UserId, itemIds: seq<ItemId>,
                          jackpotId: JackpotId, draws: seq<real>, now: int)
    returns (added: bool, events: seq<Event>)
    requires db.Valid()
    requires |draws| == 6 && forall i :: 0 <= i < |draws| ==> 0.0 <= draws[i] < 1.0
    modifies db, timer
    ensures db.Valid()
    ensures db.users == old(db.users) && db.items == old(db.items) && db.nextItemId == old(db.nextItemId)
    ensures |db.jackpots| == |old(db.jackpots)|
    ensures added <==> jackpotId < |old(db.jackpots)| && FindUser(old(db.users), userId).Some?
    ensures !added ==> db.jackpots == old(db.jackpots) && events == [] && timer.State() == old(timer.State())
    ensures added ==>
      var j := old(db.jackpots)[jackpotId];
      var j' := db.jackpots[jackpotId];
      && db.jackpots == old(db.jackpots)[jackpotId := j']
      && IsJoin(j, j', userId, FindItems(old(db.items), itemIds))
      && (RunningTotalHolds(j, db.items) ==> RunningTotalHolds(j', db.items))
      && JoinAnnounced(j, j', old(timer.State()), timer.State(), now, events)
  {
    if jackpotId >= |db.jackpots| {
      return false, [];
    }
    var j := db.jackpots[jackpotId];
    var at := FindUser(db.users, userId);
    var found := FindItems(db.items, itemIds);
    var color := GenerateRandomColor(draws);
    if at.None? {
      return false, [];
    }
    var j' := JoinedRound(j, userId, found, color);
    events := SaveJoin(db, timer, jackpotId, j', now);
    added := true;
    JoinPreservesRunningTotal(j, j', userId, itemIds, db.items);
  }

  /** The tail of `addUserToJackpot`: starts the timer when the join
      turned a waiting round `in_progress`, saves the round and emits the
      participants list. */
  method SaveJoin(db: Db, timer: RoundTimer, jackpotId: JackpotId, j': Jackpot, now: int) returns (events: seq<Event>)
    requires db.Valid()
    requires jackpotId < |db.jackpots| && j'.id == db.jackpots[jackpotId].id
    modifies db, timer
    ensures db.Valid()
    ensures db.jackpots == old(db.jackpots)[jackpotId := j']
    ensures db.users == old(db.users) && db.items == old(db.items) && db.nextItemId == old(db.nextItemId)
    ensures JoinAnnounced(old(db.jackpots)[jackpotId], j', old(timer.State()), timer.State(), now, events)
  {
    var j := db.jackpots[jackpotId];
    if j.status == Waiting && j'.status == InProgress {
      var started := timer.StartRoundTimer(now);
      events := started + [Participants(j'.participants)];
    } else {
      events := [Participants(j'.participants)];
    }
    db.jackpots := db.jackpots[jackpotId := j'];
  }

  /** The body of a join request; an absent field is `None`. */
  datatype JoinRequest = JoinRequest(userId: Option<UserId>, itemIds: Option<seq<ItemId>>)

  datatype JoinResponse =
    | BadRequest        // 400: user id and item ids are required
    | UserNotFound      // 404
    | NoTradeUrl        // reply with `tradeUrl: false`
    | NoItemsFound      // 404
    | Joined            // success

  /** `joinJackpot`: the validation ladder. The open round is found (or a
      fresh one saved) before the user, trade URL and items are checked, so
      a refused request can still leave a new round behind. `round` is the
      round the request was routed to. */
  method JoinJackpot(db: Db, timer: RoundTimer, request: JoinRequest, draws: seq<real>, now: int)
    returns (response: JoinResponse, round: Option<JackpotId>, events: seq<Event>)
    requires db.Valid()
    requires |draws| == 6 && forall i :: 0 <= i < |draws| ==> 0.0 <= draws[i] < 1.0
    modifies db, timer
    ensures db.Valid()
    ensures db.users == old(db.users) && db.items == old(db.items) && db.nextItemId == old(db.nextItemId)
    ensures response == BadRequest <==>
      request.userId.None? || request.itemIds.None? || |request.itemIds.value| == 0
    ensures response == BadRequest ==>
      round.None? && db.jackpots == old(db.jackpots) && events == [] && timer.State() == old(timer.State())
    ensures response != BadRequest ==>
      var userId := request.userId.value;
      var found := FindItems(old(db.items), request.itemIds.value);
      var open := FirstActive(old(db.jackpots));
      var base := if open.Some? then old(db.jackpots) else old(db.jackpots) + [NewJackpot(|old(db.jackpots)|)];
      && round == Some(if open.Some? then open.value else |old(db.jackpots)|)
      && round.value < |base|
      && (response == UserNotFound <==> FindUser(old(db.users), userId).None?)
      && (response == NoTradeUrl <==>
            FindUser(old(db.users), userId).Some? && old(db.users)[FindUser(old(db.users), userId).value].tradeUrl == "")
      && (response == NoItemsFound <==>
            FindUser(old(db.users), userId).Some? && old(db.users)[FindUser(old(db.users), userId).value].tradeUrl != ""
            && found == [])
      && (response != Joined ==> db.jackpots == base && events == [] && timer.State() == old(timer.State()))
      && (response == Joined ==>
            && |db.jackpots| == |base|
            && db.jackpots == base[round.value := db.jackpots[round.value]]
            && IsJoin(base[round.value], db.jackpots[round.value], userId, found)
            && (RunningTotalHolds(base[round.value], db.items) ==> RunningTotalHolds(db.jackpots[round.value], db.items))
            && JoinAnnounced(base[round.value], db.jackpots[round.value], old(timer.State()), timer.State(), now, events))
  {
    if request.userId.None? || request.itemIds.None? || |request.itemIds.value| == 0 {
      return BadRequest, None, [];
    }
    var userId := request.userId.value;
    var itemIds := request.itemIds.value;
    var open := FirstActive(db.jackpots);
    var id: JackpotId;
    if open.Some? {
      id := open.value;
    } else {
      id := db.SaveNewJackpot();
    }
    round := Some(id);
    events := [];
    var at := FindUser(db.users, userId);
    if at.None? {
      return UserNotFound, round, [];
    }
    if db.users[at.value].tradeUrl == "" {
      return NoTradeUrl, round, [];
    }
    var found := FindItems(db.items, itemIds);
    if |found| == 0 {
      return NoItemsFound, round, [];
    }
    var added;
    added, events := AddUserToJackpot(db, timer, userId, itemIds, id, draws, now);
    response := Joined;
  }

  datatype TradeUrlResponse =
    | TradeUrlMissing   // 400: Steam id and trade URL are required
    | TradeUrlNoUser    // 404
    | TradeUrlSaved     // 200

  /** `saveTradeUrl`: `steamId` is `req.user.steamID64` and `tradeUrl` the
      new trade URL, each "" when absent; only that user's `tradeUrl` changes. */
  method SaveTradeUrl(db: Db, steamId: string, tradeUrl: string) returns (response: TradeUrlResponse)
    requires db.Valid()
    modifies db
    ensures db.Valid()
    ensures db.jackpots == old(db.jackpots) && db.items == old(db.items) && db.nextItemId == old(db.nextItemId)
    ensures response == TradeUrlMissing <==> steamId == "" || tradeUrl == ""
    ensures response == TradeUrlNoUser <==>
      steamId != "" && tradeUrl != "" && FindUserBySteamId(old(db.users), steamId).None?
    ensures response != TradeUrlSaved ==> db.users == old(db.users)
    ensures response == TradeUrlSaved ==>
      var k := FindUserBySteamId(old(db.users), steamId).value;
      db.users == old(db.users)[k := old(db.users)[k].(tradeUrl := tradeUrl)]
  {
    if steamId == "" || tradeUrl == "" {
      return TradeUrlMissing;
    }
    var at := FindUserBySteamId(db.users, steamId);
    if at.None? {
      return TradeUrlNoUser;
    }
    db.users := db.users[at.value := db.users[at.value].(tradeUrl := tradeUrl)];
    response := TradeUrlSaved;
  }
}
