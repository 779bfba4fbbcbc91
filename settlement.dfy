/** The value computations of `endRound` and `transferWinnings`
    (jackpotManager.js): contributions and the pot total, the 90/10 split of
    a payout list, the trade offers built from the bot inventory, and the
    per-user statistics update of the bookkeeping loop. */
module Settlement {
  import opened Wrappers
  import opened Store
  import opened WeightedSelection
  import Prices

  /** An element of `participantsWithValue`. */
  type Entry = Weighted<Participant>

  /** `participantsWithValue`: each participant paired with the sum of the
      parsed prices of its populated items. */
  function Contributions(ps: seq<Participant>, items: seq<Item>): (ws: seq<Entry>)
    ensures |ws| == |ps|
    ensures forall i :: 0 <= i < |ps| ==> ws[i].participant == ps[i]
  {
    if ps == [] then []
    else Contributions(ps[..|ps| - 1], items) + [Weighted(ps[|ps| - 1], Contribution(ps[|ps| - 1], items))]
  }

  lemma {:induction false} ContributionAt(ps: seq<Participant>, items: seq<Item>, i: nat)
    requires i < |ps|
    ensures Contributions(ps, items)[i].totalContribution == Contribution(ps[i], items)
    decreases |ps|
  {
    if i < |ps| - 1 {
      assert ps[..|ps| - 1][i] == ps[i];
      ContributionAt(ps[..|ps| - 1], items, i);
    }
  }

  /** `overallTotal` is the sum of the contributions; when the round kept
      its running-sum invariant, it equals the stored `totalValue`. */
  lemma {:induction false} OverallTotalIsSum(ps: seq<Participant>, items: seq<Item>)
    ensures Total(Contributions(ps, items)) == SumContributions(ps, items)
  {
    if ps != [] {
      var ws := Contributions(ps, items);
      var init := ps[..|ps| - 1];
      OverallTotalIsSum(init, items);
      PrefixOfExtension(Contributions(init, items), ws[|ws| - 1], |init|);
      assert ws == Contributions(init, items) + [ws[|ws| - 1]];
    }
  }

  lemma {:induction false} PrefixOfExtension<P>(ws: seq<Weighted<P>>, x: Weighted<P>, k: nat)
    requires k <= |ws|
    ensures Prefix(ws + [x], k) == Prefix(ws, k)
  {
    if k > 0 {
      assert (ws + [x])[k - 1] == ws[k - 1];
      PrefixOfExtension(ws, x, k - 1);
    }
  }

  lemma OverallTotalIsTotalValue(j: Jackpot, items: seq<Item>)
    requires RunningTotalHolds(j, items)
    ensures Total(Contributions(j.participants, items)) == j.totalValue
  {
    OverallTotalIsSum(j.participants, items);
  }

  /** With non-negative stored prices every contribution is non-negative,
      which is what the fairness of the draw needs. */
  lemma ContributionsNonNegative(ps: seq<Participant>, items: seq<Item>)
    requires PricesNonNegative(items)
    ensures NonNegative(Contributions(ps, items))
  {
    forall i | 0 <= i < |ps|
      ensures Contributions(ps, items)[i].totalContribution >= 0.0
    {
      ContributionAt(ps, items, i);
    }
  }

  /** `Math.floor(n * 0.9)`: how many leading items of a payout list go to
      the winner. */
  function WinnerShare(n: nat): (k: nat)
    ensures k <= n
    ensures 10 * k <= 9 * n < 10 * k + 10
  {
    (9 * n) / 10
  }

  /** `slice(0, k)` and `slice(k)` with `k` the winner's share. */
  function SplitPayout<T>(list: seq<T>): (r: (seq<T>, seq<T>))
    ensures r.0 + r.1 == list
    ensures |r.0| == WinnerShare(|list|)
    ensures |list| > 0 ==> |r.1| > 0
    ensures 10 * |r.1| >= |list| && 10 * |r.1| < |list| + 10
  {
    (list[..WinnerShare(|list|)], list[WinnerShare(|list|)..])
  }

  /** An entry of the bot's inventory as the trade library reports it; a
      missing asset id or context id is "", a missing app id is 0. */
  datatype EscrowItem = EscrowItem(name: string, assetid: string, appid: int, contextid: string, tradable: bool)

  /** What `addMyItem` receives. */
  datatype AssetRef = AssetRef(assetid: string, appid: int, contextid: string)

  function RefOf(x: EscrowItem): AssetRef {
    AssetRef(x.assetid, x.appid, x.contextid)
  }

  /** The guard in front of `addMyItem`. */
  predicate Offerable(x: EscrowItem) {
    x.tradable && x.assetid != "" && x.appid != 0 && x.contextid != ""
  }

  /** The items one `forEach` adds to a trade offer, in list order. */
  function OfferItems(list: seq<EscrowItem>): (r: seq<AssetRef>)
    ensures |r| <= |list|
    ensures forall k :: 0 <= k < |list| && Offerable(list[k]) ==> RefOf(list[k]) in r
    ensures forall a :: a in r ==> exists k :: 0 <= k < |list| && Offerable(list[k]) && RefOf(list[k]) == a
  {
    if list == [] then []
    else
      var rest := OfferItems(list[1..]);
      OfferTail(list, rest);
      (if Offerable(list[0]) then [RefOf(list[0])] else []) + rest
  }

  /** What the offer of a list's tail says about the whole list. */
  lemma OfferTail(list: seq<EscrowItem>, rest: seq<AssetRef>)
    requires list != []
    requires forall k :: 0 <= k < |list[1..]| && Offerable(list[1..][k]) ==> RefOf(list[1..][k]) in rest
    requires forall a :: a in rest ==> exists k :: 0 <= k < |list[1..]| && Offerable(list[1..][k]) && RefOf(list[1..][k]) == a
    ensures forall k :: 1 <= k < |list| && Offerable(list[k]) ==> RefOf(list[k]) in rest
    ensures forall a :: a in rest ==> exists k :: 0 <= k < |list| && Offerable(list[k]) && RefOf(list[k]) == a
  {
    forall k | 1 <= k < |list| && Offerable(list[k]) ensures RefOf(list[k]) in rest {
      assert list[k] == list[1..][k - 1];
    }
    forall a | a in rest
      ensures exists k :: 0 <= k < |list| && Offerable(list[k]) && RefOf(list[k]) == a
    {
      var k :| 0 <= k < |list[1..]| && Offerable(list[1..][k]) && RefOf(list[1..][k]) == a;
      assert list[k + 1] == list[1..][k];
    }
  }

  /** The offer built from the items `lo..hi` of a list holds exactly the
      offerable ones among them. */
  lemma OfferItemsOfSlice(list: seq<EscrowItem>, lo: nat, hi: nat)
    requires lo <= hi <= |list|
    ensures forall k :: lo <= k < hi && Offerable(list[k]) ==> RefOf(list[k]) in OfferItems(list[lo..hi])
    ensures forall a :: a in OfferItems(list[lo..hi]) ==>
      exists k :: lo <= k < hi && Offerable(list[k]) && RefOf(list[k]) == a
  {
    var slice := list[lo..hi];
    assert forall k :: lo <= k < hi ==> list[k] == slice[k - lo];
    forall a | a in OfferItems(slice)
      ensures exists k :: lo <= k < hi && Offerable(list[k]) && RefOf(list[k]) == a
    {
      var k :| 0 <= k < |slice| && Offerable(slice[k]) && RefOf(slice[k]) == a;
      assert list[k + lo] == slice[k];
    }
  }

  /** What the trade library answers during `transferWinnings`: the bot
      inventory fetch (an error or the list of items), and whether sending
      the winner's offer succeeded (`sendTradeOffer` rejects on a send error). */
  datatype Escrow = Escrow(inventory: Result<seq<EscrowItem>, string>, winnerSent: bool)

  /** The trade offers `transferWinnings` builds: the winner's, and the
      admin's, which is built and sent only after the winner's was sent. */
  datatype Payout = Payout(winnerTradeUrl: string, winnerOffer: seq<AssetRef>, adminOffer: Option<seq<AssetRef>>)

  /** `transferWinnings(winner)`. No offer is made when the winner has no
      trade URL, when the fetch fails or when the bot inventory is empty;
      otherwise the first `WinnerShare(n)` items go to the winner and the
      rest to the admin, each filtered by `Offerable`. A failed send of the
      winner's offer is caught before the admin's offer is built. */
  function TransferWinnings(winner: User, escrow: Escrow): (r: Option<Payout>)
    ensures r.Some? <==> winner.tradeUrl != "" && escrow.inventory.Success? && escrow.inventory.value != []
    ensures r.Some? ==> r.value.winnerTradeUrl == winner.tradeUrl
    ensures r.Some? ==> (r.value.adminOffer.Some? <==> escrow.winnerSent)
    ensures r.Some? ==> var list := escrow.inventory.value;
      forall k :: 0 <= k < |list| && Offerable(list[k]) ==>
        (k < WinnerShare(|list|) ==> RefOf(list[k]) in r.value.winnerOffer) &&
        (k >= WinnerShare(|list|) && r.value.adminOffer.Some? ==> RefOf(list[k]) in r.value.adminOffer.value)
    ensures r.Some? ==> var list := escrow.inventory.value;
      forall a :: a in r.value.winnerOffer ==>
        exists k :: 0 <= k < WinnerShare(|list|) && Offerable(list[k]) && RefOf(list[k]) == a
    ensures r.Some? && r.value.adminOffer.Some? ==> var list := escrow.inventory.value;
      forall a :: a in r.value.adminOffer.value ==>
        exists k :: WinnerShare(|list|) <= k < |list| && Offerable(list[k]) && RefOf(list[k]) == a
  {
    if winner.tradeUrl == "" then None
    else match escrow.inventory
      case Failure(_) => None
      case Success(inventory) =>
        if inventory == [] then None
        else
          var n := WinnerShare(|inventory|);
          OfferItemsOfSlice(inventory, 0, n);
          OfferItemsOfSlice(inventory, n, |inventory|);
          assert inventory[..n] == inventory[0..n];
          assert inventory[n..] == inventory[n..|inventory|];
          var (toWinner, toAdmin) := SplitPayout(inventory);
          Some(Payout(winner.tradeUrl, OfferItems(toWinner),
                      if escrow.winnerSent then Some(OfferItems(toAdmin)) else None))
  }

  const Gamemode := "Classic"
  const WinningTrade := "Trade ID 123456"

  /** One iteration of the bookkeeping loop applied to user `u`, with
      `contribution` the participant entry's contribution and `pot` the
      round's stored `totalValue`. */
  function Settle(u: User, contribution: real, isWinner: bool, pot: real, jackpotId: JackpotId): (v: User)
    ensures v.id == u.id && v.steamId == u.steamId && v.tradeUrl == u.tradeUrl && v.inventory == u.inventory
    ensures v.deposited == u.deposited + contribution
    ensures |v.gameHistory| == |u.gameHistory| + 1 && v.gameHistory[..|u.gameHistory|] == u.gameHistory
    ensures isWinner ==> v.totalWon == u.totalWon + pot && v.profit == v.totalWon - v.deposited
    ensures !isWinner ==> v.totalWon == u.totalWon && v.profit == u.profit - contribution
    ensures var r := v.gameHistory[|u.gameHistory|];
      r.jackpotId == jackpotId && r.deposited == contribution && r.isWinner == isWinner && r.gamemode == Gamemode
      && (isWinner ==> r.totalWon == pot && r.profit == v.profit && r.winningTrade == WinningTrade)
      && (!isWinner ==> r.totalWon == 0.0 && r.profit == -contribution && r.winningTrade == "")
  {
    var deposited := u.deposited + contribution;
    if isWinner then
      var totalWon := u.totalWon + pot;
      var profit := totalWon - deposited;
      u.(deposited := deposited, totalWon := totalWon, profit := profit,
         gameHistory := u.gameHistory + [GameRecord(jackpotId, contribution, pot, profit, Gamemode, WinningTrade, true)])
    else
      u.(deposited := deposited, profit := u.profit - contribution,
         gameHistory := u.gameHistory + [GameRecord(jackpotId, contribution, 0.0, -contribution, Gamemode, "", false)])
  }

  /** The user collection after the bookkeeping loop has visited the
      entries `ws`: each entry re-reads its user by id and updates it. */
  function SettleAll(users: seq<User>, ws: seq<Entry>, winner: UserId, pot: real, jackpotId: JackpotId): (r: seq<User>)
    ensures |r| == |users|
    ensures forall k :: 0 <= k < |users| ==> r[k].id == users[k].id
  {
    if ws == [] then users
    else SettleEntry(SettleAll(users, ws[..|ws| - 1], winner, pot, jackpotId), ws[|ws| - 1], winner, pot, jackpotId)
  }

  /** One iteration of the bookkeeping loop on the user collection: the
      entry's user, found by id, is settled; a missing user changes
      nothing. */
  function SettleEntry(users: seq<User>, e: Entry, winner: UserId, pot: real, jackpotId: JackpotId): (r: seq<User>)
    ensures |r| == |users|
    ensures forall k :: 0 <= k < |users| ==> r[k].id == users[k].id
    ensures FindUser(users, e.participant.user).None? ==> r == users
  {
    match FindUser(users, e.participant.user)
    case None => users
    case Some(k) => users[k := Settle(users[k], e.totalContribution, e.participant.user == winner, pot, jackpotId)]
  }

  /** The bookkeeping loop seen from one user: the entries that name it,
      applied in order. */
  function SettleUser(u: User, ws: seq<Entry>, winner: UserId, pot: real, jackpotId: JackpotId): (v: User)
    ensures v.id == u.id
  {
    if ws == [] then u
    else
      var prev := SettleUser(u, ws[..|ws| - 1], winner, pot, jackpotId);
      var e := ws[|ws| - 1];
      if e.participant.user == u.id then Settle(prev, e.totalContribution, u.id == winner, pot, jackpotId)
      else prev
  }

  /** The loop touches each user independently: the first user with a given
      id receives exactly its own entries, every other user is unchanged. */
  lemma {:induction false} SettleAllPerUser(users: seq<User>, ws: seq<Entry>, winner: UserId, pot: real, jackpotId: JackpotId, k: nat)
    requires k < |users|
    ensures SettleAll(users, ws, winner, pot, jackpotId)[k] ==
      if FindUser(users, users[k].id) == Some(k) then SettleUser(users[k], ws, winner, pot, jackpotId) else users[k]
  {
    if ws != [] {
      var init := ws[..|ws| - 1];
      var prev := SettleAll(users, init, winner, pot, jackpotId);
      var e := ws[|ws| - 1];
      SettleAllPerUser(users, init, winner, pot, jackpotId, k);
      FindUserSameIds(prev, users, e.participant.user);
      FindUserSameIds(prev, users, users[k].id);
    }
  }

  /** Sum of the contributions of the entries that name user `id`. */
  function ContributedBy(ws: seq<Entry>, id: UserId): real {
    if ws == [] then 0.0
    else ContributedBy(ws[..|ws| - 1], id) + (if ws[|ws| - 1].participant.user == id then ws[|ws| - 1].totalContribution else 0.0)
  }

  /** Number of entries that name user `id`. */
  function EntriesOf(ws: seq<Entry>, id: UserId): nat {
    if ws == [] then 0
    else EntriesOf(ws[..|ws| - 1], id) + (if ws[|ws| - 1].participant.user == id then 1 else 0)
  }

  /** What every user ends the loop with: deposits grow by what it staked
      and the history gains one entry per participant entry, for this round,
      while nothing earlier in the history changes. */
  lemma {:induction false} SettleUserDeposits(u: User, ws: seq<Entry>, winner: UserId, pot: real, jackpotId: JackpotId)
    ensures var v := SettleUser(u, ws, winner, pot, jackpotId);
      && v.steamId == u.steamId && v.tradeUrl == u.tradeUrl && v.inventory == u.inventory
      && v.deposited == u.deposited + ContributedBy(ws, u.id)
      && |v.gameHistory| == |u.gameHistory| + EntriesOf(ws, u.id)
      && v.gameHistory[..|u.gameHistory|] == u.gameHistory
  {
    if ws != [] {
      var init := ws[..|ws| - 1];
      SettleUserDeposits(u, init, winner, pot, jackpotId);
      var prev := SettleUser(u, init, winner, pot, jackpotId);
      var v := SettleUser(u, ws, winner, pot, jackpotId);
      if ws[|ws| - 1].participant.user == u.id {
        assert v.gameHistory[..|u.gameHistory|] == prev.gameHistory[..|u.gameHistory|];
      }
    }
  }

  /** Every history entry the loop adds to a user records this round and
      whether that user won it. */
  lemma {:induction false} SettleUserRecords(u: User, ws: seq<Entry>, winner: UserId, pot: real, jackpotId: JackpotId)
    ensures var v := SettleUser(u, ws, winner, pot, jackpotId);
      && |v.gameHistory| >= |u.gameHistory|
      && forall i :: |u.gameHistory| <= i < |v.gameHistory| ==>
           v.gameHistory[i].jackpotId == jackpotId && v.gameHistory[i].isWinner == (u.id == winner)
           && v.gameHistory[i].gamemode == Gamemode
  {
    if ws != [] {
      var init := ws[..|ws| - 1];
      SettleUserRecords(u, init, winner, pot, jackpotId);
    }
  }

  /** The winner is credited the pot once per participant entry it has, and
      its profit is recomputed as `totalWon - deposited`. */
  lemma SettleWinner(u: User, ws: seq<Entry>, pot: real, jackpotId: JackpotId)
    ensures var v := SettleUser(u, ws, u.id, pot, jackpotId);
      && v.totalWon == u.totalWon + EntriesOf(ws, u.id) as real * pot
      && (EntriesOf(ws, u.id) > 0 ==> v.profit == v.totalWon - v.deposited)
  {
    WinnerCredited(u, ws, pot, jackpotId);
    CreditedIsScaled(ws, u.id, pot);
  }

  /** The pot counted once per entry that names `id`. */
  function Credited(ws: seq<Entry>, id: UserId, pot: real): real {
    if ws == [] then 0.0
    else Credited(ws[..|ws| - 1], id, pot) + (if ws[|ws| - 1].participant.user == id then pot else 0.0)
  }

  lemma {:induction false} CreditedIsScaled(ws: seq<Entry>, id: UserId, pot: real)
    ensures Credited(ws, id, pot) == EntriesOf(ws, id) as real * pot
  {
    if ws != [] {
      var init := ws[..|ws| - 1];
      CreditedIsScaled(init, id, pot);
      if ws[|ws| - 1].participant.user == id {
        var n := EntriesOf(init, id);
        assert (n + 1) as real * pot == n as real * pot + pot;
      }
    }
  }

  lemma {:induction false} WinnerCredited(u: User, ws: seq<Entry>, pot: real, jackpotId: JackpotId)
    ensures var v := SettleUser(u, ws, u.id, pot, jackpotId);
      && v.totalWon == u.totalWon + Credited(ws, u.id, pot)
      && (EntriesOf(ws, u.id) > 0 ==> v.profit == v.totalWon - v.deposited)
  {
    if ws != [] {
      WinnerCredited(u, ws[..|ws| - 1], pot, jackpotId);
    }
  }

  /** A user who did not win keeps `totalWon` and loses what it staked. */
  lemma {:induction false} SettleLoser(u: User, ws: seq<Entry>, winner: UserId, pot: real, jackpotId: JackpotId)
    requires u.id != winner
    ensures var v := SettleUser(u, ws, winner, pot, jackpotId);
      v.totalWon == u.totalWon && v.profit == u.profit - ContributedBy(ws, u.id)
  {
    if ws != [] {
      SettleLoser(u, ws[..|ws| - 1], winner, pot, jackpotId);
    }
  }
}
