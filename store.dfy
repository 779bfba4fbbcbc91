/** The documents the round engine reads and writes (models/jackpotSchema.js,
    models/userSchema.js, models/itemSchema.js) and an in-memory stand-in for
    the document store: each collection is a sequence in insertion order, and
    `findOne`/`findById` return the first matching document. */
module Store {
  import opened Wrappers
  import Prices

  type UserId = nat
  type ItemId = nat
  type JackpotId = nat

  /** An item as stored by the inventory sync. */
  datatype Item = Item(
    id: ItemId,
    name: string,
    iconUrl: string,
    price: string,
    tradable: bool,
    owner: UserId,
    assetId: string,
    appId: int,
    contextId: int)

  /** A new item document before `insertMany` gives it an id; `tradable`
      takes its schema default. */
  datatype ItemDraft = ItemDraft(
    name: string,
    iconUrl: string,
    price: string,
    owner: UserId,
    assetId: string,
    appId: int,
    contextId: int)

  function Materialize(d: ItemDraft, id: ItemId): (x: Item)
    ensures x.id == id && x.tradable
    ensures x.name == d.name && x.iconUrl == d.iconUrl && x.price == d.price && x.owner == d.owner
    ensures x.assetId == d.assetId && x.appId == d.appId && x.contextId == d.contextId
  {
    Item(id, d.name, d.iconUrl, d.price, true, d.owner, d.assetId, d.appId, d.contextId)
  }

  /** One join of a round: the joining user, the ids of the items it staked
      and its display colour. */
  datatype Participant = Participant(user: UserId, items: seq<ItemId>, color: string)

  datatype Status = Waiting | InProgress | Completed

  datatype Jackpot = Jackpot(
    id: JackpotId,
    participants: seq<Participant>,
    totalValue: real,
    winner: Option<UserId>,
    status: Status)

  /** `new Jackpot({ status: 'waiting', totalValue: 0, participants: [] })`. */
  function NewJackpot(id: JackpotId): (j: Jackpot)
    ensures j.id == id && j.status == Waiting && j.participants == [] && j.totalValue == 0.0
    ensures j.winner.None?
  {
    Jackpot(id, [], 0.0, None, Waiting)
  }

  /** One entry of a user's `gameHistory`. */
  datatype GameRecord = GameRecord(
    jackpotId: JackpotId,
    deposited: real,
    totalWon: real,
    profit: real,
    gamemode: string,
    winningTrade: string,
    isWinner: bool)

  /** A user; an empty `tradeUrl` is an absent one. */
  datatype User = User(
    id: UserId,
    steamId: string,
    username: string,
    tradeUrl: string,
    inventory: seq<ItemId>,
    deposited: real,
    totalWon: real,
    profit: real,
    gameHistory: seq<GameRecord>)

  /** `User.findById(id)`: the index of the first user with that id. */
  function FindUser(users: seq<User>, id: UserId): (k: Option<nat>)
    ensures k.Some? ==> k.value < |users| && users[k.value].id == id
    ensures k.Some? ==> forall j :: 0 <= j < k.value ==> users[j].id != id
    ensures k.None? ==> forall j :: 0 <= j < |users| ==> users[j].id != id
  {
    if users == [] then None
    else if users[0].id == id then Some(0)
    else match FindUser(users[1..], id)
      case None => None
      case Some(i) => Some(i + 1)
  }

  /** `User.findOne({ steamId })`: the index of the first user with that Steam id. */
  function FindUserBySteamId(users: seq<User>, steamId: string): (k: Option<nat>)
    ensures k.Some? ==> k.value < |users| && users[k.value].steamId == steamId
    ensures k.Some? ==> forall j :: 0 <= j < k.value ==> users[j].steamId != steamId
    ensures k.None? ==> forall j :: 0 <= j < |users| ==> users[j].steamId != steamId
  {
    if users == [] then None
    else if users[0].steamId == steamId then Some(0)
    else match FindUserBySteamId(users[1..], steamId)
      case None => None
      case Some(i) => Some(i + 1)
  }

  /** Two user collections with the same ids at the same places answer
      `findById` alike. */
  lemma {:induction false} FindUserSameIds(a: seq<User>, b: seq<User>, id: UserId)
    requires |a| == |b|
    requires forall k :: 0 <= k < |a| ==> a[k].id == b[k].id
    ensures FindUser(a, id) == FindUser(b, id)
  {
    if a != [] && a[0].id != id {
      FindUserSameIds(a[1..], b[1..], id);
    }
  }

  /** `findOne({ status: { $in: ['in_progress', 'waiting'] } })`. */
  function FirstActive(jackpots: seq<Jackpot>): (k: Option<JackpotId>)
    ensures k.Some? ==> k.value < |jackpots| && jackpots[k.value].status != Completed
    ensures k.Some? ==> forall j :: 0 <= j < k.value ==> jackpots[j].status == Completed
    ensures k.None? ==> forall j :: 0 <= j < |jackpots| ==> jackpots[j].status == Completed
  {
    if jackpots == [] then None
    else if jackpots[0].status != Completed then Some(0)
    else match FirstActive(jackpots[1..])
      case None => None
      case Some(i) => Some(i + 1)
  }

  /** `findOne({ status: 'in_progress' })`. */
  function FirstInProgress(jackpots: seq<Jackpot>): (k: Option<JackpotId>)
    ensures k.Some? ==> k.value < |jackpots| && jackpots[k.value].status == InProgress
    ensures k.Some? ==> forall j :: 0 <= j < k.value ==> jackpots[j].status != InProgress
    ensures k.None? ==> forall j :: 0 <= j < |jackpots| ==> jackpots[j].status != InProgress
  {
    if jackpots == [] then None
    else if jackpots[0].status == InProgress then Some(0)
    else match FirstInProgress(jackpots[1..])
      case None => None
      case Some(i) => Some(i + 1)
  }

  /** `Item.find({ _id: { $in: ids } })`: the stored items whose id is listed,
      in store order. */
  function FindItems(items: seq<Item>, ids: seq<ItemId>): (r: seq<Item>)
    ensures |r| <= |items|
    ensures forall x :: x in r <==> x in items && x.id in ids
  {
    if items == [] then []
    else (if items[0].id in ids then [items[0]] else []) + FindItems(items[1..], ids)
  }

  /** The first stored item with the given id. */
  function LookupItem(items: seq<Item>, id: ItemId): (r: Option<Item>)
    ensures r.Some? ==> r.value in items && r.value.id == id
    ensures r.None? ==> forall x :: x in items ==> x.id != id
  {
    if items == [] then None
    else if items[0].id == id then Some(items[0])
    else LookupItem(items[1..], id)
  }

  /** `populate` of an array of item ids: the referenced items in the order
      of the ids, dangling ids dropped. */
  function Populate(ids: seq<ItemId>, items: seq<Item>): (r: seq<Item>)
    ensures |r| <= |ids|
    ensures forall x :: x in r ==> x in items
  {
    if ids == [] then []
    else
      (match LookupItem(items, ids[0]) case None => [] case Some(x) => [x])
      + Populate(ids[1..], items)
  }

  /** Each id that resolves contributes its item; when none resolves the list
      is empty, and when all do it lists their items in the order of the ids. */
  lemma {:induction false} PopulateEachId(ids: seq<ItemId>, items: seq<Item>)
    ensures forall i :: i in ids && LookupItem(items, i).Some? ==> LookupItem(items, i).value in Populate(ids, items)
    ensures (forall i :: i in ids ==> LookupItem(items, i).None?) ==> Populate(ids, items) == []
    ensures (forall i :: i in ids ==> LookupItem(items, i).Some?) ==>
              |Populate(ids, items)| == |ids|
              && forall k :: 0 <= k < |ids| ==> Populate(ids, items)[k] == LookupItem(items, ids[k]).value
  {
    if ids != [] {
      PopulateEachId(ids[1..], items);
      assert forall i :: i in ids[1..] ==> i in ids;
      assert forall i :: i in ids ==> i == ids[0] || i in ids[1..];
    }
  }

  /** Populating a list of ids populates its parts in turn: the items come in
      the order of the ids, whichever of them resolve. */
  lemma {:induction false} PopulateAppend(a: seq<ItemId>, b: seq<ItemId>, items: seq<Item>)
    ensures Populate(a + b, items) == Populate(a, items) + Populate(b, items)
  {
    if a != [] {
      assert (a + b)[0] == a[0] && (a + b)[1..] == a[1..] + b;
      PopulateAppend(a[1..], b, items);
    } else {
      assert a + b == b;
    }
  }

  /** `items.map(item => item._id)`. */
  function Ids(items: seq<Item>): (r: seq<ItemId>)
    ensures |r| == |items|
    ensures forall k :: 0 <= k < |items| ==> r[k] == items[k].id
  {
    if items == [] then [] else [items[0].id] + Ids(items[1..])
  }

  /** Every stored price reads as a non-negative amount. */
  predicate PricesNonNegative(items: seq<Item>) {
    forall k :: 0 <= k < |items| ==> Prices.PriceValue(items[k].price) >= 0.0
  }

  predicate DistinctIds(items: seq<Item>) {
    forall i, j :: 0 <= i < j < |items| ==> items[i].id != items[j].id
  }

  /** In a store with distinct ids every stored item is what its id finds. */
  lemma LookupStored(items: seq<Item>, x: Item)
    requires DistinctIds(items) && x in items
    ensures LookupItem(items, x.id) == Some(x)
  {
    var k :| 0 <= k < |items| && items[k] == x;
    LookupAt(items, k);
  }

  lemma {:induction false} LookupAt(items: seq<Item>, k: nat)
    requires DistinctIds(items) && k < |items|
    ensures LookupItem(items, items[k].id) == Some(items[k])
  {
    if k > 0 {
      assert items[0].id != items[k].id;
      assert items[1..][k - 1] == items[k];
      LookupAt(items[1..], k - 1);
    }
  }

  /** Populating the ids of stored items gives those items back: the items
      a participant is recorded with are the items its join found. */
  lemma {:induction false} PopulateIds(found: seq<Item>, items: seq<Item>)
    requires DistinctIds(items)
    requires forall x :: x in found ==> x in items
    ensures Populate(Ids(found), items) == found
  {
    if found != [] {
      var ids := Ids(found);
      assert ids[0] == found[0].id && ids[1..] == Ids(found[1..]);
      LookupStored(items, found[0]);
      assert LookupItem(items, ids[0]) == Some(found[0]);
      PopulateIds(found[1..], items);
    }
  }

  /** `items.reduce((acc, item) => acc + parsed(item.price), 0)`, unparsable
      prices counting 0. */
  function SumPrices(items: seq<Item>): real {
    if items == [] then 0.0
    else SumPrices(items[..|items| - 1]) + Prices.PriceValue(items[|items| - 1].price)
  }

  /** A sum of prices none of which is negative is not negative. */
  lemma {:induction false} SumPricesNonNegative(s: seq<Item>)
    ensures PricesNonNegative(s) ==> SumPrices(s) >= 0.0
  {
    if s != [] {
      SumPricesNonNegative(s[..|s| - 1]);
    }
  }

  /** The value a participant staked, as `endRound` computes it from the
      populated items. */
  function Contribution(p: Participant, items: seq<Item>): (r: real)
    ensures PricesNonNegative(items) ==> r >= 0.0
  {
    var populated := Populate(p.items, items);
    NonNegativeMembers(populated, items);
    SumPricesNonNegative(populated);
    SumPrices(populated)
  }

  lemma NonNegativeMembers(s: seq<Item>, items: seq<Item>)
    requires forall x :: x in s ==> x in items
    ensures PricesNonNegative(items) ==> PricesNonNegative(s)
  {
    if PricesNonNegative(items) {
      forall i | 0 <= i < |s| ensures Prices.PriceValue(s[i].price) >= 0.0 {
        assert s[i] in s;
        var k :| 0 <= k < |items| && items[k] == s[i];
      }
    }
  }

  /** The sum of the contributions of the first participants. */
  function SumContributions(ps: seq<Participant>, items: seq<Item>): (r: real)
    ensures PricesNonNegative(items) ==> r >= 0.0
  {
    if ps == [] then 0.0
    else SumContributions(ps[..|ps| - 1], items) + Contribution(ps[|ps| - 1], items)
  }

  /** The running-sum invariant of a round: `totalValue` is the sum of the
      participants' contributions. */
  predicate RunningTotalHolds(j: Jackpot, items: seq<Item>) {
    j.totalValue == SumContributions(j.participants, items)
  }

  /** The in-memory document store. */
  class Db {
    var jackpots: seq<Jackpot>
    var users: seq<User>
    var items: seq<Item>
    /** The id `insertMany` gives the next item. */
    var nextItemId: ItemId

    ghost predicate Valid()
      reads this
    {
      && (forall k :: 0 <= k < |jackpots| ==> jackpots[k].id == k)
      && DistinctIds(items)
      && (forall k :: 0 <= k < |items| ==> items[k].id < nextItemId)
      && PricesNonNegative(items)
    }

    constructor (users: seq<User>)
      ensures Valid()
      ensures jackpots == [] && this.users == users && items == []
    {
      jackpots := [];
      this.users := users;
      items := [];
      nextItemId := 0;
    }

    /** Saves a fresh `waiting` round with no participants and a zero total. */
    method SaveNewJackpot() returns (id: JackpotId)
      requires Valid()
      modifies this
      ensures Valid()
      ensures id == |old(jackpots)| && jackpots == old(jackpots) + [NewJackpot(id)]
      ensures users == old(users) && items == old(items) && nextItemId == old(nextItemId)
    {
      id := |jackpots|;
      jackpots := jackpots + [NewJackpot(id)];
    }

    /** `Item.insertMany(drafts)`: the drafts are stored in order under
        fresh consecutive ids, which are returned. */
    method InsertMany(drafts: seq<ItemDraft>) returns (ids: seq<ItemId>)
      requires Valid()
      requires forall k :: 0 <= k < |drafts| ==> Prices.PriceValue(drafts[k].price) >= 0.0
      modifies this
      ensures Valid()
      ensures ids == Consecutive(|drafts|, old(nextItemId))
      ensures items == old(items) + Inserted(drafts, old(nextItemId))
      ensures nextItemId == old(nextItemId) + |drafts|
      ensures jackpots == old(jackpots) && users == old(users)
    {
      ids := Consecutive(|drafts|, nextItemId);
      items := items + Inserted(drafts, nextItemId);
      nextItemId := nextItemId + |drafts|;
    }

    /** `Item.deleteMany({ owner, assetId: { $in: assetIds } })`. */
    method DeleteOwnedAssets(owner: UserId, assetIds: set<string>)
      requires Valid()
      modifies this
      ensures Valid()
      ensures items == WithoutOwnedAssets(old(items), owner, assetIds)
      ensures jackpots == old(jackpots) && users == old(users) && nextItemId == old(nextItemId)
    {
      var kept := WithoutOwnedAssets(items, owner, assetIds);
      KeptItemsStayValid(items, kept, nextItemId);
      items := kept;
    }
  }

  /** Items drawn from a store keep its id bound and its non-negative prices. */
  lemma KeptItemsStayValid(items: seq<Item>, kept: seq<Item>, nextItemId: ItemId)
    requires forall x :: x in kept ==> x in items
    requires forall k :: 0 <= k < |items| ==> items[k].id < nextItemId
    requires PricesNonNegative(items)
    ensures forall k :: 0 <= k < |kept| ==> kept[k].id < nextItemId
    ensures PricesNonNegative(kept)
  {
    forall k | 0 <= k < |kept|
      ensures kept[k].id < nextItemId && Prices.PriceValue(kept[k].price) >= 0.0
    {
      assert kept[k] in items;
      var i :| 0 <= i < |items| && items[i] == kept[k];
    }
  }

  /** `count` consecutive ids from `first`. */
  function Consecutive(count: nat, first: ItemId): (r: seq<ItemId>)
    ensures |r| == count && forall k :: 0 <= k < count ==> r[k] == first + k
  {
    seq(count, k requires 0 <= k < count => first + k)
  }

  /** The documents `insertMany` stores for the drafts, under consecutive
      ids from `first`. */
  function Inserted(drafts: seq<ItemDraft>, first: ItemId): (r: seq<Item>)
    ensures |r| == |drafts|
    ensures forall k :: 0 <= k < |drafts| ==> r[k] == Materialize(drafts[k], first + k)
  {
    seq(|drafts|, k requires 0 <= k < |drafts| => Materialize(drafts[k], first + k))
  }

  /** The stored items that `deleteMany({ owner, assetId: { $in: assetIds } })`
      leaves, in store order. A store with distinct ids, bounded ids and
      non-negative prices keeps these properties. */
  function WithoutOwnedAssets(items: seq<Item>, owner: UserId, assetIds: set<string>): (r: seq<Item>)
    ensures forall x :: x in r <==> x in items && !(x.owner == owner && x.assetId in assetIds)
    ensures DistinctIds(items) ==> DistinctIds(r)
  {
    if items == [] then []
    else
      var rest := WithoutOwnedAssets(items[1..], owner, assetIds);
      if items[0].owner == owner && items[0].assetId in assetIds then rest
      else
        HeadIdNotInTail(items, rest);
        [items[0]] + rest
  }

  /** In a store with distinct ids, no item drawn from the tail shares the
      head's id. */
  lemma HeadIdNotInTail(items: seq<Item>, rest: seq<Item>)
    requires items != []
    requires forall x :: x in rest ==> x in items[1..]
    ensures DistinctIds(items) ==> forall x :: x in rest ==> x.id != items[0].id
  {
    if DistinctIds(items) {
      forall x | x in rest ensures x.id != items[0].id {
        var k :| 0 <= k < |items[1..]| && items[1..][k] == x;
        assert items[k + 1] == x;
      }
    }
  }
}
