/** The inventory sync of `GET /api/inventory` (routes/apiRoutes.js): the
    items stored for a user in the Rust app are brought in line with the
    assets Steam reports, stale ones deleted and new ones inserted, and the
    user's inventory list is rebuilt from them. */
module InventorySync {
  import opened Wrappers
  import opened Store
  import Prices
  import GetInventory

  type Group = GetInventory.Group

  /** The app and context the route syncs. */
  const RustAppId := 252490
  const RustContextId := 2

  datatype SyncResponse =
    | MissingSteamId                  // 400 'Missing SteamID64 parameter.'
    | NoInventory                     // 404 'No inventory found.'
    | UserNotFound                    // 404 'User not found.'
    | ServerError(message: string)    // 500, the thrown error's message
    | Synced(items: seq<Item>)        // the user's populated inventory

  /** The groups `getInventory(appId, steamID64, contextId)` reports for a
      response body (no `tradeable` argument, so no filtering). */
  function SteamGroups(body: GetInventory.Body, market: seq<GetInventory.MarketItem>): seq<Group> {
    GetInventory.InventoryOf(body, market, false).items
  }

  /** `new Set(inventory.items.flatMap(item => item.assetIds))`. */
  function SteamIds(groups: seq<Group>): set<string> {
    set a | a in GetInventory.Flat(groups)
  }

  predicate IsOwnedRust(x: Item, owner: UserId) {
    x.owner == owner && x.appId == RustAppId && x.contextId == RustContextId
  }

  /** `Item.find({ owner, appId, contextId })`, in store order. */
  function OwnedRustItems(items: seq<Item>, owner: UserId): (r: seq<Item>)
    ensures forall x :: x in r <==> x in items && IsOwnedRust(x, owner)
  {
    if items == [] then []
    else (if IsOwnedRust(items[0], owner) then [items[0]] else []) + OwnedRustItems(items[1..], owner)
  }

  /** `new Set(items.map(item => item.assetId))`. */
  function AssetIdSet(items: seq<Item>): set<string> {
    set x | x in items :: x.assetId
  }

  /** Asset ids stored for the user but no longer reported by Steam. */
  function StaleIds(items: seq<Item>, owner: UserId, groups: seq<Group>): set<string> {
    AssetIdSet(OwnedRustItems(items, owner)) - SteamIds(groups)
  }

  /** Asset ids reported by Steam but not yet stored for the user. */
  function FreshIds(items: seq<Item>, owner: UserId, groups: seq<Group>): set<string> {
    SteamIds(groups) - AssetIdSet(OwnedRustItems(items, owner))
  }

  /** The document a new asset of a group is stored as; its price text
      (`${price} USD`) reads back as the number extracted from the group's
      price. */
  function DraftOf(g: Group, assetId: string, owner: UserId): (d: ItemDraft)
    ensures d.assetId == assetId && d.owner == owner
    ensures d.appId == RustAppId && d.contextId == RustContextId
    ensures d.name == g.name && d.iconUrl == g.iconUrl
    ensures Prices.PriceValue(d.price) == Prices.ExtractedPrice(g.price) >= 0.0
  {
    Prices.StoredPriceReadsBack(g.price);
    ItemDraft(g.name, g.iconUrl, Prices.StoredPriceText(g.price), owner, assetId, RustAppId, RustContextId)
  }

  /** The removal set and the set of new asset ids never share an id. */
  lemma StaleAndFreshDisjoint(items: seq<Item>, owner: UserId, groups: seq<Group>)
    ensures StaleIds(items, owner, groups) * FreshIds(items, owner, groups) == {}
    ensures StaleIds(items, owner, groups) !! SteamIds(groups)
  {
  }

  /** The documents for the new ones among some asset ids of a group, in
      order. */
  function GroupRecords(g: Group, assetIds: seq<string>, newIds: set<string>, owner: UserId): (r: seq<ItemDraft>)
    ensures forall d :: d in r ==> d.assetId in assetIds && d.assetId in newIds && d == DraftOf(g, d.assetId, owner)
    ensures newIds == {} ==> r == []
  {
    if assetIds == [] then []
    else
      var last := assetIds[|assetIds| - 1];
      GroupRecords(g, assetIds[..|assetIds| - 1], newIds, owner) + (if last in newIds then [DraftOf(g, last, owner)] else [])
  }

  /** The `newItems` the route builds: group by group, asset by asset, a
      document for every asset id that is new. Each comes from a group that
      lists its asset id. */
  function NewItemRecords(groups: seq<Group>, newIds: set<string>, owner: UserId): (r: seq<ItemDraft>)
    ensures forall d :: d in r ==> d.assetId in newIds
    ensures forall j :: 0 <= j < |r| ==>
      r[j].owner == owner && r[j].appId == RustAppId && r[j].contextId == RustContextId && Prices.PriceValue(r[j].price) >= 0.0
    ensures newIds == {} ==> r == []
    ensures forall d :: d in r ==>
      exists k :: 0 <= k < |groups| && d.assetId in groups[k].assetIds && d == DraftOf(groups[k], d.assetId, owner)
  {
    if groups == [] then []
    else
      var init := groups[..|groups| - 1];
      var last := groups[|groups| - 1];
      var r := NewItemRecords(init, newIds, owner) + GroupRecords(last, last.assetIds, newIds, owner);
      assert forall k :: 0 <= k < |init| ==> init[k] == groups[k];
      r
  }

  /** The outer `forEach` that builds `newItems`, group by group. */
  method BuildNewItems(groups: seq<Group>, newIds: set<string>, owner: UserId) returns (drafts: seq<ItemDraft>)
    ensures drafts == NewItemRecords(groups, newIds, owner)
  {
    drafts := [];
    for i := 0 to |groups|
      invariant drafts == NewItemRecords(groups[..i], newIds, owner)
    {
      var records := BuildGroupRecords(groups[i], newIds, owner);
      drafts := drafts + records;
      assert groups[..i + 1][..i] == groups[..i];
    }
    assert groups[..|groups|] == groups;
  }

  /** The inner `forEach`: the documents for the new asset ids of one
      group. */
  method BuildGroupRecords(g: Group, newIds: set<string>, owner: UserId) returns (records: seq<ItemDraft>)
    ensures records == GroupRecords(g, g.assetIds, newIds, owner)
  {
    records := [];
    for j := 0 to |g.assetIds|
      invariant records == GroupRecords(g, g.assetIds[..j], newIds, owner)
    {
      assert g.assetIds[..j + 1][..j] == g.assetIds[..j];
      if g.assetIds[j] in newIds {
        records := records + [DraftOf(g, g.assetIds[j], owner)];
      }
    }
    assert g.assetIds[..|g.assetIds|] == g.assetIds;
  }

  /** The elements of `s` that are in `keep`, in order. */
  function Keep(s: seq<string>, keep: set<string>): (r: seq<string>)
    ensures forall a :: a in r <==> a in s && a in keep
  {
    if s == [] then []
    else Keep(s[..|s| - 1], keep) + (if s[|s| - 1] in keep then [s[|s| - 1]] else [])
  }

  function DraftAssetIds(drafts: seq<ItemDraft>): (r: seq<string>)
    ensures |r| == |drafts| && forall k :: 0 <= k < |drafts| ==> r[k] == drafts[k].assetId
  {
    seq(|drafts|, k requires 0 <= k < |drafts| => drafts[k].assetId)
  }

  lemma DraftAssetIdsAppend(a: seq<ItemDraft>, b: seq<ItemDraft>)
    ensures DraftAssetIds(a + b) == DraftAssetIds(a) + DraftAssetIds(b)
  {
  }

  lemma {:induction false} KeepAppend(s: seq<string>, t: seq<string>, keep: set<string>)
    ensures Keep(s + t, keep) == Keep(s, keep) + Keep(t, keep)
  {
    if t != [] {
      assert (s + t)[..|s + t| - 1] == s + t[..|t| - 1];
      KeepAppend(s, t[..|t| - 1], keep);
    } else {
      assert s + t == s;
    }
  }

  lemma {:induction false} GroupRecordIds(g: Group, assetIds: seq<string>, newIds: set<string>, owner: UserId)
    ensures DraftAssetIds(GroupRecords(g, assetIds, newIds, owner)) == Keep(assetIds, newIds)
  {
    if assetIds != [] {
      var last := assetIds[|assetIds| - 1];
      GroupRecordIds(g, assetIds[..|assetIds| - 1], newIds, owner);
      DraftAssetIdsAppend(GroupRecords(g, assetIds[..|assetIds| - 1], newIds, owner),
                          if last in newIds then [DraftOf(g, last, owner)] else []);
    }
  }

  /** The asset ids of the new documents are exactly Steam's asset ids
      that are new, in Steam's order and with Steam's repetitions. */
  lemma {:induction false} RecordAssetIds(groups: seq<Group>, newIds: set<string>, owner: UserId)
    ensures DraftAssetIds(NewItemRecords(groups, newIds, owner)) == Keep(GetInventory.Flat(groups), newIds)
  {
    if groups != [] {
      var init := groups[..|groups| - 1];
      var last := groups[|groups| - 1];
      RecordAssetIds(init, newIds, owner);
      GroupRecordIds(last, last.assetIds, newIds, owner);
      DraftAssetIdsAppend(NewItemRecords(init, newIds, owner), GroupRecords(last, last.assetIds, newIds, owner));
      KeepAppend(GetInventory.Flat(init), last.assetIds, newIds);
    }
  }

  /** The item store after a sync for `owner`: stale assets deleted, new
      ones appended. */
  function SyncedItems(items: seq<Item>, first: ItemId, owner: UserId, groups: seq<Group>): (r: seq<Item>)
    ensures forall x: Item :: x.owner != owner ==> (x in r <==> x in items)
  {
    var stale := StaleIds(items, owner, groups);
    var kept := if stale == {} then items else WithoutOwnedAssets(items, owner, stale);
    kept + Inserted(NewItemRecords(groups, FreshIds(items, owner, groups), owner), first)
  }

  /** `user.inventory.filter(...)`: the ids whose item, looked up among the
      user's Rust items as they were before the deletion, is still reported
      by Steam. */
  function KeptInventory(inventory: seq<ItemId>, owned: seq<Item>, steam: set<string>): (r: seq<ItemId>)
    ensures forall id :: id in r <==>
      id in inventory && LookupItem(owned, id).Some? && LookupItem(owned, id).value.assetId in steam
  {
    if inventory == [] then []
    else
      var found := LookupItem(owned, inventory[0]);
      (if found.Some? && found.value.assetId in steam then [inventory[0]] else [])
      + KeptInventory(inventory[1..], owned, steam)
  }

  /** The user's inventory list after a sync: the kept ids, then the ids of
      the inserted documents. */
  function SyncedInventory(inventory: seq<ItemId>, items: seq<Item>, first: ItemId, owner: UserId, groups: seq<Group>): (r: seq<ItemId>)
    ensures forall id :: id in r ==> id in inventory || first <= id
  {
    KeptInventory(inventory, OwnedRustItems(items, owner), SteamIds(groups))
    + Consecutive(|NewItemRecords(groups, FreshIds(items, owner, groups), owner)|, first)
  }

  /** The state a successful sync of the user with this Steam id leaves. */
  ghost predicate SyncedTo(users: seq<User>, items: seq<Item>, first: ItemId, steamId: string, groups: seq<Group>,
                           users': seq<User>, items': seq<Item>, response: SyncResponse)
  {
    && FindUserBySteamId(users, steamId).Some?
    && var k := FindUserBySteamId(users, steamId).value;
       var u := users[k];
       && items' == SyncedItems(items, first, u.id, groups)
       && users' == users[k := u.(inventory := SyncedInventory(u.inventory, items, first, u.id, groups))]
       && response == Synced(Populate(users'[k].inventory, items'))
  }

  /** `GET /api/inventory` for the signed-in user `steamId` (empty when
      absent); `fetched` is the outcome of the Steam request and `market`
      the price list. */
  method SyncInventory(db: Db, steamId: string, fetched: Result<GetInventory.Body, string>,
                       market: seq<GetInventory.MarketItem>) returns (response: SyncResponse)
    requires db.Valid()
    modifies db
    ensures db.Valid()
    ensures db.jackpots == old(db.jackpots)
    ensures steamId == "" ==> response == MissingSteamId
    ensures steamId != "" && fetched.Failure? ==> response == ServerError(fetched.error)
    ensures steamId != "" && fetched.Success? && SteamGroups(fetched.value, market) == [] ==> response == NoInventory
    ensures (steamId != "" && fetched.Success? && SteamGroups(fetched.value, market) != []
             && FindUserBySteamId(old(db.users), steamId).None?) ==> response == UserNotFound
    ensures !response.Synced? ==> db.items == old(db.items) && db.users == old(db.users) && db.nextItemId == old(db.nextItemId)
    ensures response.Synced? ==>
      && steamId != "" && fetched.Success? && SteamGroups(fetched.value, market) != []
      && SyncedTo(old(db.users), old(db.items), old(db.nextItemId), steamId, SteamGroups(fetched.value, market),
                  db.users, db.items, response)
  {
    if steamId == "" {
      return MissingSteamId;
    }
    var inventory := GetInventory.GetInventory(GetInventory.JsNumber(RustAppId), GetInventory.JsString(steamId),
                                               GetInventory.JsNumber(RustContextId), GetInventory.JsUndefined, fetched, market);
    if inventory.Failure? {
      return ServerError(inventory.error);
    }
    var groups := inventory.value.items;
    if |groups| == 0 {
      return NoInventory;
    }
    var found := FindUserBySteamId(db.users, steamId);
    if found.None? {
      return UserNotFound;
    }
    response := SyncUser(db, found.value, groups);
  }

  /** The sync proper, once the user (at index `k`) and Steam's groups are
      known: the item store is brought in line and the user's inventory list
      rebuilt and saved. */
  method SyncUser(db: Db, k: nat, groups: seq<Group>) returns (response: SyncResponse)
    requires db.Valid() && k < |db.users|
    requires FindUserBySteamId(db.users, db.users[k].steamId) == Some(k)
    modifies db
    ensures db.Valid()
    ensures db.jackpots == old(db.jackpots)
    ensures var u := old(db.users)[k];
      && db.items == SyncedItems(old(db.items), old(db.nextItemId), u.id, groups)
      && db.users == old(db.users)[k := u.(inventory := SyncedInventory(u.inventory, old(db.items), old(db.nextItemId), u.id, groups))]
    ensures response == Synced(Populate(db.users[k].inventory, db.items))
  {
    var user := db.users[k];
    var dbItems := OwnedRustItems(db.items, user.id);
    var insertedIds := SyncItems(db, user.id, groups);
    var inventoryIds := KeptInventory(user.inventory, dbItems, SteamIds(groups)) + insertedIds;
    db.users := db.users[k := user.(inventory := inventoryIds)];
    var saved := FindUserBySteamId(db.users, user.steamId);
    assert db.users[k].steamId == user.steamId;
    response := Synced(Populate(db.users[saved.value].inventory, db.items));
  }

  /** The deletion of stale and insertion of new item documents; returns
      the ids the new documents were stored under. */
  method SyncItems(db: Db, owner: UserId, groups: seq<Group>) returns (insertedIds: seq<ItemId>)
    requires db.Valid()
    modifies db
    ensures db.Valid()
    ensures db.jackpots == old(db.jackpots) && db.users == old(db.users)
    ensures db.items == SyncedItems(old(db.items), old(db.nextItemId), owner, groups)
    ensures insertedIds == Consecutive(|NewItemRecords(groups, FreshIds(old(db.items), owner, groups), owner)|, old(db.nextItemId))
  {
    ghost var items0, first := db.items, db.nextItemId;
    var steamIds := SteamIds(groups);
    var dbAssetIds := AssetIdSet(OwnedRustItems(db.items, owner));
    RemoveStale(db, owner, dbAssetIds - steamIds);
    ghost var kept := db.items;
    var newAssetIds := steamIds - dbAssetIds;
    var drafts := BuildNewItems(groups, newAssetIds, owner);
    if |drafts| > 0 {
      insertedIds := db.InsertMany(drafts);
    } else {
      insertedIds := [];
      assert db.items == kept + Inserted(drafts, first);
    }
  }

  /** `if (assetIdsToRemove.length > 0) Item.deleteMany(...)`: the user's
      items with an asset id in `toRemove` are deleted, and nothing is done
      when there are none. */
  method RemoveStale(db: Db, owner: UserId, toRemove: set<string>)
    requires db.Valid()
    modifies db
    ensures db.Valid()
    ensures db.jackpots == old(db.jackpots) && db.users == old(db.users) && db.nextItemId == old(db.nextItemId)
    ensures db.items == if toRemove == {} then old(db.items) else WithoutOwnedAssets(old(db.items), owner, toRemove)
  {
    if toRemove != {} {
      db.DeleteOwnedAssets(owner, toRemove);
    }
  }

  /** What a sync keeps and adds: a stored item survives unless it is the
      user's and its asset id is stale (in any app, as `deleteMany` does not
      filter on the app); every other item in the new store is a new
      document of the user's, for a fresh asset id, with an id from
      `first` on. */
  lemma SyncedMembers(items: seq<Item>, first: ItemId, owner: UserId, groups: seq<Group>)
    ensures forall x :: x in items && !(x.owner == owner && x.assetId in StaleIds(items, owner, groups)) ==>
      x in SyncedItems(items, first, owner, groups)
    ensures forall x :: x in SyncedItems(items, first, owner, groups) ==>
      || (x in items && !(x.owner == owner && x.assetId in StaleIds(items, owner, groups)))
      || (IsOwnedRust(x, owner) && x.assetId in FreshIds(items, owner, groups) && x.id >= first)
  {
    var drafts := NewItemRecords(groups, FreshIds(items, owner, groups), owner);
    var added := Inserted(drafts, first);
    forall x | x in added
      ensures IsOwnedRust(x, owner) && x.assetId in FreshIds(items, owner, groups) && x.id >= first
    {
      var k :| 0 <= k < |added| && added[k] == x;
      assert drafts[k] in drafts;
    }
  }

  /** After a sync the asset ids stored for the user in the Rust app are
      exactly the asset ids Steam reported: nothing stale is left and
      nothing reported is missing. */
  lemma SyncedOwnedAssets(items: seq<Item>, first: ItemId, owner: UserId, groups: seq<Group>)
    ensures AssetIdSet(OwnedRustItems(SyncedItems(items, first, owner, groups), owner)) == SteamIds(groups)
  {
    NoStaleAfterSync(items, first, owner, groups);
    NothingMissingAfterSync(items, first, owner, groups);
  }

  lemma NoStaleAfterSync(items: seq<Item>, first: ItemId, owner: UserId, groups: seq<Group>)
    ensures AssetIdSet(OwnedRustItems(SyncedItems(items, first, owner, groups), owner)) <= SteamIds(groups)
  {
    var synced := SyncedItems(items, first, owner, groups);
    SyncedMembers(items, first, owner, groups);
    forall a | a in AssetIdSet(OwnedRustItems(synced, owner))
      ensures a in SteamIds(groups)
    {
      var x :| x in OwnedRustItems(synced, owner) && x.assetId == a;
      if x in items && !(x.owner == owner && x.assetId in StaleIds(items, owner, groups)) {
        assert x in OwnedRustItems(items, owner);
      }
    }
  }

  lemma NothingMissingAfterSync(items: seq<Item>, first: ItemId, owner: UserId, groups: seq<Group>)
    ensures SteamIds(groups) <= AssetIdSet(OwnedRustItems(SyncedItems(items, first, owner, groups), owner))
  {
    forall a | a in SteamIds(groups)
      ensures a in AssetIdSet(OwnedRustItems(SyncedItems(items, first, owner, groups), owner))
    {
      if a in AssetIdSet(OwnedRustItems(items, owner)) {
        StoredAssetKept(items, first, owner, groups, a);
      } else {
        FreshAssetStored(items, first, owner, groups, a);
      }
    }
  }

  lemma StoredAssetKept(items: seq<Item>, first: ItemId, owner: UserId, groups: seq<Group>, a: string)
    requires a in SteamIds(groups) && a in AssetIdSet(OwnedRustItems(items, owner))
    ensures a in AssetIdSet(OwnedRustItems(SyncedItems(items, first, owner, groups), owner))
  {
    var synced := SyncedItems(items, first, owner, groups);
    SyncedMembers(items, first, owner, groups);
    var x :| x in OwnedRustItems(items, owner) && x.assetId == a;
    assert x in synced;
    assert x in OwnedRustItems(synced, owner);
  }

  lemma FreshAssetStored(items: seq<Item>, first: ItemId, owner: UserId, groups: seq<Group>, a: string)
    requires a in FreshIds(items, owner, groups)
    ensures a in AssetIdSet(OwnedRustItems(SyncedItems(items, first, owner, groups), owner))
  {
    var newIds := FreshIds(items, owner, groups);
    var drafts := NewItemRecords(groups, newIds, owner);
    RecordAssetIds(groups, newIds, owner);
    assert a in Keep(GetInventory.Flat(groups), newIds);
    var k :| 0 <= k < |drafts| && DraftAssetIds(drafts)[k] == a;
    var stale := StaleIds(items, owner, groups);
    var kept := if stale == {} then items else WithoutOwnedAssets(items, owner, stale);
    InsertedDraftOwned(kept, drafts, first, owner, k);
  }

  /** The k-th inserted document, when its draft is the owner's in the Rust
      app, puts its asset id among the owner's Rust asset ids. */
  lemma InsertedDraftOwned(kept: seq<Item>, drafts: seq<ItemDraft>, first: ItemId, owner: UserId, k: nat)
    requires k < |drafts|
    requires drafts[k].owner == owner && drafts[k].appId == RustAppId && drafts[k].contextId == RustContextId
    ensures drafts[k].assetId in AssetIdSet(OwnedRustItems(kept + Inserted(drafts, first), owner))
  {
    var all := kept + Inserted(drafts, first);
    var x := Materialize(drafts[k], first + k);
    assert all[|kept| + k] == x;
    assert x in OwnedRustItems(all, owner);
  }

  /** Every id on the user's rebuilt inventory list names an item of the
      new store that is the user's, in the Rust app, for an asset Steam
      reported. */
  lemma SyncedInventoryResolves(inventory: seq<ItemId>, items: seq<Item>, first: ItemId, owner: UserId, groups: seq<Group>)
    ensures forall id :: id in SyncedInventory(inventory, items, first, owner, groups) ==>
      exists x :: x in SyncedItems(items, first, owner, groups) && x.id == id
        && IsOwnedRust(x, owner) && x.assetId in SteamIds(groups)
  {
    var synced := SyncedItems(items, first, owner, groups);
    var drafts := NewItemRecords(groups, FreshIds(items, owner, groups), owner);
    var kept := KeptInventory(inventory, OwnedRustItems(items, owner), SteamIds(groups));
    SyncedMembers(items, first, owner, groups);
    forall id | id in SyncedInventory(inventory, items, first, owner, groups)
      ensures exists x :: x in synced && x.id == id && IsOwnedRust(x, owner) && x.assetId in SteamIds(groups)
    {
      if id in kept {
        var x := LookupItem(OwnedRustItems(items, owner), id).value;
        assert x in synced;
      } else {
        var k :| 0 <= k < |drafts| && Consecutive(|drafts|, first)[k] == id;
        var x := Inserted(drafts, first)[k];
        assert drafts[k] in drafts;
        assert x in synced;
      }
    }
  }

  lemma {:induction false} PopulateResolved(ids: seq<ItemId>, items: seq<Item>)
    requires forall id :: id in ids ==> exists x :: x in items && x.id == id
    ensures |Populate(ids, items)| == |ids|
    ensures forall x :: x in Populate(ids, items) ==> x.id in ids
  {
    if ids != [] {
      assert ids[0] in ids;
      assert forall id :: id in ids[1..] ==> id in ids;
      PopulateResolved(ids[1..], items);
    }
  }

  /** In a store with distinct ids the response of a sync lists one item
      per id of the user's inventory list, each the user's, in the Rust
      app, for an asset Steam reported. */
  lemma SyncedResponse(inventory: seq<ItemId>, items: seq<Item>, first: ItemId, owner: UserId, groups: seq<Group>)
    requires DistinctIds(SyncedItems(items, first, owner, groups))
    ensures var inventory' := SyncedInventory(inventory, items, first, owner, groups);
      var response := Populate(inventory', SyncedItems(items, first, owner, groups));
      && |response| == |inventory'|
      && forall x :: x in response ==> IsOwnedRust(x, owner) && x.assetId in SteamIds(groups)
  {
    var synced := SyncedItems(items, first, owner, groups);
    var inventory' := SyncedInventory(inventory, items, first, owner, groups);
    SyncedInventoryResolves(inventory, items, first, owner, groups);
    PopulateResolved(inventory', synced);
    forall x | x in Populate(inventory', synced)
      ensures IsOwnedRust(x, owner) && x.assetId in SteamIds(groups)
    {
      var y :| y in synced && y.id == x.id && IsOwnedRust(y, owner) && y.assetId in SteamIds(groups);
      LookupStored(synced, x);
      LookupStored(synced, y);
    }
  }

  /** Syncing again against the same Steam inventory deletes and inserts
      nothing. */
  lemma ResyncChangesNothing(items: seq<Item>, first: ItemId, first': ItemId, owner: UserId, groups: seq<Group>)
    ensures var synced := SyncedItems(items, first, owner, groups);
      SyncedItems(synced, first', owner, groups) == synced
  {
    var synced := SyncedItems(items, first, owner, groups);
    SyncedOwnedAssets(items, first, owner, groups);
    assert StaleIds(synced, owner, groups) == {};
    assert FreshIds(synced, owner, groups) == {};
    var drafts := NewItemRecords(groups, {}, owner);
    assert synced + Inserted(drafts, first') == synced;
  }

  lemma {:induction false} KeepDistinct(s: seq<string>, keep: set<string>)
    requires forall i, j :: 0 <= i < j < |s| ==> s[i] != s[j]
    ensures forall i, j :: 0 <= i < j < |Keep(s, keep)| ==> Keep(s, keep)[i] != Keep(s, keep)[j]
  {
    if s != [] {
      var init := s[..|s| - 1];
      KeepDistinct(init, keep);
      assert s[|s| - 1] !in init;
    }
  }

  /** When Steam lists every asset id once, no two new documents share an
      asset id. */
  lemma OneRecordPerNewAsset(groups: seq<Group>, newIds: set<string>, owner: UserId)
    requires var flat := GetInventory.Flat(groups); forall i, j :: 0 <= i < j < |flat| ==> flat[i] != flat[j]
    ensures var records := NewItemRecords(groups, newIds, owner);
      forall i, j :: 0 <= i < j < |records| ==> records[i].assetId != records[j].assetId
  {
    RecordAssetIds(groups, newIds, owner);
    KeepDistinct(GetInventory.Flat(groups), newIds);
  }
}
