/** utils/getInventory.js: argument defaulting and the grouping of a Steam
    inventory response (assets and their descriptions) into one record per
    market name, priced from the market price list. The HTTP response body
    and the price list are inputs. */
module GetInventory {
  import opened Wrappers
  import JsNumbers

  /** The JavaScript values an argument of `getInventory` can hold; numbers
      are integers or NaN. */
  datatype JsValue = JsUndefined | JsNull | JsBool(b: bool) | JsNumber(n: int) | JsNaN | JsString(s: string)

  predicate Truthy(v: JsValue) {
    match v
    case JsUndefined => false
    case JsNull => false
    case JsBool(b) => b
    case JsNumber(n) => n != 0
    case JsNaN => false
    case JsString(s) => s != ""
  }

  /** `typeof v === 'number'`. */
  predicate IsNumber(v: JsValue) {
    v.JsNumber? || v.JsNaN?
  }

  const DefaultAppId := 730
  const DefaultContextId := 2
  const MissingSteamId := "SteamID is required"

  datatype Args = Args(appid: JsValue, steamid: JsValue, contextid: JsValue, tradeable: bool)

  /** The defaulting at the top of `getInventory`: a non-number app id
      becomes 730, an omitted context id 2 and a string one its
      `parseInt`, any non-boolean `tradeable` false; a falsy Steam id is
      refused before any request is made. */
  function NormalizeArgs(appid: JsValue, steamid: JsValue, contextid: JsValue, tradeable: JsValue): (r: Result<Args, string>)
    ensures r.Failure? <==> !Truthy(steamid)
    ensures r.Failure? ==> r.error == MissingSteamId
    ensures r.Success? ==> r.value.steamid == steamid
    ensures r.Success? ==> IsNumber(r.value.appid) && (IsNumber(appid) ==> r.value.appid == appid)
    ensures r.Success? ==> !IsNumber(appid) ==> r.value.appid == JsNumber(DefaultAppId)
    ensures r.Success? ==> !r.value.contextid.JsString? && !r.value.contextid.JsUndefined?
    ensures r.Success? ==> contextid.JsString? ==>
      (JsNumbers.ParseInt(contextid.s).Some? ==> r.value.contextid == JsNumber(JsNumbers.ParseInt(contextid.s).value))
      && (JsNumbers.ParseInt(contextid.s).None? ==> r.value.contextid == JsNaN)
    ensures r.Success? ==> !contextid.JsString? && !contextid.JsUndefined? ==> r.value.contextid == contextid
    ensures r.Success? ==> (r.value.tradeable <==> tradeable == JsBool(true))
  {
    var appid' := if IsNumber(appid) then appid else JsNumber(DefaultAppId);
    var contextid' :=
      match contextid
      case JsUndefined => JsNumber(DefaultContextId)
      case JsString(s) => (match JsNumbers.ParseInt(s) case Some(n) => JsNumber(n) case None => JsNaN)
      case _ => contextid;
    var tradeable' := if tradeable.JsBool? then tradeable.b else false;
    if !Truthy(steamid) then Failure(MissingSteamId)
    else Success(Args(appid', steamid, contextid', tradeable'))
  }

  datatype Asset = Asset(assetid: string, classid: string, instanceid: string)
  datatype Description = Description(classid: string, instanceid: string, marketHashName: string, iconUrl: string)
  /** An entry of the market price list. */
  datatype MarketItem = MarketItem(name: string, price: string)
  /** The response body; an absent (or null) list is `None`. */
  datatype Body = Body(assets: Option<seq<Asset>>, descriptions: Option<seq<Description>>)

  /** One record of `groupedItems`. */
  datatype Group = Group(name: string, iconUrl: string, price: string, quantity: nat, assetIds: seq<string>)

  /** What `getInventory` returns (the raw body aside). */
  datatype Inventory = Inventory(items: seq<Group>, marketnames: seq<string>, assets: seq<string>, assetids: seq<string>)

  const IconBase := "https://steamcommunity-a.akamaihd.net/economy/image/"
  const NoMarketPrice := "0 USD"

  predicate Describes(d: Description, a: Asset) {
    d.classid == a.classid && d.instanceid == a.instanceid
  }

  /** `items.find(...)`: the first description with the asset's class and
      instance ids. */
  function FindDescription(descs: seq<Description>, a: Asset): (r: Option<nat>)
    ensures r.Some? ==> r.value < |descs| && Describes(descs[r.value], a)
    ensures r.Some? ==> forall j :: 0 <= j < r.value ==> !Describes(descs[j], a)
    ensures r.None? ==> forall j :: 0 <= j < |descs| ==> !Describes(descs[j], a)
  {
    if descs == [] then None
    else if Describes(descs[0], a) then Some(0)
    else match FindDescription(descs[1..], a)
      case None => None
      case Some(i) => Some(i + 1)
  }

  /** The market name an asset is grouped under, if it has a description. */
  function NameOf(descs: seq<Description>, a: Asset): Option<string> {
    match FindDescription(descs, a)
    case None => None
    case Some(k) => Some(descs[k].marketHashName)
  }

  /** The first position of `name` in `names`, if any. */
  function IndexOfName(names: seq<string>, name: string): (r: Option<nat>)
    ensures r.Some? ==> r.value < |names| && names[r.value] == name
    ensures r.Some? ==> forall j :: 0 <= j < r.value ==> names[j] != name
    ensures r.None? ==> forall j :: 0 <= j < |names| ==> names[j] != name
  {
    if names == [] then None
    else if names[0] == name then Some(0)
    else match IndexOfName(names[1..], name)
      case None => None
      case Some(i) => Some(i + 1)
  }

  /** `list.map(x => x.name)` for the name field `nameOf` picks. */
  function NamesOf<T>(s: seq<T>, nameOf: T -> string): (r: seq<string>)
    ensures |r| == |s| && forall k :: 0 <= k < |s| ==> r[k] == nameOf(s[k])
  {
    seq(|s|, k requires 0 <= k < |s| => nameOf(s[k]))
  }

  /** `rustMarketItems.find(...)`: the first price-list entry with the name. */
  function FindMarketItem(market: seq<MarketItem>, name: string): (r: Option<nat>)
    ensures r.Some? ==> r.value < |market| && market[r.value].name == name
    ensures r.Some? ==> forall j :: 0 <= j < r.value ==> market[j].name != name
    ensures r.None? ==> forall j :: 0 <= j < |market| ==> market[j].name != name
  {
    IndexOfName(NamesOf(market, (m: MarketItem) => m.name), name)
  }

  /** The price a new group gets: the first price-list entry's, or "0 USD". */
  function MarketPrice(market: seq<MarketItem>, name: string): string {
    match FindMarketItem(market, name)
    case None => NoMarketPrice
    case Some(k) => market[k].price
  }

  /** `groupedItems[name]`: the index of the group with that name. */
  function FindGroup(groups: seq<Group>, name: string): (r: Option<nat>)
    ensures r.Some? ==> r.value < |groups| && groups[r.value].name == name
    ensures r.Some? ==> forall j :: 0 <= j < r.value ==> groups[j].name != name
    ensures r.None? ==> forall j :: 0 <= j < |groups| ==> groups[j].name != name
  {
    if groups == [] then None
    else if groups[0].name == name then Some(0)
    else match FindGroup(groups[1..], name)
      case None => None
      case Some(i) => Some(i + 1)
  }

  /** One pass of the grouping loop: an asset with a description joins the
      group of its market name, which is created (empty, priced from the
      list) the first time the name is seen. */
  function AddAsset(groups: seq<Group>, a: Asset, descs: seq<Description>, market: seq<MarketItem>): (r: seq<Group>)
    ensures FindDescription(descs, a).None? ==> r == groups
    ensures |groups| <= |r| <= |groups| + 1
    ensures forall k :: 0 <= k < |groups| ==> r[k].name == groups[k].name
  {
    match FindDescription(descs, a)
    case None => groups
    case Some(d) =>
      var name := descs[d].marketHashName;
      var (gs, k) :=
        match FindGroup(groups, name)
        case None => (groups + [Group(name, IconBase + descs[d].iconUrl, MarketPrice(market, name), 0, [])], |groups|)
        case Some(k) => (groups, k);
      gs[k := gs[k].(quantity := gs[k].quantity + 1, assetIds := gs[k].assetIds + [a.assetid])]
  }

  /** The groups after the loop has visited `assets`, in creation order
      (the order `Object.values` and `Object.keys` report). */
  function Grouped(assets: seq<Asset>, descs: seq<Description>, market: seq<MarketItem>): (r: seq<Group>)
    ensures |r| <= |assets|
  {
    if assets == [] then []
    else AddAsset(Grouped(assets[..|assets| - 1], descs, market), assets[|assets| - 1], descs, market)
  }

  /** `flatMap(item => item.assetIds)`. */
  function Flat(groups: seq<Group>): seq<string> {
    if groups == [] then [] else Flat(groups[..|groups| - 1]) + groups[|groups| - 1].assetIds
  }

  /** `Object.keys(groupedItems)`: the group names in creation order. */
  function Names(groups: seq<Group>): (r: seq<string>)
    ensures |r| == |groups| && forall k :: 0 <= k < |groups| ==> r[k] == groups[k].name
  {
    NamesOf(groups, (g: Group) => g.name)
  }

  function AssetIdsOf(assets: seq<Asset>): (r: seq<string>)
    ensures |r| == |assets| && forall k :: 0 <= k < |assets| ==> r[k] == assets[k].assetid
  {
    seq(|assets|, k requires 0 <= k < |assets| => assets[k].assetid)
  }

  /** The ids of the assets grouped under `name`, in asset order. */
  function NamedAssetIds(assets: seq<Asset>, descs: seq<Description>, name: string): seq<string> {
    if assets == [] then []
    else
      var last := assets[|assets| - 1];
      NamedAssetIds(assets[..|assets| - 1], descs, name) + (if NameOf(descs, last) == Some(name) then [last.assetid] else [])
  }

  /** The ids of the assets that have a description, in asset order. */
  function DescribedIds(assets: seq<Asset>, descs: seq<Description>): (r: seq<string>)
    ensures |r| <= |assets|
  {
    if assets == [] then []
    else
      var last := assets[|assets| - 1];
      DescribedIds(assets[..|assets| - 1], descs) + (if NameOf(descs, last).Some? then [last.assetid] else [])
  }

  /** The grouping loop of `getInventory`. */
  method GroupAssets(assets: seq<Asset>, descs: seq<Description>, market: seq<MarketItem>) returns (groups: seq<Group>)
    ensures groups == Grouped(assets, descs, market)
  {
    groups := [];
    for i := 0 to |assets|
      invariant groups == Grouped(assets[..i], descs, market)
    {
      var a := assets[i];
      ghost var before := groups;
      var d := FindDescription(descs, a);
      if d.Some? {
        var name := descs[d.value].marketHashName;
        var found := FindGroup(groups, name);
        var k: nat;
        if found.None? {
          groups := groups + [Group(name, IconBase + descs[d.value].iconUrl, MarketPrice(market, name), 0, [])];
          k := |groups| - 1;
        } else {
          k := found.value;
        }
        groups := groups[k := groups[k].(quantity := groups[k].quantity + 1, assetIds := groups[k].assetIds + [a.assetid])];
      }
      assert groups == AddAsset(before, a, descs, market);
      assert assets[..i + 1][..i] == assets[..i];
    }
    assert assets[..|assets|] == assets;
  }

  /** The inventory `getInventory` returns for a response body; with
      `tradeable` the records are filtered on a `tradable` field they never
      carry, so none is left. */
  function InventoryOf(body: Body, market: seq<MarketItem>, tradeable: bool): Inventory {
    var assets := if body.assets.Some? then body.assets.value else [];
    var descs := if body.descriptions.Some? then body.descriptions.value else [];
    var groups := Grouped(assets, descs, market);
    Inventory(if tradeable then [] else groups, Names(groups), AssetIdsOf(assets), Flat(groups))
  }

  /** `getInventory(appid, steamid, contextid, tradeable)`; `fetched` is the
      outcome of the HTTP request (its error is rethrown). */
  method GetInventory(appid: JsValue, steamid: JsValue, contextid: JsValue, tradeable: JsValue,
                      fetched: Result<Body, string>, market: seq<MarketItem>)
    returns (r: Result<Inventory, string>)
    ensures !Truthy(steamid) ==> r == Failure(MissingSteamId)
    ensures Truthy(steamid) && fetched.Failure? ==> r == Failure(fetched.error)
    ensures Truthy(steamid) && fetched.Success? ==>
      r == Success(InventoryOf(fetched.value, market, tradeable == JsBool(true)))
  {
    var args := NormalizeArgs(appid, steamid, contextid, tradeable);
    if args.Failure? {
      return Failure(args.error);
    }
    if fetched.Failure? {
      return Failure(fetched.error);
    }
    var body := fetched.value;
    var assets := if body.assets.Some? then body.assets.value else [];
    var descs := if body.descriptions.Some? then body.descriptions.value else [];
    if |assets| == 0 {
      return Success(Inventory([], [], [], []));
    }
    var groups := GroupAssets(assets, descs, market);
    var data := Inventory(groups, Names(groups), AssetIdsOf(assets), Flat(groups));
    if args.value.tradeable {
      data := data.(items := []);
    }
    return Success(data);
  }

  /** Without assets every part of the inventory is empty. */
  lemma NoAssetsNoInventory(body: Body, market: seq<MarketItem>, tradeable: bool)
    requires body.assets.None? || body.assets.value == []
    ensures InventoryOf(body, market, tradeable) == Inventory([], [], [], [])
  {
  }

  /** The shape every grouping keeps: distinct names, `quantity` counting
      the asset ids, and the price of the name in the price list. */
  ghost predicate WellGrouped(groups: seq<Group>, market: seq<MarketItem>) {
    && (forall i, j :: 0 <= i < j < |groups| ==> groups[i].name != groups[j].name)
    && (forall k :: 0 <= k < |groups| ==> groups[k].quantity == |groups[k].assetIds| > 0)
    && (forall k :: 0 <= k < |groups| ==> groups[k].price == MarketPrice(market, groups[k].name))
  }

  lemma AddAssetWellGrouped(groups: seq<Group>, a: Asset, descs: seq<Description>, market: seq<MarketItem>)
    requires WellGrouped(groups, market)
    ensures WellGrouped(AddAsset(groups, a, descs, market), market)
  {
  }

  /** Group names are distinct, each `quantity` is the (positive) number of
      asset ids its group holds, and each price is the first price-list entry for the
      name or "0 USD". */
  lemma {:induction false} GroupedWellFormed(assets: seq<Asset>, descs: seq<Description>, market: seq<MarketItem>)
    ensures WellGrouped(Grouped(assets, descs, market), market)
  {
    if assets != [] {
      GroupedWellFormed(assets[..|assets| - 1], descs, market);
      AddAssetWellGrouped(Grouped(assets[..|assets| - 1], descs, market), assets[|assets| - 1], descs, market);
    }
  }

  lemma FindGroupSameNames(groups: seq<Group>, groups': seq<Group>, name: string)
    requires |groups| == |groups'|
    requires forall k :: 0 <= k < |groups| ==> groups[k].name == groups'[k].name
    ensures FindGroup(groups, name) == FindGroup(groups', name)
  {
  }

  lemma FindGroupSnoc(groups: seq<Group>, g: Group, name: string)
    ensures g.name != name ==> FindGroup(groups + [g], name) == FindGroup(groups, name)
    ensures g.name == name && FindGroup(groups, name).None? ==> FindGroup(groups + [g], name) == Some(|groups|)
  {
    assert forall j :: 0 <= j < |groups| ==> (groups + [g])[j] == groups[j];
    assert (groups + [g])[|groups|] == g;
  }

  /** The asset ids held under `name`: its group's, or none. */
  function IdsUnder(groups: seq<Group>, name: string): seq<string> {
    match FindGroup(groups, name)
    case None => []
    case Some(k) => groups[k].assetIds
  }

  lemma AddAssetIdsUnder(groups: seq<Group>, a: Asset, descs: seq<Description>, market: seq<MarketItem>, name: string)
    ensures IdsUnder(AddAsset(groups, a, descs, market), name)
         == IdsUnder(groups, name) + (if NameOf(descs, a) == Some(name) then [a.assetid] else [])
  {
    match FindDescription(descs, a)
    case None =>
    case Some(d) =>
      var n := descs[d].marketHashName;
      var groups' := AddAsset(groups, a, descs, market);
      match FindGroup(groups, n)
      case None =>
        var empty := Group(n, IconBase + descs[d].iconUrl, MarketPrice(market, n), 0, []);
        var created := empty.(quantity := 1, assetIds := empty.assetIds + [a.assetid]);
        assert groups' == groups + [created] by {
          assert (groups + [empty])[|groups| := created] == groups + [created];
        }
        FindGroupSnoc(groups, created, name);
      case Some(k) =>
        FindGroupSameNames(groups, groups', name);
  }

  /** Each group holds, in asset order, the ids of exactly the assets whose
      first matching description carries its name, and a name has a group
      exactly when some asset is described under it. */
  lemma {:induction false} GroupedByName(assets: seq<Asset>, descs: seq<Description>, market: seq<MarketItem>, name: string)
    ensures var groups := Grouped(assets, descs, market);
      && (FindGroup(groups, name).Some? ==> groups[FindGroup(groups, name).value].assetIds == NamedAssetIds(assets, descs, name))
      && (FindGroup(groups, name).None? <==> NamedAssetIds(assets, descs, name) == [])
  {
    GroupedIdsUnder(assets, descs, market, name);
    GroupedWellFormed(assets, descs, market);
  }

  lemma {:induction false} GroupedIdsUnder(assets: seq<Asset>, descs: seq<Description>, market: seq<MarketItem>, name: string)
    ensures IdsUnder(Grouped(assets, descs, market), name) == NamedAssetIds(assets, descs, name)
  {
    if assets != [] {
      var init := assets[..|assets| - 1];
      GroupedIdsUnder(init, descs, market, name);
      AddAssetIdsUnder(Grouped(init, descs, market), assets[|assets| - 1], descs, market, name);
    }
  }

  lemma FlatSnoc(groups: seq<Group>, g: Group)
    ensures Flat(groups + [g]) == Flat(groups) + g.assetIds
  {
    assert (groups + [g])[..|groups|] == groups;
  }

  lemma {:induction false} FlatExtendGroup(groups: seq<Group>, k: nat, g: Group, x: string)
    requires k < |groups| && g.assetIds == groups[k].assetIds + [x]
    ensures multiset(Flat(groups[k := g])) == multiset(Flat(groups)) + multiset{x}
  {
    var n := |groups|;
    var groups' := groups[k := g];
    if k == n - 1 {
      assert groups'[..n - 1] == groups[..n - 1];
    } else {
      assert groups'[..n - 1] == groups[..n - 1][k := g];
      FlatExtendGroup(groups[..n - 1], k, g, x);
    }
  }

  /** Appending an asset id to group k adds that id to the flattened list. */
  lemma AddToGroupFlat(gs: seq<Group>, k: nat, x: string)
    requires k < |gs|
    ensures multiset(Flat(gs[k := gs[k].(quantity := gs[k].quantity + 1, assetIds := gs[k].assetIds + [x])]))
         == multiset(Flat(gs)) + multiset{x}
  {
    FlatExtendGroup(gs, k, gs[k].(quantity := gs[k].quantity + 1, assetIds := gs[k].assetIds + [x]), x);
  }

  lemma AddAssetFlat(groups: seq<Group>, a: Asset, descs: seq<Description>, market: seq<MarketItem>)
    ensures multiset(Flat(AddAsset(groups, a, descs, market)))
         == multiset(Flat(groups)) + (if NameOf(descs, a).Some? then multiset{a.assetid} else multiset{})
  {
    var d := FindDescription(descs, a);
    if d.Some? {
      var name := descs[d.value].marketHashName;
      var found := FindGroup(groups, name);
      var gs := if found.None? then groups + [Group(name, IconBase + descs[d.value].iconUrl, MarketPrice(market, name), 0, [])] else groups;
      var k := if found.None? then |groups| else found.value;
      assert AddAsset(groups, a, descs, market) == gs[k := gs[k].(quantity := gs[k].quantity + 1, assetIds := gs[k].assetIds + [a.assetid])];
      if found.None? {
        FlatSnoc(groups, gs[k]);
      }
      assert multiset(Flat(gs)) == multiset(Flat(groups));
      AddToGroupFlat(gs, k, a.assetid);
    }
  }

  /** `assetids` holds every described asset id exactly as often as the
      assets do. */
  lemma {:induction false} FlatIsDescribed(assets: seq<Asset>, descs: seq<Description>, market: seq<MarketItem>)
    ensures multiset(Flat(Grouped(assets, descs, market))) == multiset(DescribedIds(assets, descs))
  {
    if assets != [] {
      var init := assets[..|assets| - 1];
      FlatIsDescribed(init, descs, market);
      AddAssetFlat(Grouped(init, descs, market), assets[|assets| - 1], descs, market);
    }
  }

  /** Hence `assetids` is never longer than `assets`. */
  lemma AssetIdsBounded(assets: seq<Asset>, descs: seq<Description>, market: seq<MarketItem>)
    ensures |Flat(Grouped(assets, descs, market))| <= |assets|
  {
    FlatIsDescribed(assets, descs, market);
    var flat := Flat(Grouped(assets, descs, market));
    assert |flat| == |multiset(flat)|;
  }
}
