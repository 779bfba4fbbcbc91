# Jackpot round engine of a Rust skin-gambling site, in Dafny

The system is a Node.js/Express server for a "jackpot" game. Players deposit
Rust skins (Steam items) into a round. Each item is worth its market price,
and when the round timer runs out a weighted random draw picks a winner with
probability proportional to the value deposited. The winner is paid 90% of
the bot's item list and the site keeps the rest. Every participant's
statistics and game history are then updated, and after a ten-second
countdown a new round opens. Around this engine sit:

- the join request, which finds or creates the open round;
- the inventory sync, which reconciles the items stored for a user with the
  assets Steam reports;
- a Steam-login code exchange;
- the chat buffer and the connection counters of the Socket.io server;
- three small helpers: an online-player counter, a colour generator and a
  dollars-to-cents conversion.

The model keeps each part in the form the JavaScript has:

- **Pure computations are functions with their properties as lemmas:** the
  weighted draw's index, contributions and pot total, the 90/10 split, price
  parsing and extraction, and the grouping of Steam assets.
- **Loops are methods proved against those functions:**
  `weightedRandomSelection`, the grouping loop of `getInventory`, the
  bookkeeping loop and the countdown of `endRound`, the colour loop, and the
  `newItems` loops of the sync.
- **Objects whose fields change are classes:**
  - the Mongo collections are `Store.Db`, an in-memory store whose
    collections are sequences in insertion order, so a `findOne` is the
    first match;
  - the round timer's module variables are `JackpotManager.RoundTimer`;
  - `global.authCodes` is `AuthCodes.AuthCodeStore`;
  - the Socket.io state in index.js is `Realtime.Server`;
  - `utils/onlinePlayers.js` is `OnlinePlayers.OnlinePlayers`.

**Numbers.** JavaScript numbers are `real`, so floating-point rounding is
not modelled. Clock readings are integer milliseconds.

**Inputs the model takes as parameters:**
- the clock (`now`);
- every `Math.random()` draw (`draw`, `draws`);
- the Steam inventory HTTP response (`fetched`);
- what the trade library answers to `transferWinnings` (`escrow`): the bot
  inventory, and whether sending the winner's offer succeeded;
- the market price list (`market`);
- the random login code.

**Socket.io emits** are returned as `Events.Event` values in emission order.

**Absent strings.** A falsy string (an empty or missing trade URL, Steam id
or timestamp) is the empty string.

**A missing participant aborts `endRound`.** Mongoose's `populate` turns the
reference of a deleted user into `null`. So in `endRound` a participant
whose user no longer exists makes `p.participant.user._id` throw at
jackpotManager.js:301, before the `if (!user)` guard of lines 302-305 can
skip it. The outer `catch` then ends the call. The model follows the code:
`JackpotManager.Bookkeeping` stops at the first such participant, and no
spin, countdown or new round follows. A missing winner likewise throws at
line 296, before anything is saved (`WinnerMissing`).

## Model

| member | source | states |
|---|---|---|
| WeightedSelection.FirstAbove | utils/weightedRandomSelection.js:13-18 | from position k on, the scan stops at the first index whose running sum exceeds the draw, or at the last index when none does |
| WeightedSelection.SelectedIndex | utils/weightedRandomSelection.js:11-21 | the chosen index is in range; every running sum before it is at most `random`; and either its own running sum exceeds `random`, or it is the last index and no sum does |
| WeightedSelection.WeightedRandomSelection | utils/weightedRandomSelection.js:9-22 | returns null exactly for an empty list; otherwise returns, unchanged, the pair at the index `SelectedIndex` gives for `draw * overallTotal` |
| WeightedSelection.SelectedIsFirstAbove | utils/weightedRandomSelection.js:13-17 | any index whose running sum is the first to exceed the draw is the one chosen |
| WeightedSelection.FallbackIsLast | utils/weightedRandomSelection.js:20-21 | when no running sum exceeds the draw, the last pair is chosen |
| WeightedSelection.HalfOpenBoundary | utils/weightedRandomSelection.js:15 | a draw equal to the running sum through i picks i only through the fallback, i.e. intervals are half-open |
| WeightedSelection.SelectionInInterval | utils/weightedRandomSelection.js:10-18 | for non-negative weights and 0 ≤ r < total, the chosen index i has prefix(i) ≤ r < prefix(i+1), so the fallback never fires |
| WeightedSelection.SelectedIffInInterval | utils/weightedRandomSelection.js:10-18 | under the same conditions, i is chosen if and only if r lies in [prefix(i), prefix(i+1)), an interval as wide as i's contribution |
| WeightedSelection.DrawIsFair | utils/weightedRandomSelection.js:10 | a draw in [0,1) scaled by the total is below the total, and picks i exactly when it lands in i's interval |
| WeightedSelection.ZeroContributionOnlyByFallback | utils/weightedRandomSelection.js:14-21 | for r ≥ 0 a zero contribution is never picked by the loop, only by the fallback when it is last |
| JsNumbers.ParseFloatNaN | jackpotManager.js:256 | `parseFloat` is NaN exactly when, after white space and a sign, the text starts neither with a digit nor with `.` and a digit |
| JsNumbers.ParseIntNaN | utils/getInventory.js:11 | `parseInt(s, 10)` is NaN exactly when, after white space and a sign, the text does not start with a digit |
| JsNumbers.ParseIntTruncatesParseFloat | utils/getInventory.js:11 | wherever `parseInt(s, 10)` gives a number, `parseFloat(s)` gives one too, and the integer is the decimal truncated toward zero |
| Prices.PriceValue | jackpotManager.js:256-257 | `parseFloat(price)` with NaN counting 0 |
| Prices.NumberAt | routes/apiRoutes.js:88 | the match of `\d+(\.\d+)?` at a digit is a decimal prefix of the text, and no longer prefix is a decimal |
| Prices.FirstDigit | routes/apiRoutes.js:88 | position of the first digit, none exactly when the string has no digit |
| Prices.FirstNumberMatch | routes/apiRoutes.js:88 | no match exactly when the price text has no digit; otherwise the match is a decimal numeral |
| Prices.ExtractedPrice | routes/apiRoutes.js:88-89 | 0 for a price text without a digit; otherwise `parseFloat` of the match, which is never NaN; never negative |
| Prices.StoredPriceText | routes/apiRoutes.js:97 | the stored text is a decimal numeral (the match, or `0`) followed by ` USD` |
| Prices.StoredPriceReadsBack | routes/apiRoutes.js:87-89 | the text stored as `"<price> USD"` parses back to the extracted price (0 without a match), which is never negative |
| Settlement.Contributions | jackpotManager.js:254-263 | one entry per participant, carrying that participant unchanged |
| Settlement.ContributionAt | jackpotManager.js:255-258 | each entry's contribution is the sum of its items' parsed prices, unparsable ones counting 0 |
| Settlement.OverallTotalIsSum | jackpotManager.js:266 | `overallTotal` is the sum of all participants' contributions |
| Settlement.OverallTotalIsTotalValue | jackpotManager.js:266 | while the running-total invariant holds, `overallTotal` equals the round's `totalValue` |
| Settlement.ContributionsNonNegative | jackpotManager.js:254-263 | with non-negative stored prices every contribution is non-negative, as the draw's fairness lemmas need |
| Settlement.WinnerShare | jackpotManager.js:119 | the winner's count is ⌊0.9·n⌋: 10k ≤ 9n < 10k + 10 |
| Settlement.SplitPayout | jackpotManager.js:117-124 | the two slices concatenate to the list; the first has ⌊0.9·n⌋ items; the admin slice is non-empty for a non-empty list and holds between n/10 and n/10 + 1 items |
| Settlement.OfferItems | jackpotManager.js:129-144 | an offer holds exactly the references of the tradable items that have an asset id, app id and context id |
| Settlement.OfferItemsOfSlice | jackpotManager.js:159-173 | the same, for the offer built from a slice of the list |
| Settlement.TransferWinnings | jackpotManager.js:90-190 | offers are made exactly when the winner has a trade URL and the bot inventory was fetched and is non-empty; the winner's offer goes to its trade URL and holds exactly the offerable items before the split index; the admin's offer, holding exactly those from it on, is made exactly when the winner's send succeeded (66-71, 149, 183) |
| Settlement.Settle | jackpotManager.js:301-356 | deposits grow by the contribution and exactly one history entry is appended. A winner gains the pot, with `profit = totalWon - deposited`; a loser keeps `totalWon` and loses the contribution. The entry records round, deposit, outcome, "Classic" and the trade text |
| Settlement.SettleEntry | jackpotManager.js:300-359 | one loop iteration: a participant whose user is not stored changes nothing; ids stay in place |
| Settlement.SettleAll | jackpotManager.js:300-359 | the loop over the entries keeps every user's id and position |
| Settlement.SettleAllPerUser | jackpotManager.js:300-359 | after the loop each stored user is its own fold over the entries, whatever the others did |
| Settlement.SettleUserDeposits | jackpotManager.js:304-356 | every user's deposits grow by the total it staked in this round, and its history gains one entry per participant entry it has, earlier history untouched |
| Settlement.SettleUserRecords | jackpotManager.js:320-350 | every added history entry records this round, "Classic", and whether that user is the winner |
| Settlement.SettleWinner | jackpotManager.js:314-318 | the winner is credited the pot once per participant entry it has, and its profit is `totalWon - deposited` |
| Settlement.SettleLoser | jackpotManager.js:333-336 | a non-winner keeps `totalWon` and its profit drops by what it staked |
| Store.Materialize | models/itemSchema.js:3-14 | an inserted document keeps every field of its draft and gets its id and `tradable` true |
| Store.NewJackpot | models/jackpotSchema.js:3-15 | a fresh round is `waiting` with total 0, no participants and no winner |
| Store.FindUser | jackpotManager.js:301 | `User.findById`: the first stored user with that id, none exactly when no user has it |
| Store.FindUserBySteamId | controllers/jackpotController.js:294 | `User.findOne({ steamId })`: the first match, none exactly when no user has it |
| Store.FirstActive | controllers/jackpotController.js:154 | the first round that is `waiting` or `in_progress`, none exactly when all are completed |
| Store.FirstInProgress | jackpotManager.js:244 | the first `in_progress` round, none exactly when there is none |
| Store.FindItems | controllers/jackpotController.js:96 | `Item.find({ _id: { $in } })`: exactly the stored items whose id is asked for |
| Store.LookupItem | routes/apiRoutes.js:72 | a found item is stored under that id; none means no stored item has it |
| Store.Populate | jackpotManager.js:245-246 | a populated list holds only stored items and is no longer than the id list |
| Store.PopulateEachId | jackpotManager.js:245-246 | every id that resolves contributes its item; when no id resolves the list is empty; when every id resolves, the k-th item is the one stored under the k-th id |
| Store.PopulateAppend | jackpotManager.js:245-246 | populating a concatenation of id lists is the concatenation of their populations, so the items always come in id order, whichever ids resolve |
| Store.Ids | controllers/jackpotController.js:110 | the ids of the items, in order |
| Store.PopulateIds | controllers/jackpotController.js:96-110 | populating the recorded ids gives back exactly the items `Item.find` returned |
| Store.SumPricesNonNegative | controllers/jackpotController.js:99-102 | a sum of parsed prices (NaN counting 0) is never negative when no price is |
| Store.Contribution | jackpotManager.js:255-261 | a participant's contribution is never negative when no stored price is |
| Store.SumContributions | jackpotManager.js:254-266 | the sum of the contributions is never negative when no stored price is |
| Store.Db.SaveNewJackpot | jackpotManager.js:392-393 | appends one fresh `waiting` round and changes nothing else |
| Store.Db.InsertMany | routes/apiRoutes.js:110 | appends one document per draft, with consecutive new ids returned in order, and changes nothing else |
| Store.Db.DeleteOwnedAssets | routes/apiRoutes.js:64-67 | removes exactly the owner's items whose asset id is in the set |
| Store.Inserted | routes/apiRoutes.js:110 | the k-th inserted document is the k-th draft under id `first + k` |
| Store.WithoutOwnedAssets | routes/apiRoutes.js:64-67 | an item survives exactly when it is not the owner's with a listed asset id; distinct ids stay distinct |
| JackpotManager.TimeLeft | jackpotManager.js:31-35 | never negative; a full round when unstarted; at most a full round once started; 0 exactly when a full round has elapsed |
| JackpotManager.TimeLeftNonIncreasing | jackpotManager.js:31-35 | the time left never grows as the clock advances |
| JackpotManager.Started | jackpotManager.js:40-49 | after `startRoundTimer` an interval runs for a round starting now, whatever ran before |
| JackpotManager.TickStep | jackpotManager.js:49-60 | a callback that ends the round also stops the timer and clears the start time; any other leaves it as it was |
| JackpotManager.StoppedNeverFires | jackpotManager.js:53-56 | a stopped timer never calls `endRound` |
| JackpotManager.EndRoundAtMostOnce | jackpotManager.js:40-61 | a started timer calls `endRound` at most once, and exactly when some callback comes a full round after the start |
| JackpotManager.RoundTimer.StartRoundTimer | jackpotManager.js:40-61 | replaces any interval by one for a round starting now and announces a full round |
| JackpotManager.RoundTimer.Tick | jackpotManager.js:49-60 | one callback: the new timer state and whether `endRound` runs are those of `TickStep`; a running timer first announces the time left; a callback that does not end the round changes no data |
| JackpotManager.NextRoundCountdown | jackpotManager.js:383-399 | emits 9, 8, …, 1, then 0 and the new-round notice, and saves exactly one fresh `waiting` round |
| JackpotManager.Finished | jackpotManager.js:295-297 | the round becomes `completed` with the winner's id, everything else unchanged |
| JackpotManager.Drawn | jackpotManager.js:276 | the drawn entry is one of the round's entries |
| JackpotManager.Bookkeeping | jackpotManager.js:300-359 | users are settled entry by entry until the first participant whose user is missing (all of them when none is), and rounds and items are untouched |
| JackpotManager.AwardRound | jackpotManager.js:286-399 | records the payout decision and the winner, then settles users. After a complete loop it emits spin, new-jackpot and next-round notices and runs the countdown |
| JackpotManager.DrawAndAward | jackpotManager.js:275-399 | the drawn winner's missing user ends the call with nothing saved; otherwise the round is awarded to it |
| JackpotManager.EndRound | jackpotManager.js:241-406 | no `in_progress` round changes nothing. A round whose contributions sum to 0 is only completed, with no winner, settlement or events. Otherwise the draw decides the winner and the round is awarded |
| JackpotController.NextStatus | controllers/jackpotController.js:117-118 | `waiting` turns `in_progress` exactly at two or more participants; no other status ever changes |
| JackpotController.JoinKeepsRunningTotal | controllers/jackpotController.js:99-114 | a join keeps `totalValue` equal to the sum of contributions `endRound` will compute |
| JackpotController.FreshRoundHoldsRunningTotal | controllers/jackpotController.js:156 | a fresh round satisfies the running-total invariant |
| JackpotController.AddUserToJackpot | controllers/jackpotController.js:88-141 | a missing round or user changes nothing. Otherwise one participant is appended with the found items' ids and a hex colour, earlier ones untouched, `totalValue` grows by their prices, and the status moves on by `NextStatus`. The timer starts exactly on the `waiting → in_progress` step, and the invariant is kept |
| JackpotController.JoinedRound | controllers/jackpotController.js:106-119 | the saved round is the old one joined by the user: `IsJoin` (one participant appended with the found items' ids and a hex colour, the total raised by their prices, `waiting` turned `in_progress` at two participants) |
| JackpotController.SaveJoin | controllers/jackpotController.js:116-133 | the timer is started and a full countdown announced exactly when the round turned `in_progress`; the round is saved in place and the participants list emitted |
| JackpotController.JoinPreservesRunningTotal | controllers/jackpotController.js:97-114 | every join keeps the running-sum invariant of the round |
| JackpotController.JoinJackpot | controllers/jackpotController.js:144-207 | 400 exactly for a missing user id or empty item list, before any round is read. Otherwise the open round is found or a fresh one saved first. Then 404 for an unknown user, a `tradeUrl: false` reply for a user without a trade URL, and 404 when no item is found, each adding no participant; else the join is made, keeping the running total, starting the timer and announcing a full round exactly when a waiting round turns `in_progress`, and always emitting the participants (117-135) |
| JackpotController.SaveTradeUrl | controllers/jackpotController.js:282-307 | 400 unless both the Steam id and the trade URL are given; 404 for an unknown user; otherwise only that user's `tradeUrl` changes |
| GetInventory.NormalizeArgs | utils/getInventory.js:10-15 | fails exactly without a truthy Steam id. A non-number `appid` becomes 730, a string `contextid` is parsed as an integer, other values are kept, and `tradeable` is true only when it was the boolean true |
| GetInventory.FindDescription | utils/getInventory.js:46-48 | the first description matching both `classid` and `instanceid`, none exactly when there is no match |
| GetInventory.FindMarketItem | utils/getInventory.js:62-64 | the first price-list entry with that name, none exactly when there is none |
| GetInventory.FindGroup | utils/getInventory.js:52 | the first group created under that name, none exactly when no group has it |
| GetInventory.AddAsset | utils/getInventory.js:46-70 | an asset without a description changes nothing; otherwise at most one group is added and the existing groups keep their place and name |
| GetInventory.Grouped | utils/getInventory.js:45-71 | there are never more groups than assets |
| GetInventory.GroupAssets | utils/getInventory.js:43-71 | the grouping loop computes `Grouped` |
| GetInventory.GetInventory | utils/getInventory.js:7-90 | without a truthy Steam id it fails; a failed request's error is rethrown; otherwise the result is the grouped inventory, with no items when `tradeable` is true |
| GetInventory.NoAssetsNoInventory | utils/getInventory.js:32-40 | without assets the items, names, asset list and asset ids are all empty |
| GetInventory.AddAssetWellGrouped | utils/getInventory.js:49-70 | one asset step keeps the names distinct, `quantity` equal to the number of asset ids, and the price of the name in the price list |
| GetInventory.GroupedWellFormed | utils/getInventory.js:45-71 | every grouping has distinct names and positive `quantity` equal to the length of `assetIds`. Each group's price is the first price-list entry for its name, or `'0 USD'` |
| GetInventory.GroupedByName | utils/getInventory.js:45-71 | each group holds, in asset order, exactly the assets whose first matching description has its name; a name has a group exactly when such an asset exists; undescribed assets are dropped |
| GetInventory.FlatIsDescribed | utils/getInventory.js:78 | `assetids` holds exactly the described assets' ids, as a multiset |
| GetInventory.AssetIdsBounded | utils/getInventory.js:78 | `assetids` is never longer than the asset list |
| InventorySync.OwnedRustItems | routes/apiRoutes.js:52 | exactly the stored items of that owner in app 252490, context 2 |
| InventorySync.StaleAndFreshDisjoint | routes/apiRoutes.js:58-60 | the removal set and the new-asset set never share an id, and no removed id is on Steam |
| InventorySync.DraftOf | routes/apiRoutes.js:94-102 | a new document carries its group's name and icon, this owner, its asset id, app 252490, context 2, and a price text that reads back as the extracted price |
| InventorySync.GroupRecords | routes/apiRoutes.js:92-105 | a group's documents are for its new asset ids only, each built by `DraftOf` |
| InventorySync.NewItemRecords | routes/apiRoutes.js:82-106 | every document is for a new asset id of some group and built from that group, owned by the user in the Rust app with a non-negative price; none without new ids |
| InventorySync.BuildGroupRecords | routes/apiRoutes.js:92-105 | the inner loop builds exactly `GroupRecords` |
| InventorySync.BuildNewItems | routes/apiRoutes.js:82-106 | the outer loop builds exactly `NewItemRecords` |
| InventorySync.Keep | routes/apiRoutes.js:93 | the kept ids are exactly those in the set, in order |
| InventorySync.RecordAssetIds | routes/apiRoutes.js:82-106 | the new documents' asset ids are exactly Steam's new asset ids, in Steam's order |
| InventorySync.OneRecordPerNewAsset | routes/apiRoutes.js:85-106 | when Steam lists each asset once, each new asset id gets one document |
| InventorySync.KeptInventory | routes/apiRoutes.js:71-74 | an id stays on the user's list exactly when it names one of the user's Rust items (read before the deletion) whose asset id is still on Steam; order is kept |
| InventorySync.RemoveStale | routes/apiRoutes.js:62-67 | deletes exactly the user's items whose asset id is in the set to remove, and changes nothing when that set is empty |
| InventorySync.SyncItems | routes/apiRoutes.js:52-112 | the item store becomes `SyncedItems` and the returned ids are those of the inserted documents, consecutive and in order |
| InventorySync.SyncedItems | routes/apiRoutes.js:62-112 | other owners' stored items are exactly the same before and after the sync |
| InventorySync.SyncedInventory | routes/apiRoutes.js:70-112 | every id on the rebuilt list was already on it or is a newly inserted document's id (at least `first`) |
| InventorySync.SyncUser | routes/apiRoutes.js:47-121 | the store and only this user's inventory list are brought in line, and the answer is the user's populated list |
| InventorySync.SyncInventory | routes/apiRoutes.js:23-126 | 400 without a Steam id; a failed fetch is a 500 with its message; 404 for an empty Steam inventory; 404 for an unknown user. Each changes no data; otherwise the sync is made |
| InventorySync.SyncedMembers | routes/apiRoutes.js:58-112 | a stored item survives unless it is the user's with a stale asset id (in any app, as `deleteMany` has no app filter); every other item is a new Rust document of the user's for a new asset id |
| InventorySync.SyncedOwnedAssets | routes/apiRoutes.js:47-112 | after a sync the user's stored Rust asset ids are exactly Steam's |
| InventorySync.SyncedInventoryResolves | routes/apiRoutes.js:71-112 | every id on the rebuilt list names one of the user's Rust items in the new store whose asset is on Steam |
| InventorySync.SyncedResponse | routes/apiRoutes.js:118-121 | in a store with distinct ids the answer lists one item per id of the user's list, each the user's, in the Rust app and on Steam |
| InventorySync.ResyncChangesNothing | routes/apiRoutes.js:58-112 | syncing again against the same Steam inventory deletes and inserts nothing |
| AuthCodes.TokenFor | utils/genertaetoken.js:4-10 | the token carries the user's Steam id and name and the client address |
| AuthCodes.Lookup | index.js:112 | a user exactly when the map exists and holds the code |
| AuthCodes.Stored | index.js:101-104 | after a Steam return the code maps to that user and every other code is untouched |
| AuthCodes.Exchanged | index.js:109-121 | a stored code yields its user's token and is deleted; an unknown code or no map gives 400 and leaves the map unchanged; other codes are untouched |
| AuthCodes.ExchangedAsWritten | controllers/authController.js:22-41 | the map never changes; a stored code gets a server error, an unknown one 400 |
| AuthCodes.CodeIsSingleUse | index.js:112-117 | a code that was exchanged gets 400 the second time |
| AuthCodes.StoredCodeIssuesToken | index.js:101-117 | a code stored on Steam return is exchanged for a token of that user |
| AuthCodes.AsWrittenNeverIssues | controllers/authController.js:22-41 | as written, a stored code is never redeemed and stays in the map |
| AuthCodes.AuthCodeStore.SteamReturn | controllers/authController.js:9-19 | the map becomes `Stored`: created if absent, the code added, others untouched |
| AuthCodes.AuthCodeStore.Exchange | index.js:109-121 | the exchange as `Exchanged` states it |
| AuthCodes.AuthCodeStore.ExchangeAsWritten | controllers/authController.js:22-41 | the exchange as `ExchangedAsWritten` states it |
| Realtime.Stamped | index.js:172 | an existing timestamp is kept; a missing one becomes the current time; nothing else changes |
| Realtime.Recent | index.js:175-180 | the last min(k, 20) messages of the history, in arrival order |
| Realtime.RecentSnoc | index.js:175-180 | push-then-shift-when-over-20 keeps the buffer equal to `Recent` of the history |
| Realtime.Decremented | index.js:147 | `Math.max(count - 1, 0)` |
| Realtime.CountIsBalance | index.js:137-150 | when every disconnect follows its connect, the counter is connects minus disconnects |
| Realtime.Server.Connect | index.js:142-143 | the count grows by one and is broadcast |
| Realtime.Server.Disconnect | index.js:145-149 | the count drops by one but not below 0, and is broadcast |
| Realtime.Server.ChatConnect | index.js:161-167 | the chat count grows by one; the new client gets the buffer unchanged |
| Realtime.Server.ChatDisconnect | index.js:186-190 | the chat count drops by one but not below 0 |
| Realtime.Server.ChatMessage | index.js:170-184 | the stamped message is broadcast and appended; the buffer stays the last min(k, 20) messages and never exceeds 20 |
| OnlinePlayers.OnlinePlayers.constructor | utils/onlinePlayers.js:3 | the counter starts at 0 |
| OnlinePlayers.OnlinePlayers.Increment | utils/onlinePlayers.js:5-7 | adds exactly one |
| OnlinePlayers.OnlinePlayers.Decrement | utils/onlinePlayers.js:9-11 | subtracts one while positive, no-op at 0, never negative |
| OnlinePlayers.OnlinePlayers.GetOnlinePlayers | utils/onlinePlayers.js:13 | returns the count, non-negative, without changing it |
| RandColor.HexIndex | utils/randcolor.js:11 | for a draw in [0,1), ⌊16r⌋ is a valid index into the 16 letters |
| RandColor.GenerateRandomColor | utils/randcolor.js:7-14 | `#` followed by six hex letters, the i-th chosen by the i-th draw |
| AmountConvert.CalculateTotalOrderAmount | utils/amountconvert.js:1-7 | fails with "Invalid items array" exactly for a missing or empty list |
| AmountConvert.FirstItemOnly | utils/amountconvert.js:6 | the result is the first amount times 100, and later items never affect it |
| AmountConvert.WholeDollarsGiveWholeCents | utils/amountconvert.js:6 | a whole number of dollars gives a multiple of 100 |

## Left out

- Floating point: numbers are exact reals, so rounding is not modelled.
  This affects the price sums, `totalValue`, profit and `Math.floor(n * 0.9)`.
- Settlement.WinnerShare: computes ⌊9n/10⌋ instead of flooring the double
  product `n * 0.9`. The two agree for every list length a process can hold,
  because the double product errs by far less than 0.1.
- JsNumbers.ParseFloat: reads only leading white space, a sign, and digits
  with at most one decimal point (`.5`, `-.5` and `5.` included). Exponents
  (`1e3`) and `Infinity` are not modelled. Every price text the regex
  extraction produces has the modelled form.
- Prices.StoredPriceText: stores the matched digits, not JavaScript's
  rendering of the parsed number (`007.50` is stored as `7.5 USD` by the
  code). What the model keeps is that the stored text parses back to the
  same value, which is what `StoredPriceReadsBack` states.
- A price in the market list that is not a string makes `.match` throw. The
  model types prices as strings.
- Concurrency is not modelled: joins interleaving with `endRound`, the
  asynchronous trade callback, and the timer and countdown intervals running
  beside requests. Each handler is one atomic step.
- Steam trade automation is not part of this model: `sendTradeOffer`,
  `sendTradeOfferToUser`, `trackTradeOffer`, the delay between offers and
  the offer messages. `Settlement.TransferWinnings` returns the offers that
  are built from the bot inventory given as `escrow`: always the winner's,
  and the admin's only when `escrow` says the winner's send succeeded (a
  rejected `sendTradeOffer` is caught at jackpotManager.js:183 before the
  admin's offer is built). Whether the admin's own send succeeds is not
  modelled, as nothing follows it.
- Socket.io: emits are returned as `Events.Event` values. The spin event's
  start time uses the same clock reading as the rest of `endRound`. The
  avatar field of the spin event is left out.
- Record fields that no logic reads are left out:
  - the `chance` text of game-history entries (`toFixed(2)`);
  - timestamps and `createdAt`;
  - `commissionPercentage` and `countdown`;
  - avatars and profile URLs.
- Mongoose persistence is an in-memory `Store.Db`. Database failures and the
  500 answers they cause are left out, except the failed Steam fetch in
  `InventorySync.SyncInventory`. So are the `catch` that swallows errors in
  `addUserToJackpot` and the 500 branch of `joinJackpot` that it makes
  unreachable.
- The running-total invariant (`totalValue` equals the sum of
  contributions) is proved for joins. The inventory sync deletes items that
  a round's participants may still reference, and the model does not claim
  the invariant across such a deletion.
- `getJackpotStatus` and `getJackpotHistory` are read-only queries and are
  not modelled. The same holds for the route wiring and
  `controllers/inventoryController.js`, which is not part of this model.
- GetInventory.GroupAssets: the grouping keeps groups in first-appearance
  order. JavaScript orders integer-like object keys first. A market name
  such as `constructor` or `__proto__` that names an `Object.prototype`
  member also behaves differently in `groupedItems`. Both are left out.
- AuthCodes.Lookup: a code naming an `Object.prototype` member (such as
  `constructor`) is not modelled.
- The random login code is an input to `SteamReturn`, and code collisions
  are not modelled.
- JWT signing, expiry and the secret are left out. `AuthCodes.TokenFor` is
  the signed payload.
- The `isAuth` middleware is left out. As written it cannot admit a request:
  it verifies with the secret `somesecret` (middleware/isAuth.js:11), while
  tokens are signed with `somececret` (utils/genertaetoken.js:7). Even a
  token that passed would not help `saveTradeUrl`. It reads
  `req.user.steamID64` (controllers/jackpotController.js:285), but the
  signed payload is `{ id, username, ip }` (utils/genertaetoken.js:6), so
  the handler would always answer 400. `JackpotController.SaveTradeUrl`
  takes that Steam id as a parameter and models the handler from there.
- The Steam request URL and the HTTP call are left out: the response body or
  error is an input. A `null` body, and assets whose fields are missing, are
  not modelled.
- `GetInventory.JsValue` numbers are integers. Non-integer `appid` and
  `contextid` values are not modelled.
- JackpotManager.TimeLeft: a round start time is `Some(t)` for every `t`,
  whereas the code treats a start time of 0 as no start. `Date.now()` is
  never 0.
- The `if (!user)` skip in the bookkeeping loop (jackpotManager.js:302-305)
  cannot be reached, as explained above. `Settlement.SettleEntry` still has
  the skipping branch (a user that is not found leaves the collection
  unchanged), but `JackpotManager.Bookkeeping` never takes it.

## Findings

| source | as written | input that shows it | evidently intended | confidence | as-written member | corrected member |
|---|---|---|---|---|---|---|
| controllers/authController.js:3 | the import binds the module object `{ generateToken }` rather than the function, so the call at line 32 throws before the code is deleted at line 35 and every valid exchange through this handler ends in a server error. No file of the repository mounts this controller (index.js serves `/auth/exchange` itself at 109-121 with a correct import at 17), so the defect is latent | any code stored by `steamReturn`, then exchanged | a valid code yields a token for its user and is deleted, as the exchange route in index.js:109-121 does | not executed | AuthCodes.ExchangedAsWritten (with AuthCodes.AsWrittenNeverIssues) | AuthCodes.Exchanged (with AuthCodes.CodeIsSingleUse) |
