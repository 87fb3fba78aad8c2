# Resource leasing ledger and order escrow, in Dafny

This project models the core of a CosmWasm contract that leases compute
resources:

- a ledger of resources, each with cpu, memory and bandwidth capacity
  counters, a price and a status;
- an order flow that prices a lease, locks the tenant's funds, and later
  either pays the resource owner or refunds the tenant.

Files and what they model:

- `errors.dfy` (module `ContractErrors`): the contract's error kinds. It also
  holds the `Result` type, which plays the role of Rust's `?` via Dafny's
  `:-`.
- `resource_type.dfy` (module `ResourceTypes`): `ResourceDetails`,
  `ResourceAttr`, `Resource` and their enums.
  - These Rust structs are values that are loaded from storage, changed and
    saved back. So each `&mut self` method becomes a function from the old
    value to `Result` of the new value.
- `resource.dfy` (module `ResourceLedger`): the admin-gated batch operations
  over `RESOURCE_MAP`.
  - Each batch is specified by a fold that stops at the first failing id.
  - Lemmas then state in closed form when each fold succeeds, which error it
    reports, and which map it leaves.
  - `ResourceStore` is a class holding the map as a field. Its methods run
    the source's loops. Each method is proved equal to its fold and keeps
    every entry stored under its own id.
- `order.dfy` (modules `OrderTypes` and `Orders`): `create_order`,
  `end_order` and `handle_exception`.
  - Each call is a function (`Create`, `Settle`, `Handle`) over the two maps.
    Lemmas about these functions state the promised behaviour and its
    consequences.
  - `OrderBook` holds `ORDER_MAP` next to a shared `ResourceStore`. It
    performs each call step by step and is proved equal to the function.

Inputs from the environment are parameters:

- the block height `now`;
- the sender;
- the attached coins;
- the admin list, as `admins: set<Addr>`. `is_admin` is membership.

An outgoing `BankMsg::Send` is a returned `Payment` value.

A call that fails changes nothing, because the host reverts the transaction.
The batch methods show this by restoring the saved map before they return an
error.

### Readings taken where the code and its own comments and declarations differ

The model follows the code in each case below:

- `add_used` (resource_type.rs:68-77) checks `amount + used <= total` but then
  sets `total := used + amount` and leaves `used` alone. Usage therefore never
  grows (`ResourceTypes.UsageNeverGrows`).
- `release_used` reports `ResourceOverflow`, not the declared `OverRelease`
  (resource_type.rs:82).
- The availability guard of `create_order` (order.rs:23) returns an error when
  the status check for `Unused` holds.
  - `check_status` is not among the modelled files. It is read as a plain
    equality test (`ResourceTypes.CheckStatus`), and the guard is the named
    predicate `Orders.Orderable`.
  - Taken literally, a fresh Unused resource cannot be ordered, and a resource
    already taken can be ordered again (`Orders.SecondOrderOnSameResource`).
- A missing order, or a missing resource at `create_order`/`end_order`, fails
  with the storage layer's `Std(KeyNotFound)` from `load`, not `NotFound`.
- `end_order` does not look at the order's status. An order that was already
  settled, or was terminated and refunded, pays the owner again
  (`Orders.SettleRepeats`, `Orders.TerminatedStillSettles`).
- Helpers used by order.rs that are not part of this model:
  - `update_status_by_RESOURCE_MAP` sets the entry's status and fails with
    `NotFound` when the entry is absent (`ResourceLedger.SetStatusIn`).
  - `Status::Used` is `Suspended`.
  - `get_owner` is the `owner` field.

## Model

| member | source | states |
|---|---|---|
| `ResourceTypes.NewDetails` | contracts/cw1-whitelist/src/resource_type.rs:40-42 | a new counter keeps the given total and unit price, has zero usage and is within capacity |
| `ResourceTypes.DefaultDetails` | contracts/cw1-whitelist/src/resource_type.rs:44-50 | the default counter is the new counter with zero total and zero price |
| `ResourceTypes.SetTotal` | contracts/cw1-whitelist/src/resource_type.rs:56-58 | only the total changes |
| `ResourceTypes.SetUnitPrice` | contracts/cw1-whitelist/src/resource_type.rs:60-62 | only the unit price changes |
| `ResourceTypes.AddUsed` | contracts/cw1-whitelist/src/resource_type.rs:68-77 | fails with ResourceOverflow exactly when amount + used > total; otherwise total becomes used + amount (never above the old total), used and unit price are unchanged, and the counter is within capacity |
| `ResourceTypes.ReleaseUsed` | contracts/cw1-whitelist/src/resource_type.rs:79-88 | fails with ResourceOverflow exactly when used < amount; otherwise used drops by exactly the amount, total and unit price are unchanged, and capacity is preserved |
| `ResourceTypes.AttrReset` | contracts/cw1-whitelist/src/resource_type.rs:120-124 | zeroes every usage counter and keeps all totals, unit prices, region and NAT |
| `ResourceTypes.AttrUpdate` | contracts/cw1-whitelist/src/resource_type.rs:127-135 | overwrites only the tagged total, NAT or region; every other field is unchanged |
| `ResourceTypes.AttrUse` | contracts/cw1-whitelist/src/resource_type.rs:137-144 | a NAT or region tag fails with OtherError; a dimension tag succeeds exactly when its counter accepts the amount, changes only that counter, and fails otherwise with ResourceOverflow |
| `ResourceTypes.AttrRelease` | contracts/cw1-whitelist/src/resource_type.rs:146-153 | a NAT or region tag fails with OtherError; a dimension tag succeeds exactly when amount <= used, lowers only that counter's usage by the amount, and fails otherwise with ResourceOverflow |
| `ResourceTypes.Price` | contracts/cw1-whitelist/src/resource_type.rs:185-191 | the price is at least the base price and at least each dimension's unit price times total |
| `ResourceTypes.SetStatus` | contracts/cw1-whitelist/src/resource_type.rs:201-203 | only the status changes |
| `ResourceTypes.SetBasePrice` | contracts/cw1-whitelist/src/resource_type.rs:205-213 | succeeds exactly on an Unused resource (else OtherError) and changes only the base price |
| `ResourceTypes.SetPrice` | contracts/cw1-whitelist/src/resource_type.rs:215-226 | succeeds exactly on an Unused resource with a dimension tag (else OtherError) and changes only that dimension's unit price |
| `ResourceTypes.UseResource` | contracts/cw1-whitelist/src/resource_type.rs:228-240 | succeeds exactly on an Unused resource with no recorded usage; a wrong status gives OtherError, recorded usage gives ResourceOverflow; success changes only the status, to Suspended |
| `ResourceTypes.UpdateResource` | contracts/cw1-whitelist/src/resource_type.rs:242-250 | succeeds exactly on an Unused resource (else OtherError) and applies the attribute update |
| `ResourceTypes.ReleaseResource` | contracts/cw1-whitelist/src/resource_type.rs:252-264 | succeeds exactly on a Suspended resource (else OtherError); the result is the reset attributes with status Unused |
| `ResourceTypes.UseReleaseRoundTrip` | contracts/cw1-whitelist/src/resource_type.rs:228-264 | releasing a resource just used gives back the original resource |
| `ResourceTypes.ReleaseEnablesUse` | contracts/cw1-whitelist/src/resource_type.rs:228-264 | a released resource can always be used again |
| `ResourceTypes.UsageNeverGrows` | contracts/cw1-whitelist/src/resource_type.rs:74 | no resource operation raises a usage counter, because add_used rewrites the total instead of the usage |
| `ResourceTypes.UpdateCanBreakCapacity` | contracts/cw1-whitelist/src/resource_type.rs:127-135 | an update can set a total below the recorded usage (concrete witness) |
| `ResourceTypes.PriceIgnoresUsage` | contracts/cw1-whitelist/src/resource_type.rs:185-191 | resources that agree on base price, totals and unit prices have the same price, whatever their usage |
| `ResourceTypes.PriceStableUnderUseAndRelease` | contracts/cw1-whitelist/src/resource_type.rs:185-191 | using or releasing a resource does not change its price |
| `ResourceTypes.PriceAfterUpdate` | contracts/cw1-whitelist/src/resource_type.rs:242-250 | updating a dimension's total replaces that dimension's cost with unit price times the new total |
| `ResourceLedger.Lookup` | contracts/cw1-whitelist/src/resource.rs:10-20 | the query answer is no longer than the request |
| `ResourceLedger.LookupAppend` | contracts/cw1-whitelist/src/resource.rs:13-17 | the answer for a concatenated request is the answers for each part, in order |
| `ResourceLedger.LookupOne` | contracts/cw1-whitelist/src/resource.rs:14-16 | a single id yields its resource, or nothing when it is absent |
| `ResourceLedger.LookupMembership` | contracts/cw1-whitelist/src/resource.rs:10-20 | a resource is in the answer exactly when some requested id is present and maps to it |
| `ResourceLedger.LookupAllPresent` | contracts/cw1-whitelist/src/resource.rs:10-20 | when every id is present, the answer has one entry per id, in request order |
| `ResourceLedger.Apply` | contracts/cw1-whitelist/src/resource.rs:36-42 | an absent id gives NotFound; otherwise the step succeeds exactly when the operation does on the stored entry, with its error; on success only that entry changes, to the operation's result, and the key set is unchanged |
| `ResourceLedger.ApplyEach` | contracts/cw1-whitelist/src/resource.rs:35-43 | a successful batch keeps the key set of the store |
| `ResourceLedger.ApplyEachKeepsUnlisted` | contracts/cw1-whitelist/src/resource.rs:35-43 | a successful batch leaves every entry whose id is not listed unchanged |
| `ResourceLedger.ApplyEachStep` | contracts/cw1-whitelist/src/resource.rs:35-43 | adding one id to a batch of a one-shot operation keeps the batch's success condition (distinct, present, accepted ids) and its per-id result |
| `ResourceLedger.ApplyEachStepRepeated` | contracts/cw1-whitelist/src/resource.rs:36-42 | a one-shot batch that names an id a second time fails at that repeat |
| `ResourceLedger.ApplyEachStepRejected` | contracts/cw1-whitelist/src/resource.rs:36-42 | a batch fails when its new last id is absent or refused by the operation |
| `ResourceLedger.ApplyEachStepAccepted` | contracts/cw1-whitelist/src/resource.rs:36-42 | a new, present, accepted last id extends a successful batch, which then has that entry rewritten once |
| `ResourceLedger.ApplyEachSpec` | contracts/cw1-whitelist/src/resource.rs:35-43 | a batch of an operation that never succeeds twice in a row succeeds exactly when the ids are distinct, present and each accepted; it then rewrites exactly the listed entries and keeps the key set |
| `ResourceLedger.ApplyEachStopsAtFailure` | contracts/cw1-whitelist/src/resource.rs:35-43 | once a prefix of a batch fails, the whole batch fails with the same error |
| `ResourceLedger.ApplyEachFailsAt` | contracts/cw1-whitelist/src/resource.rs:36-42 | a batch fails at its first failing id with NotFound when the id is absent, and otherwise with that entry's own error |
| `ResourceLedger.ApplyEachKeepsKeying` | contracts/cw1-whitelist/src/resource.rs:36-42 | an operation that keeps ids keeps every entry stored under its own id |
| `ResourceLedger.UseIsOneShot` | contracts/cw1-whitelist/src/resource_type.rs:228-240 | using a resource twice in a row fails |
| `ResourceLedger.ReleaseIsOneShot` | contracts/cw1-whitelist/src/resource_type.rs:252-264 | releasing a resource twice in a row fails |
| `ResourceLedger.UseEach` | contracts/cw1-whitelist/src/resource.rs:35-43 | on success the key set is kept, every listed resource is Suspended and every other keeps its status |
| `ResourceLedger.UseEachSpec` | contracts/cw1-whitelist/src/resource.rs:35-43 | use_resources succeeds exactly when the ids are distinct and each names an Unused resource with no usage; each becomes Suspended and unlisted entries are unchanged |
| `ResourceLedger.UseEachFailsAt` | contracts/cw1-whitelist/src/resource.rs:35-43 | at the first failing id: NotFound if absent, OtherError if already used in the batch or not Unused, ResourceOverflow if it holds usage |
| `ResourceLedger.ReleaseEach` | contracts/cw1-whitelist/src/resource.rs:117-126 | on success the key set is kept, every listed resource is Unused with zero usage and every other entry is unchanged |
| `ResourceLedger.ReleaseEachSpec` | contracts/cw1-whitelist/src/resource.rs:117-126 | release_resources succeeds exactly when the ids are distinct and each names a Suspended resource; each is reset to Unused and unlisted entries are unchanged |
| `ResourceLedger.ReleaseEachFailsAt` | contracts/cw1-whitelist/src/resource.rs:117-126 | at the first failing id: NotFound if absent, OtherError if already released in the batch or not Suspended |
| `ResourceLedger.UpdateEach` | contracts/cw1-whitelist/src/resource.rs:65-73 | a successful update fold keeps the key set of the store |
| `ResourceLedger.UpdateEachSucceeds` | contracts/cw1-whitelist/src/resource.rs:65-73 | the update fold succeeds exactly when every listed id names an Unused resource, and changes only attributes |
| `ResourceLedger.UpdateEachKeepsUnlisted` | contracts/cw1-whitelist/src/resource.rs:65-73 | entries whose ids are not listed are unchanged |
| `ResourceLedger.UpdateEachDistinct` | contracts/cw1-whitelist/src/resource.rs:65-73 | with distinct ids, each listed entry is the pairwise update_resource of its own type |
| `ResourceLedger.UpdateEachSpec` | contracts/cw1-whitelist/src/resource.rs:65-73 | update_resources as a whole: success condition, key set kept, status kept, unlisted entries kept, pairwise application |
| `ResourceLedger.UpdateEachStopsAtFailure` | contracts/cw1-whitelist/src/resource.rs:65-73 | once a prefix of the pairs fails, the whole batch fails with the same error |
| `ResourceLedger.UpdateEachFailsAt` | contracts/cw1-whitelist/src/resource.rs:65-73 | at the first failing pair: NotFound if the id is absent, OtherError if the resource is not Unused |
| `ResourceLedger.AddOne` | contracts/cw1-whitelist/src/resource.rs:91-99 | adding succeeds exactly when the id is new, failing with AlreadyExists otherwise; on success the resource is stored under its id and every earlier entry is kept |
| `ResourceLedger.AddEach` | contracts/cw1-whitelist/src/resource.rs:91-99 | the add fold fails only with AlreadyExists, and on success keeps every earlier entry |
| `ResourceLedger.AddEachSucceeds` | contracts/cw1-whitelist/src/resource.rs:91-99 | add succeeds exactly when the new ids are pairwise distinct and none is stored yet; the only error is AlreadyExists; old entries are kept and the keys grow by the new ids |
| `ResourceLedger.AddEachStores` | contracts/cw1-whitelist/src/resource.rs:91-99 | after a successful add, every resource sits under its own id |
| `ResourceLedger.AddEachSpec` | contracts/cw1-whitelist/src/resource.rs:91-99 | add_resources as a whole: success condition, AlreadyExists, resulting key set and contents |
| `ResourceLedger.AddEachStopsAtFailure` | contracts/cw1-whitelist/src/resource.rs:91-99 | once a prefix of the batch is refused, the whole batch is refused with the same error |
| `ResourceLedger.AddEachKeepsKeying` | contracts/cw1-whitelist/src/resource.rs:98 | storing under get_id keeps every entry under its own id |
| `ResourceLedger.DeleteOne` | contracts/cw1-whitelist/src/resource.rs:144-156 | deleting succeeds exactly when the entry exists and is Unused; NotFound when absent, OtherError when in use; on success only that key is removed |
| `ResourceLedger.DeleteEach` | contracts/cw1-whitelist/src/resource.rs:144-156 | the delete fold fails only with NotFound or OtherError, and on success removes keys without adding any |
| `ResourceLedger.DeleteEachSpec` | contracts/cw1-whitelist/src/resource.rs:144-156 | delete succeeds exactly when the ids are distinct, present and Unused; it then removes exactly those keys |
| `ResourceLedger.DeleteEachStopsAtFailure` | contracts/cw1-whitelist/src/resource.rs:144-156 | once a prefix fails, the whole batch fails with the same error |
| `ResourceLedger.DeleteEachFailsAt` | contracts/cw1-whitelist/src/resource.rs:144-156 | at the first failing id: NotFound if absent or already deleted in the batch, OtherError if not Unused |
| `ResourceLedger.DeleteEachKeepsKeying` | contracts/cw1-whitelist/src/resource.rs:144-156 | deleting keeps the remaining entries under their own ids |
| `ResourceLedger.SetStatusIn` | contracts/cw1-whitelist/src/resource_type.rs:201-203 | setting an entry's status succeeds exactly when the entry exists (else NotFound), changes only that entry's status and keeps the key set |
| `ResourceLedger.ResourceStore.QueryResources` | contracts/cw1-whitelist/src/resource.rs:10-20 | the loop returns the query answer |
| `ResourceLedger.ResourceStore.UseResources` | contracts/cw1-whitelist/src/resource.rs:24-46 | non-admins get Unauthorized; otherwise the outcome and new map are those of the use fold; a failure leaves the map as it was; entries stay keyed by id |
| `ResourceLedger.ResourceStore.UpdateResources` | contracts/cw1-whitelist/src/resource.rs:49-76 | non-admins get Unauthorized; a length mismatch gives OtherError; otherwise the outcome and new map are those of the update fold; a failure leaves the map as it was |
| `ResourceLedger.ResourceStore.AddResources` | contracts/cw1-whitelist/src/resource.rs:79-102 | non-admins get Unauthorized; otherwise the outcome and new map are those of the add fold; a failure leaves the map as it was |
| `ResourceLedger.ResourceStore.ReleaseResources` | contracts/cw1-whitelist/src/resource.rs:105-129 | non-admins get Unauthorized; otherwise the outcome and new map are those of the release fold; a failure leaves the map as it was |
| `ResourceLedger.ResourceStore.DeleteResources` | contracts/cw1-whitelist/src/resource.rs:132-159 | non-admins get Unauthorized; otherwise the outcome and new map are those of the delete fold; a failure leaves the map as it was |
| `ResourceLedger.ResourceStore.UpdateStatus` | contracts/cw1-whitelist/src/order.rs:58 | the stored entry's status is set as SetStatusIn says |
| `Orders.DecimalString` | contracts/cw1-whitelist/src/order.rs:45 | an order id is a non-empty string of decimal digits with no leading zero |
| `Orders.DecimalRoundTrip` | contracts/cw1-whitelist/src/order.rs:45 | parsing an order id gives back the block height |
| `Orders.DecimalStringInjective` | contracts/cw1-whitelist/src/order.rs:45-55 | two heights give the same order id exactly when they are equal |
| `Orders.FirstCoinOf` | contracts/cw1-whitelist/src/order.rs:32 | returns the first attached coin of the denomination, or none exactly when no coin has it |
| `Orders.OtherDenominationsIgnored` | contracts/cw1-whitelist/src/order.rs:32-41 | a coin in another denomination changes neither the coin found nor whether the cost is covered |
| `Orders.OnlyFirstCoinCounts` | contracts/cw1-whitelist/src/order.rs:32-41 | a first DEFAULT_DENOM coin that is too small fails the payment check whatever follows it |
| `Orders.Covers` | contracts/cw1-whitelist/src/order.rs:32-41 | the payment covers a cost exactly when the first DEFAULT_DENOM coin attached is at least that cost |
| `Orders.Orderable` | contracts/cw1-whitelist/src/order.rs:23-26 | a resource can be ordered exactly when its status is not Unused |
| `Orders.Transition` | contracts/cw1-whitelist/src/order.rs:125-183 | an admin action always changes the status; Terminated is reached only by Terminate from Exception; Terminated and Expired orders allow no action |
| `Orders.Create` | contracts/cw1-whitelist/src/order.rs:12-66 | failures are the storage error, NotFound or OtherError; a new order implies an orderable resource and covering funds, locks price times duration, runs from now to now plus duration, is Active, belongs to the sender, and is stored under the height's decimal id while the resource keys stay the same |
| `Orders.Settle` | contracts/cw1-whitelist/src/order.rs:68-107 | failures are the storage error, NotFound or OtherError; success implies the order exists and its end height is reached, marks only that order Expired, keeps the resource keys and pays the locked funds in DEFAULT_DENOM |
| `Orders.Handle` | contracts/cw1-whitelist/src/order.rs:109-184 | non-admins get Unauthorized; success implies the order exists, its new status is the one the action's transition allows, no other order changes, a payment is made exactly on Terminate, and the resources change only on Terminate |
| `Orders.CreateSpec` | contracts/cw1-whitelist/src/order.rs:12-66 | create_order fails with the storage error for a missing resource and otherwise with OtherError; it succeeds exactly when the resource passes the guard and the first DEFAULT_DENOM coin covers price times duration; the order carries the height's id, the sender, start and end heights, locked funds equal to the cost, and Active; it overwrites any order with that id; the resource becomes Suspended |
| `Orders.SettleSpec` | contracts/cw1-whitelist/src/order.rs:68-107 | end_order fails with OtherError before the end height and with the storage error for a missing order or resource; otherwise it marks the order Expired, sets the resource Unused, and pays exactly the locked funds in DEFAULT_DENOM to the owner |
| `Orders.HandleSpec` | contracts/cw1-whitelist/src/order.rs:109-184 | non-admins get Unauthorized; a missing order gives the storage error; an action not in the transition table gives OtherError; otherwise the order moves as the table says; only Terminate sets the resource Unused (NotFound if it is gone) and refunds the locked funds to the initiator |
| `Orders.CreateKeepsInvariant` | contracts/cw1-whitelist/src/order.rs:44-58 | after create_order, orders sit under their ids, each id is its start height in decimal, start <= end, and resources stay keyed |
| `Orders.SettleKeepsInvariant` | contracts/cw1-whitelist/src/order.rs:94-99 | end_order keeps the same invariant |
| `Orders.HandleKeepsInvariant` | contracts/cw1-whitelist/src/order.rs:125-183 | handle_exception keeps the same invariant |
| `Orders.SecondOrderOnSameResource` | contracts/cw1-whitelist/src/order.rs:23-58 | with the guard taken literally, a resource already taken by an order can be ordered again at another height, and both orders stand |
| `Orders.TerminateOnce` | contracts/cw1-whitelist/src/order.rs:154-181 | after a Terminate, every further admin action on that order, including a second Terminate, fails with OtherError |
| `Orders.SettleRepeats` | contracts/cw1-whitelist/src/order.rs:68-107 | a settled order can be settled again, paying the same amount to the owner a second time |
| `Orders.TerminatedStillSettles` | contracts/cw1-whitelist/src/order.rs:68-181 | an order terminated with a refund to the initiator still pays the owner its locked funds once the end height is reached |
| `Orders.LeaseLifecycle` | contracts/cw1-whitelist/src/order.rs:12-107 | the price-20 resource: ordering it fresh fails; after use_resources, a 3-block order with 60 attached locks 60; settling early fails; at the end height the owner is paid 60, the order is Expired and the resource Unused; settling again pays 60 more |
| `Orders.LeaseSettlement` | contracts/cw1-whitelist/src/order.rs:68-107 | the 60-unit order on the price-20 resource: settling one block early fails; at the end height the owner is paid 60, the order is Expired and the resource Unused; settling again pays 60 more |
| `Orders.ExceptionLifecycle` | contracts/cw1-whitelist/src/order.rs:109-184 | an admin marks an Active 60-unit order Exception, then Terminate refunds 60 to the tenant and frees the resource; a second Terminate fails; a non-admin is refused |
| `Orders.OrderBook.CreateOrder` | contracts/cw1-whitelist/src/order.rs:12-66 | outcome, stored order and both maps are those of Create; a failure changes nothing; the invariant is kept |
| `Orders.OrderBook.EndOrder` | contracts/cw1-whitelist/src/order.rs:68-107 | outcome, payment and both maps are those of Settle; a failure changes nothing; the invariant is kept |
| `Orders.OrderBook.HandleException` | contracts/cw1-whitelist/src/order.rs:109-184 | outcome, refund and both maps are those of Handle; a failure, including one after the order was rewritten, leaves both maps as they were; the invariant is kept |

## Left out

- Storage mechanics:
  - `cw_storage_plus` loads, saves, `may_load`, `update` and `remove` are modelled as Dafny maps.
  - Serialisation failures of `save` are not modelled.
  - The admin list's own `load` at the start of each gated call is not modelled; the list is a parameter.
- Integer widths are not modelled. Counters, prices, heights and amounts are `nat`, so the `u128`/`u64` overflow panics are absent in:
  - `get_resource_price`;
  - `add_used`;
  - `price × duration` in create_order;
  - `now + duration` in create_order.
- `ResourceStore` methods: changes an entry made before a later `?` in the same call are undone, as the host undoes them. The model restores the saved map instead of keeping those intermediate writes.
- `ResourceTypes.UseResource`, `ResourceTypes.ReleaseResource`: partial updates of a resource before an inner `?` fails are not visible. The caller discards that value.
- `Response` attributes (`action`, `order_id`, `locked_funds`, `refund`) are not modelled. The methods return the created order or the payment instead.
- `Addr` validation and the contents of `Region::Other` are not modelled; they are plain strings.
- The contract's message envelope and query enums (msg.rs) and the admin list's own implementation (state.rs) are not part of this model.
- The bodies of `check_status`, `update_status_by_RESOURCE_MAP` and `get_owner` are not part of this model. They are read as described above.
