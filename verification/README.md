# Fish-token event parser, modelled in Dafny

This project models the fish-token log handlers of the event parser
(`component/eventParser/fishTokenParser/helper.js`). Each handler turns one
raw contract log into a flat document and reconciles it into a collection
with an idempotent `$set` upsert.

- `handleTransferEvent`, `handleIssueTokensEvent` and `handleNewSharkEvent`
  classify a log. The key is `(log_id, contract_address)`. The `$set`
  document carries the provenance fields, the event type, the block number,
  the `removed` flag (made total: `false` unless the raw flag is truthy) and
  the kind's arguments.
- `handleTokenCreated` handles a pool-creation log. It resolves the pool's
  token address through an on-chain call. When the log has a truthy
  `blockNumber`, it registers the token with the watch-set manager
  (`addContract`). It then upserts a registration keyed by the token address.
  The stored deadline is the raw deadline times 1000.
- `getTokenForPool` reads a registration back by its `pool_address`.

Modules:

- `Wrappers` (`wrappers.dfy`): `Option` and `Result`.
- `JsValues` (`js_values.dfy`): JavaScript values as the handlers see them.
  It defines truthiness and the numeric coercion behind `epochDeadline * 1000`.
- `Store` (`store.dfy`): documents as `map<Field, Value>`, a collection as a
  map from its key to its document, and `Upsert`, the model of
  `update(query, {$set: fields}, {upsert: true, setDefaultsOnInsert: true})`.
  The document an upsert inserts starts from a seed. The seed is the schema
  defaults with the query's equality fields on top, and `$set` is applied
  over it.
- `FishTokenEvents` (`fish_token_events.dfy`): raw logs, classification,
  the three handlers, and `Replay` (delivering a batch in order).
- `TokenDiscovery` (`token_discovery.dfy`): `HandleTokenCreated` and
  `GetTokenForPool`.

Collaborators become parameters:

- The outcome of the pool's `token()` call is a `Result<string, string>`.
- Whether `addContract` succeeds is a `bool`.
- The `addContract` calls made are returned as a trace (`Discovery.calls`).
- The schema defaults are an opaque `defaults` document.

The pool's `token()` is read (helper.js:103-104) before `blockNumber` is
tested, so `HandleTokenCreated` consults `token` in either case, and a failed
read fails the whole operation, even for a log without a block number.

## Model

| member | source | states |
|---|---|---|
| JsValues.Truthy | component/eventParser/fishTokenParser/helper.js:19 | A value is falsy exactly when it is one of `undefined`, `null`, `false`, `0`, `NaN`, `""` |
| JsValues.ToNumber | component/eventParser/fishTokenParser/helper.js:110 | Coercion gives NaN exactly for `undefined`, `NaN` and a string that is not all digits; a number is itself; a digit string gives a non-negative number |
| JsValues.DecimalRoundTrip | component/eventParser/fishTokenParser/helper.js:110 | The decimal spelling of a natural number consists of digits and reads back as that number, so a uint argument delivered as a decimal string coerces to exactly its integer |
| JsValues.DecimalStringToNumber | component/eventParser/fishTokenParser/helper.js:110 | JavaScript numeric coercion of a decimal string yields the number it spells |
| Store.Upsert | component/eventParser/fishTokenParser/helper.js:39 | After a `$set` upsert the key is present and nothing else is added or removed; the document's fields are those of the matched (or seeded) document plus the `$set` fields |
| Store.UpsertSets | component/eventParser/fishTokenParser/helper.js:39 | `$set` upsert: the key is present afterwards, every `$set` field takes its new value, every other field of the matched or freshly seeded document keeps its value, and every other document is unchanged |
| Store.UpsertIdempotent | component/eventParser/fishTokenParser/helper.js:39 | Applying the same `$set` upsert twice gives the same collection as applying it once |
| Store.UpsertAbsorbs | component/eventParser/fishTokenParser/helper.js:39 | A later `$set` under the same key that names every field an earlier one named erases every trace of the earlier one |
| Store.UpsertCommutes | component/eventParser/fishTokenParser/helper.js:39 | Upserts under different keys commute |
| FishTokenEvents.UpdateKeys | component/eventParser/fishTokenParser/helper.js:29-38 | The classified `$set` document names exactly the common fields plus the kind's payload fields, and never `log_id` or `contract_address` |
| FishTokenEvents.UpdateValues | component/eventParser/fishTokenParser/helper.js:29-38 | The classified document carries `tx_hash`, `signature`, the kind's type tag, `block_number`, the total `removed` flag and the kind's arguments unchanged |
| FishTokenEvents.HandleReconciles | component/eventParser/fishTokenParser/helper.js:25-39 | Handling a log keeps every other document unchanged. It overwrites exactly the kind's fields of the document under `(id, address)`, keeps every other field, and stores the header values |
| FishTokenEvents.HandleStoresPayload | component/eventParser/fishTokenParser/helper.js:21-38 | Each argument the kind copies is stored unchanged |
| FishTokenEvents.RemovedFlagStored | component/eventParser/fishTokenParser/helper.js:18-19 | The stored `removed` is `true` exactly when the raw flag is truthy and `false` exactly when it is falsy; a log without the flag stores `false` |
| FishTokenEvents.HandleTransferEvent | component/eventParser/fishTokenParser/helper.js:12-40 | The collection gains the log's identity and loses nothing; the document under it is a TRANSFER carrying `_from`, `_to`, `_value` |
| FishTokenEvents.HandleIssueTokensEvent | component/eventParser/fishTokenParser/helper.js:42-67 | The collection gains the log's identity and loses nothing; the document under it is an ISSUE carrying `_member` and `_value` |
| FishTokenEvents.HandleNewSharkEvent | component/eventParser/fishTokenParser/helper.js:69-95 | The collection gains the log's identity and loses nothing; the document under it is a NEW_SHARK carrying `_shark` and `_value` |
| FishTokenEvents.TransferStored | component/eventParser/fishTokenParser/helper.js:12-39 | A transfer is stored under `(id, address)` as TRANSFER with `_from`, `_to`, `_value` in `from_address`, `to_address`, `amount_wei` |
| FishTokenEvents.IssueStored | component/eventParser/fishTokenParser/helper.js:42-66 | An issue is stored as ISSUE with `_member` in `to_address` and `_value` in `amount_wei`; `from_address` is not written, so it is present afterwards exactly when it was before and keeps its old value |
| FishTokenEvents.NewSharkStored | component/eventParser/fishTokenParser/helper.js:69-94 | A new-shark event is stored as NEW_SHARK with `_shark` in `shark_address` and `_value` in `shark_amount_wei` |
| FishTokenEvents.HandlePreservesWellKeyed | component/eventParser/fishTokenParser/helper.js:25-28 | If every document carries the identity it is stored under, that still holds after handling any log |
| FishTokenEvents.IdentityUnique | component/eventParser/fishTokenParser/helper.js:25-28 | In a well-keyed collection two documents with the same stored `(log_id, contract_address)` are the same document |
| FishTokenEvents.HandleIdempotent | component/eventParser/fishTokenParser/helper.js:39 | Delivering the same log twice leaves the collection as delivering it once |
| FishTokenEvents.HandleCommutes | component/eventParser/fishTokenParser/helper.js:25-39 | Logs with different identities can be handled in either order with the same result |
| FishTokenEvents.RetractedUpdate | component/eventParser/fishTokenParser/helper.js:18-34 | A retracted redelivery writes the same `$set` document except that `removed` is `true` |
| FishTokenEvents.RetractionMarks | component/eventParser/fishTokenParser/helper.js:29-39 | A retraction does not delete the document: it only turns `removed` on |
| FishTokenEvents.RetractionRoundTrip | component/eventParser/fishTokenParser/helper.js:29-39 | Deliver, retract, then deliver again ends in exactly the state after the first delivery, whatever the log's own `removed` flag |
| FishTokenEvents.ReplayKeys | component/eventParser/fishTokenParser/helper.js:39 | After a batch the collection holds the old identities plus the batch's, and nothing is deleted |
| FishTokenEvents.ReplayShape | component/eventParser/fishTokenParser/helper.js:39 | After a batch each document is its old self (or seed) with the batch's `$set` documents for that identity merged in delivery order |
| FishTokenEvents.ReplayTwice | component/eventParser/fishTokenParser/helper.js:39 | Redelivering a whole batch after it was applied changes nothing |
| FishTokenEvents.ReplayIsolates | component/eventParser/fishTokenParser/helper.js:25-39 | A batch leaves alone every document whose identity none of its logs carries |
| FishTokenEvents.TransferScenario | component/eventParser/fishTokenParser/helper.js:12-39 | A concrete transfer into an empty collection stores exactly the expected ten-field document |
| TokenDiscovery.ScaleDeadline | component/eventParser/fishTokenParser/helper.js:110 | The stored deadline is a number exactly when the raw deadline coerces, and is then a whole multiple of 1000 whose thousandth is the raw value; otherwise it is NaN |
| TokenDiscovery.HandleTokenCreated | component/eventParser/fishTokenParser/helper.js:97-123 | At most one `addContract` call; the operation succeeds exactly when the token read succeeds and `addContract` either succeeds or is not needed; success adds the token's key and nothing else, failure changes nothing |
| TokenDiscovery.DeadlineFromDecimal | component/eventParser/fishTokenParser/helper.js:110 | A deadline given in seconds, as a decimal string or a number, is stored as that many seconds times 1000 |
| TokenDiscovery.AddContractCalledIffBlock | component/eventParser/fishTokenParser/helper.js:118-120 | `addContract` is called (once) if and only if the token was resolved and `blockNumber` is truthy, with the token, FishToken, the block, the removed flag and the scaled deadline |
| TokenDiscovery.TokenCreatedStored | component/eventParser/fishTokenParser/helper.js:97-122 | On success the registration under the token address holds the pool, the scaled deadline, the creation block and the removed flag; its fields are exactly those of the matched document (or the defaults under the token address) plus these four, and every other field keeps its value; other registrations are unchanged; the upsert happens whether or not `addContract` was called |
| TokenDiscovery.FailureStoresNothing | component/eventParser/fishTokenParser/helper.js:104-122 | The operation fails exactly when the token read fails or a needed `addContract` fails; a failure stores nothing, and a failed token read makes no call |
| TokenDiscovery.TokenCreatedKeepsKeyed | component/eventParser/fishTokenParser/helper.js:107-122 | Every registration keeps carrying the token address it is stored under |
| TokenDiscovery.TokenCreatedIdempotent | component/eventParser/fishTokenParser/helper.js:107-122 | Handling the same creation log twice stores the same registrations as once and repeats the identical `addContract` call |
| TokenDiscovery.GetTokenForPool | component/eventParser/fishTokenParser/helper.js:125-131 | Returns nothing exactly when no registration matches the pool, and otherwise one matching stored registration. A pool that is not null or undefined matches only a registration storing exactly it; a null or undefined pool also matches, and so finds, a registration without a pool |
| TokenDiscovery.CreationMakesPoolResolvable | component/eventParser/fishTokenParser/helper.js:107-131 | After a successful creation for pool `p` and token `t`, `t` matches `p`, and it is the only match when no other token named `p` before |

## Left out

- The web3 provider and the pool contract's `token()` call are not modelled.
  Its outcome is the `token` parameter. The log line (line 105) is left out
  too.
- `contractHelper.addContract` and `ContractType` are not part of this model.
  A call is recorded as an `AddContractCall` in the returned trace. Its
  outcome is the `addContractSucceeds` parameter.
- The Mongoose schemas (`parsedDataModel`, `contractModel`) are not part of
  this model. Their defaults are the opaque `defaults` document, merged under
  the query fields on insert. Casting of values to schema types is also left
  out.
- `Events.js` is not part of this model. The type tags are written as the
  strings `"TRANSFER"`, `"ISSUE"` and `"NEW_SHARK"`. Only their being distinct
  matters to the model.
- Store failures, promise plumbing, atomicity and concurrency of the store
  are left out. Every upsert succeeds and runs alone.
- JavaScript numbers are modelled as unbounded integers.
  `parseInt(epochDeadline * 1000)` is exact multiplication here. The source
  is faithful only while the product stays below 2^53. Strings coerce only
  when they are all decimal digits. JavaScript also accepts whitespace,
  signs, fractions, exponents and hex, which become NaN here. Objects and
  other values outside `JsValues.Value` are left out.
- The MongoDB driver's treatment of an `undefined` value inside `$set` is
  left out. A missing argument is stored as `Undefined`. In a `findOne`
  filter, `undefined` is treated as `null`, as the driver serialises it by
  default.
- RawEvent: `returnValues` is always an object, and `id`, `address`,
  `transactionHash` and `signature` are always strings. A log without
  `returnValues` makes the handler throw when it reads an argument (lines
  21, 48, 78, 100), and nothing is written. A missing or non-string `id`
  or `address` changes the query the store sees. Neither case is
  modelled.
- `findOne` with several matches returns the store's choice. The model makes
  the choice nondeterministically among the matches.
- The model makes no claim about the watch-set manager being safe to call
  twice. `TokenCreatedIdempotent` only shows that the repeated call is
  identical.
