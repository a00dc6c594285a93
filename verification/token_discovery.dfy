/** Discovery of fish tokens from pool-creation logs, and the lookup of a
    pool's token. A creation log names a pool; the pool's token address is
    read from the chain, registered with the watch-set manager when the log
    carries a block number, and recorded in the token collection keyed by
    that address. */
module TokenDiscovery {
  import opened Wrappers
  import opened JsValues
  import opened Store
  import opened FishTokenEvents

  /** The token collection: one registration per token address. */
  type Registrations = map<string, Record>

  /** The contract kinds the watch-set manager knows; only one is used here. */
  datatype ContractType = FishToken

  /** One call to the watch-set manager's `addContract`. */
  datatype AddContractCall = AddContractCall(
    address: string,
    kind: ContractType,
    blockNumber: Value,
    removed: bool,
    deadline: Value)

  /** Why a creation log could not be processed; the caller retries it. */
  datatype DiscoveryError =
    | TokenCallFailed(reason: string)
    | AddContractFailed

  /** What handling a creation log did: the token collection afterwards, the
      `addContract` calls it made, and the error it ended with, if any. */
  datatype Discovery = Discovery(
    registrations: Registrations,
    calls: seq<AddContractCall>,
    error: Option<DiscoveryError>)

  /** `parseInt(deadline * 1000)`: the chain's epoch seconds as epoch
      milliseconds, or NaN when the raw value is not a number. */
  function ScaleDeadline(raw: Value): (r: Value)
    ensures r.Num? <==> ToNumber(raw).Some?
    ensures !r.Num? ==> r == NaN
    ensures r.Num? ==> r.n % 1000 == 0 && r.n / 1000 == ToNumber(raw).value
  {
    match ToNumber(raw)
    case Some(n) => Num(n * 1000)
    case None => NaN
  }

  /** The document an upsert of a new token starts from: schema defaults
      under the query's `address` field. */
  function RegistrationSeed(token: string, defaults: Record): Record
  {
    defaults + map[Address := Str(token)]
  }

  /** The `$set` document of a creation log. */
  function RegistrationUpdate(ev: RawEvent): Record
  {
    map[
      PoolAddress := Arg(ev, Pool),
      Deadline := ScaleDeadline(Arg(ev, DeadlineArg)),
      BlockCreated := ev.blockNumber,
      Removed := Bool(Truthy(ev.removed))]
  }

  /** Handling a pool-creation log. `token` is the outcome of the pool's
      `token()` call; `addContractSucceeds` is the outcome of the watch-set
      registration, should it be made. A failed step stops everything after it. */
  function HandleTokenCreated(regs: Registrations, ev: RawEvent, token: Result<string, string>,
                              addContractSucceeds: bool, defaults: Record): (r: Discovery)
    ensures |r.calls| <= 1
    ensures r.error.None? <==> token.Success? && (addContractSucceeds || !Truthy(ev.blockNumber))
    ensures r.error.None? ==> r.registrations.Keys == regs.Keys + {token.value}
    ensures r.error.Some? ==> r.registrations == regs
  {
    match token
    case Failure(reason) => Discovery(regs, [], Some(TokenCallFailed(reason)))
    case Success(t) =>
      var update := RegistrationUpdate(ev);
      var stored := Upsert(regs, t, RegistrationSeed(t, defaults), update);
      if Truthy(ev.blockNumber) then
        var call := AddContractCall(t, FishToken, ev.blockNumber, Truthy(ev.removed), update[Deadline]);
        if addContractSucceeds then Discovery(stored, [call], None)
        else Discovery(regs, [call], Some(AddContractFailed))
      else Discovery(stored, [], None)
  }

  /** The deadline a decimal-string epoch converts to is that epoch times 1000. */
  lemma DeadlineFromDecimal(seconds: nat)
    ensures ScaleDeadline(Str(DecimalString(seconds))) == Num(seconds * 1000)
    ensures ScaleDeadline(Num(seconds)) == Num(seconds * 1000)
  {
    DecimalStringToNumber(seconds);
  }

  /** The watch-set manager is called, once, exactly when the token was
      resolved and the log carries a truthy block number (so never for block
      0 or a missing block), with the token, the block, the retraction flag
      and the scaled deadline. */
  lemma AddContractCalledIffBlock(regs: Registrations, ev: RawEvent, token: Result<string, string>,
                                  addContractSucceeds: bool, defaults: Record)
    ensures var r := HandleTokenCreated(regs, ev, token, addContractSucceeds, defaults);
      && (|r.calls| == 1 <==> token.Success? && Truthy(ev.blockNumber))
      && (r.calls == [] <==> !(token.Success? && Truthy(ev.blockNumber)))
      && (token.Success? && Truthy(ev.blockNumber) ==>
            r.calls[0] == AddContractCall(token.value, FishToken, ev.blockNumber, Truthy(ev.removed),
                                          ScaleDeadline(Arg(ev, DeadlineArg))))
  {
  }

  /** When every call succeeds (or the registration is not needed), the
      registration is stored under the token address with the pool, the
      scaled deadline, the creation block and the retraction flag; every
      other token's registration is unchanged. The registration's fields are
      those of the matched document (or, for a new token, of the schema
      defaults under the token address) plus the four written ones, and
      every field the `$set` does not name keeps its value. */
  lemma TokenCreatedStored(regs: Registrations, ev: RawEvent, t: string,
                           addContractSucceeds: bool, defaults: Record)
    requires addContractSucceeds || !Truthy(ev.blockNumber)
    ensures var r := HandleTokenCreated(regs, ev, Success(t), addContractSucceeds, defaults);
      && r.error == None
      && r.registrations.Keys == regs.Keys + {t}
      && (forall u :: u in regs && u != t ==> r.registrations[u] == regs[u])
      && PoolAddress in r.registrations[t] && r.registrations[t][PoolAddress] == Arg(ev, Pool)
      && Deadline in r.registrations[t]
      && r.registrations[t][Deadline] == ScaleDeadline(Arg(ev, DeadlineArg))
      && BlockCreated in r.registrations[t] && r.registrations[t][BlockCreated] == ev.blockNumber
      && Removed in r.registrations[t] && r.registrations[t][Removed] == Bool(Truthy(ev.removed))
      && var b := Base(regs, t, RegistrationSeed(t, defaults));
         && r.registrations[t].Keys == b.Keys + {PoolAddress, Deadline, BlockCreated, Removed}
         && (forall f :: f in b && f !in {PoolAddress, Deadline, BlockCreated, Removed} ==>
               r.registrations[t][f] == b[f])
  {
    UpsertSets(regs, t, RegistrationSeed(t, defaults), RegistrationUpdate(ev));
  }

  /** A failed step leaves the token collection untouched: a failed token
      read makes no call at all, a failed registration has made its one call. */
  lemma FailureStoresNothing(regs: Registrations, ev: RawEvent, token: Result<string, string>,
                             addContractSucceeds: bool, defaults: Record)
    ensures var r := HandleTokenCreated(regs, ev, token, addContractSucceeds, defaults);
      && (r.error.Some? <==> token.Failure? || (Truthy(ev.blockNumber) && !addContractSucceeds))
      && (r.error.Some? ==> r.registrations == regs)
      && (token.Failure? ==> r.calls == [] && r.error == Some(TokenCallFailed(token.error)))
  {
  }

  /** Each registration carries the address it is stored under. */
  ghost predicate RegistrationsKeyed(regs: Registrations)
  {
    forall t :: t in regs ==> Address in regs[t] && regs[t][Address] == Str(t)
  }

  /** Handling a creation log keeps every registration tagged with its own
      token address. */
  lemma TokenCreatedKeepsKeyed(regs: Registrations, ev: RawEvent, token: Result<string, string>,
                               addContractSucceeds: bool, defaults: Record)
    requires RegistrationsKeyed(regs)
    ensures RegistrationsKeyed(HandleTokenCreated(regs, ev, token, addContractSucceeds, defaults).registrations)
  {
    if token.Success? {
      var t := token.value;
      UpsertSets(regs, t, RegistrationSeed(t, defaults), RegistrationUpdate(ev));
      assert Address !in RegistrationUpdate(ev);
      assert Address in Base(regs, t, RegistrationSeed(t, defaults));
    }
  }

  /** Handling the same creation log twice, with the same token, stores the
      same registration as handling it once, and repeats the identical
      `addContract` call. */
  lemma TokenCreatedIdempotent(regs: Registrations, ev: RawEvent, t: string,
                               addContractSucceeds: bool, defaults: Record)
    ensures var once := HandleTokenCreated(regs, ev, Success(t), addContractSucceeds, defaults);
      var twice := HandleTokenCreated(once.registrations, ev, Success(t), addContractSucceeds, defaults);
      twice.registrations == once.registrations && twice.calls == once.calls && twice.error == once.error
  {
    UpsertIdempotent(regs, t, RegistrationSeed(t, defaults), RegistrationUpdate(ev));
  }

  /** A query value MongoDB treats as null. The driver sends `undefined` in
      a filter as `null`. */
  predicate Nullish(v: Value) {
    v == Null || v == Undefined
  }

  /** Whether a registration matches `{pool_address: pool}`. A null query
      matches a document whose `pool_address` is null or missing; any other
      value matches a stored equal value. */
  predicate PoolMatch(doc: Record, pool: Value) {
    if Nullish(pool) then PoolAddress !in doc || Nullish(doc[PoolAddress])
    else PoolAddress in doc && doc[PoolAddress] == pool
  }

  /** The tokens whose registration matches pool `pool`. */
  function PoolMatches(regs: Registrations, pool: Value): set<string>
  {
    set t | t in regs && PoolMatch(regs[t], pool)
  }

  /** `findOne({pool_address: pool})`: some registration matching the pool,
      or nothing when none does. Which one, when several do, is the store's
      choice. A pool that is not null or undefined is found only in a
      registration that stores exactly it; a null or undefined pool also
      finds a registration that has no pool at all. */
  method GetTokenForPool(regs: Registrations, pool: Value) returns (r: Option<Record>)
    ensures r.None? <==> PoolMatches(regs, pool) == {}
    ensures r.Some? ==> exists t :: t in PoolMatches(regs, pool) && r.value == regs[t]
    ensures r.Some? && !Nullish(pool) ==> PoolAddress in r.value && r.value[PoolAddress] == pool
    ensures Nullish(pool) && (exists t :: t in regs && PoolAddress !in regs[t]) ==> r.Some?
  {
    var matches := PoolMatches(regs, pool);
    if Nullish(pool) && exists u :: u in regs && PoolAddress !in regs[u] {
      var u :| u in regs && PoolAddress !in regs[u];
      assert u in matches;
    }
    if matches == {} {
      return None;
    }
    var t :| t in matches;
    return Some(regs[t]);
  }

  /** After a successful creation for pool `p` resolving to token `t`, the
      pool resolves: `t` is among its matches, and it is the only one when no
      other token named `p` before. */
  lemma CreationMakesPoolResolvable(regs: Registrations, ev: RawEvent, t: string,
                                    addContractSucceeds: bool, defaults: Record)
    requires addContractSucceeds || !Truthy(ev.blockNumber)
    ensures var r := HandleTokenCreated(regs, ev, Success(t), addContractSucceeds, defaults);
      && t in PoolMatches(r.registrations, Arg(ev, Pool))
      && (PoolMatches(regs, Arg(ev, Pool)) <= {t} ==> PoolMatches(r.registrations, Arg(ev, Pool)) == {t})
  {
    TokenCreatedStored(regs, ev, t, addContractSucceeds, defaults);
  }
}
