/** The three fish-token log handlers: each classifies a raw log into the
    `(log_id, contract_address)` key and a flat `$set` document tagged with its
    event type, then upserts that document into the parsed-event collection. */
module FishTokenEvents {
  import opened JsValues
  import opened Store

  /** A raw log object as the chain client delivers it. `removed` and
      `blockNumber` are whatever the client put there (`Undefined` when the
      property is absent); `returnValues` holds the decoded event arguments. */
  datatype RawEvent = RawEvent(
    address: string,
    transactionHash: string,
    signature: string,
    id: string,
    blockNumber: Value,
    removed: Value,
    returnValues: map<ArgName, Value>)

  /** The names of the decoded event arguments the handlers read; `OtherArg`
      stands for any other argument of the ABI, never one of the names listed
      here. */
  datatype ArgName =
    | From        // _from
    | To          // _to
    | ValueArg    // _value
    | Member      // _member
    | Shark       // _shark
    | Pool        // _pool
    | DeadlineArg // _deadline
    | OtherArg(name: string)

  /** Reading `event.returnValues.<name>`: a missing argument reads as `undefined`. */
  function Arg(ev: RawEvent, name: ArgName): Value
  {
    if name in ev.returnValues then ev.returnValues[name] else Undefined
  }

  /** The identity a parsed event is stored under. */
  datatype EventKey = EventKey(logId: string, contractAddress: string)

  type EventStore = map<EventKey, Record>

  /** The event kinds of the fish-token contract. */
  datatype EventType = Transfer | Issue | NewShark

  /** The value stored in the `type` field for each kind. */
  function TypeTag(t: EventType): Value
  {
    match t
    case Transfer => Str("TRANSFER")
    case Issue => Str("ISSUE")
    case NewShark => Str("NEW_SHARK")
  }

  /** The stored retraction flag: `true` exactly when the raw `removed` is truthy. */
  function RemovedFlag(ev: RawEvent): bool
  {
    Truthy(ev.removed)
  }

  function KeyOf(ev: RawEvent): EventKey
  {
    EventKey(ev.id, ev.address)
  }

  /** The equality fields of the query `{log_id, contract_address}`; an
      upsert that inserts copies them into the new document. */
  function KeyFields(k: EventKey): Record
  {
    map[LogId := Str(k.logId), ContractAddress := Str(k.contractAddress)]
  }

  /** The document an upsert inserts before applying `$set`: schema defaults
      underneath the query's equality fields. */
  function Seed(k: EventKey, defaults: Record): Record
  {
    defaults + KeyFields(k)
  }

  /** One delivered log together with the kind of event it was decoded as
      (which of the three handlers receives it). */
  datatype Log = Log(kind: EventType, event: RawEvent)

  const CommonFields: set<Field> := {TxHash, Signature, Type, BlockNumber, Removed}

  /** The fields every handler writes: provenance, kind, block and retraction flag. */
  function Header(ev: RawEvent, t: EventType): Record
  {
    map[
      TxHash := Str(ev.transactionHash),
      Signature := Str(ev.signature),
      Type := TypeTag(t),
      BlockNumber := ev.blockNumber,
      Removed := Bool(RemovedFlag(ev))]
  }

  /** The kind-specific fields, copied unchanged from the decoded arguments. */
  function Payload(t: EventType, ev: RawEvent): Record
  {
    match t
    case Transfer => map[FromAddress := Arg(ev, From), ToAddress := Arg(ev, To), AmountWei := Arg(ev, ValueArg)]
    case Issue => map[ToAddress := Arg(ev, Member), AmountWei := Arg(ev, ValueArg)]
    case NewShark => map[SharkAddress := Arg(ev, Shark), SharkAmountWei := Arg(ev, ValueArg)]
  }

  function PayloadFields(t: EventType): set<Field>
  {
    match t
    case Transfer => {FromAddress, ToAddress, AmountWei}
    case Issue => {ToAddress, AmountWei}
    case NewShark => {SharkAddress, SharkAmountWei}
  }

  /** The fields the `$set` of a kind overwrites; nothing else is touched. */
  function Written(t: EventType): set<Field>
  {
    CommonFields + PayloadFields(t)
  }

  /** The `$set` document a log is classified into. */
  function Update(log: Log): Record
  {
    Header(log.event, log.kind) + Payload(log.kind, log.event)
  }

  function LogKey(log: Log): EventKey
  {
    KeyOf(log.event)
  }

  /** The classified document writes exactly the kind's fields, and never
      the identity fields (those come from the query). */
  lemma UpdateKeys(log: Log)
    ensures Update(log).Keys == Written(log.kind)
    ensures LogId !in Update(log) && ContractAddress !in Update(log)
  {
    assert Header(log.event, log.kind).Keys == CommonFields;
    assert Payload(log.kind, log.event).Keys == PayloadFields(log.kind);
  }

  /** The classified document carries the event's provenance, kind, block
      and retraction flag, and the kind's arguments unchanged. */
  lemma UpdateValues(log: Log)
    ensures CommonFields <= Update(log).Keys
    ensures Update(log)[TxHash] == Str(log.event.transactionHash)
    ensures Update(log)[Signature] == Str(log.event.signature)
    ensures Update(log)[Type] == TypeTag(log.kind)
    ensures Update(log)[BlockNumber] == log.event.blockNumber
    ensures Update(log)[Removed] == Bool(Truthy(log.event.removed))
    ensures forall f :: f in Payload(log.kind, log.event) ==> Update(log)[f] == Payload(log.kind, log.event)[f]
  {
    assert forall f :: f in CommonFields ==> f !in Payload(log.kind, log.event);
  }

  /** Upserting a log's `$set` document under its `(log_id, contract_address)` key. */
  function Handle(s: EventStore, log: Log, defaults: Record): EventStore
  {
    Upsert(s, LogKey(log), Seed(LogKey(log), defaults), Update(log))
  }

  /** `r` is `s` after handling a log of kind `t`: the document under `k`
      exists, carries the header, keeps every field it had that the kind does
      not write, and every other document is unchanged. */
  ghost predicate Reconciled(s: EventStore, r: EventStore, k: EventKey, ev: RawEvent,
                             t: EventType, defaults: Record)
  {
    && r.Keys == s.Keys + {k}
    && (forall j :: j in s && j != k ==> r[j] == s[j])
    && r[k].Keys == Base(s, k, Seed(k, defaults)).Keys + Written(t)
    && (forall f :: f in Base(s, k, Seed(k, defaults)) && f !in Written(t) ==>
          r[k][f] == Base(s, k, Seed(k, defaults))[f])
    && CommonFields <= r[k].Keys
    && r[k][TxHash] == Str(ev.transactionHash)
    && r[k][Signature] == Str(ev.signature)
    && r[k][Type] == TypeTag(t)
    && r[k][BlockNumber] == ev.blockNumber
    && r[k][Removed] == Bool(Truthy(ev.removed))
  }

  /** Handling a log is a `$set` of the kind's fields under the log's key:
      the header lands on the document, every field the kind does not write
      keeps its value, and every other document is unchanged. */
  lemma HandleReconciles(s: EventStore, log: Log, defaults: Record)
    ensures Reconciled(s, Handle(s, log, defaults), LogKey(log), log.event, log.kind, defaults)
  {
    UpdateKeys(log);
    UpdateValues(log);
    UpsertSets(s, LogKey(log), Seed(LogKey(log), defaults), Update(log));
  }

  /** The kind's arguments land on the document unchanged. */
  lemma HandleStoresPayload(s: EventStore, log: Log, defaults: Record)
    ensures LogKey(log) in Handle(s, log, defaults)
    ensures forall f :: f in Payload(log.kind, log.event) ==>
              f in Handle(s, log, defaults)[LogKey(log)] &&
              Handle(s, log, defaults)[LogKey(log)][f] == Payload(log.kind, log.event)[f]
  {
    UpdateValues(log);
    UpsertSets(s, LogKey(log), Seed(LogKey(log), defaults), Update(log));
  }

  /** The stored `removed` is `true` exactly when the raw `removed` is
      truthy; a log without the property is stored as not retracted. */
  lemma RemovedFlagStored(s: EventStore, log: Log, defaults: Record)
    ensures Removed in Handle(s, log, defaults)[LogKey(log)]
    ensures Handle(s, log, defaults)[LogKey(log)][Removed] == Bool(true) <==> Truthy(log.event.removed)
    ensures Handle(s, log, defaults)[LogKey(log)][Removed] == Bool(false) <==> !Truthy(log.event.removed)
    ensures log.event.removed == Undefined ==> Handle(s, log, defaults)[LogKey(log)][Removed] == Bool(false)
  {
    HandleReconciles(s, log, defaults);
  }

  /** A transfer log. */
  function HandleTransferEvent(s: EventStore, ev: RawEvent, defaults: Record): (r: EventStore)
    ensures r.Keys == s.Keys + {KeyOf(ev)}
    ensures Type in r[KeyOf(ev)] && r[KeyOf(ev)][Type] == TypeTag(Transfer)
    ensures FromAddress in r[KeyOf(ev)] && r[KeyOf(ev)][FromAddress] == Arg(ev, From)
    ensures ToAddress in r[KeyOf(ev)] && r[KeyOf(ev)][ToAddress] == Arg(ev, To)
    ensures AmountWei in r[KeyOf(ev)] && r[KeyOf(ev)][AmountWei] == Arg(ev, ValueArg)
  {
    var log := Log(Transfer, ev);
    UpdateValues(log);
    UpsertSets(s, KeyOf(ev), Seed(KeyOf(ev), defaults), Update(log));
    Handle(s, log, defaults)
  }

  /** An issue log. */
  function HandleIssueTokensEvent(s: EventStore, ev: RawEvent, defaults: Record): (r: EventStore)
    ensures r.Keys == s.Keys + {KeyOf(ev)}
    ensures Type in r[KeyOf(ev)] && r[KeyOf(ev)][Type] == TypeTag(Issue)
    ensures ToAddress in r[KeyOf(ev)] && r[KeyOf(ev)][ToAddress] == Arg(ev, Member)
    ensures AmountWei in r[KeyOf(ev)] && r[KeyOf(ev)][AmountWei] == Arg(ev, ValueArg)
  {
    var log := Log(Issue, ev);
    UpdateValues(log);
    UpsertSets(s, KeyOf(ev), Seed(KeyOf(ev), defaults), Update(log));
    Handle(s, log, defaults)
  }

  /** A new-shark log. */
  function HandleNewSharkEvent(s: EventStore, ev: RawEvent, defaults: Record): (r: EventStore)
    ensures r.Keys == s.Keys + {KeyOf(ev)}
    ensures Type in r[KeyOf(ev)] && r[KeyOf(ev)][Type] == TypeTag(NewShark)
    ensures SharkAddress in r[KeyOf(ev)] && r[KeyOf(ev)][SharkAddress] == Arg(ev, Shark)
    ensures SharkAmountWei in r[KeyOf(ev)] && r[KeyOf(ev)][SharkAmountWei] == Arg(ev, ValueArg)
  {
    var log := Log(NewShark, ev);
    UpdateValues(log);
    UpsertSets(s, KeyOf(ev), Seed(KeyOf(ev), defaults), Update(log));
    Handle(s, log, defaults)
  }

  /** A transfer log is stored under `(id, address)` as a TRANSFER with
      `_from`, `_to` and `_value` copied unchanged into `from_address`,
      `to_address` and `amount_wei`. */
  lemma TransferStored(s: EventStore, ev: RawEvent, defaults: Record)
    ensures Reconciled(s, HandleTransferEvent(s, ev, defaults), KeyOf(ev), ev, Transfer, defaults)
    ensures var d := HandleTransferEvent(s, ev, defaults)[KeyOf(ev)];
      && FromAddress in d && d[FromAddress] == Arg(ev, From)
      && ToAddress in d && d[ToAddress] == Arg(ev, To)
      && AmountWei in d && d[AmountWei] == Arg(ev, ValueArg)
  {
    var log := Log(Transfer, ev);
    assert HandleTransferEvent(s, ev, defaults) == Handle(s, log, defaults);
    assert LogKey(log) == KeyOf(ev) && log.event == ev && log.kind == Transfer;
    HandleReconciles(s, log, defaults);
    HandleStoresPayload(s, log, defaults);
  }

  /** An issue log is stored as an ISSUE with `_member` as `to_address` and
      `_value` as `amount_wei`; it writes no `from_address`, so whatever
      sender the document had (or lacked) stays. */
  lemma IssueStored(s: EventStore, ev: RawEvent, defaults: Record)
    ensures Reconciled(s, HandleIssueTokensEvent(s, ev, defaults), KeyOf(ev), ev, Issue, defaults)
    ensures var d := HandleIssueTokensEvent(s, ev, defaults)[KeyOf(ev)];
      && ToAddress in d && d[ToAddress] == Arg(ev, Member)
      && AmountWei in d && d[AmountWei] == Arg(ev, ValueArg)
      && (FromAddress in d <==> FromAddress in Base(s, KeyOf(ev), Seed(KeyOf(ev), defaults)))
      && (KeyOf(ev) in s && FromAddress in s[KeyOf(ev)] ==> d[FromAddress] == s[KeyOf(ev)][FromAddress])
  {
    var log := Log(Issue, ev);
    assert FromAddress !in Written(Issue);
    assert HandleIssueTokensEvent(s, ev, defaults) == Handle(s, log, defaults);
    assert LogKey(log) == KeyOf(ev) && log.event == ev && log.kind == Issue;
    HandleReconciles(s, log, defaults);
    HandleStoresPayload(s, log, defaults);
  }

  /** A new-shark log is stored as a NEW_SHARK with `_shark` and `_value` as
      `shark_address` and `shark_amount_wei`. */
  lemma NewSharkStored(s: EventStore, ev: RawEvent, defaults: Record)
    ensures Reconciled(s, HandleNewSharkEvent(s, ev, defaults), KeyOf(ev), ev, NewShark, defaults)
    ensures var d := HandleNewSharkEvent(s, ev, defaults)[KeyOf(ev)];
      && SharkAddress in d && d[SharkAddress] == Arg(ev, Shark)
      && SharkAmountWei in d && d[SharkAmountWei] == Arg(ev, ValueArg)
  {
    var log := Log(NewShark, ev);
    assert HandleNewSharkEvent(s, ev, defaults) == Handle(s, log, defaults);
    assert LogKey(log) == KeyOf(ev) && log.event == ev && log.kind == NewShark;
    HandleReconciles(s, log, defaults);
    HandleStoresPayload(s, log, defaults);
  }

  /** The same log as redelivered after a reorganization dropped its block. */
  function Retracted(log: Log): Log
  {
    log.(event := log.event.(removed := Bool(true)))
  }

  /** Each stored document carries the identity it is stored under. */
  ghost predicate WellKeyed(s: EventStore)
  {
    forall k :: k in s ==>
      && LogId in s[k] && s[k][LogId] == Str(k.logId)
      && ContractAddress in s[k] && s[k][ContractAddress] == Str(k.contractAddress)
  }

  /** Handling a log keeps every document tagged with its own identity, so
      one `(log_id, contract_address)` never names two documents. */
  lemma HandlePreservesWellKeyed(s: EventStore, log: Log, defaults: Record)
    requires WellKeyed(s)
    ensures WellKeyed(Handle(s, log, defaults))
  {
    var k := LogKey(log);
    var r := Handle(s, log, defaults);
    UpdateKeys(log);
    UpsertSets(s, k, Seed(k, defaults), Update(log));
    forall j | j in r
      ensures LogId in r[j] && r[j][LogId] == Str(j.logId)
      ensures ContractAddress in r[j] && r[j][ContractAddress] == Str(j.contractAddress)
    {
      if j == k {
        var b := Base(s, k, Seed(k, defaults));
        assert LogId in b && b[LogId] == Str(k.logId);
        assert ContractAddress in b && b[ContractAddress] == Str(k.contractAddress);
      }
    }
  }

  /** In a well-keyed collection two documents with the same stored identity
      are the same document. */
  lemma IdentityUnique(s: EventStore, k1: EventKey, k2: EventKey)
    requires WellKeyed(s)
    requires k1 in s && k2 in s
    requires s[k1][LogId] == s[k2][LogId]
    requires s[k1][ContractAddress] == s[k2][ContractAddress]
    ensures k1 == k2
  {
  }

  /** Delivering the same log twice leaves the collection as delivering it once. */
  lemma HandleIdempotent(s: EventStore, log: Log, defaults: Record)
    ensures Handle(Handle(s, log, defaults), log, defaults) == Handle(s, log, defaults)
  {
    UpsertIdempotent(s, LogKey(log), Seed(LogKey(log), defaults), Update(log));
  }

  /** Logs with different identities do not interfere: their handlers commute. */
  lemma HandleCommutes(s: EventStore, a: Log, b: Log, defaults: Record)
    requires LogKey(a) != LogKey(b)
    ensures Handle(Handle(s, a, defaults), b, defaults) == Handle(Handle(s, b, defaults), a, defaults)
  {
    UpsertCommutes(s, LogKey(a), Seed(LogKey(a), defaults), Update(a),
                   LogKey(b), Seed(LogKey(b), defaults), Update(b));
  }

  /** The retraction of a log writes the same `$set` with `removed` turned on. */
  lemma RetractedUpdate(log: Log)
    ensures LogKey(Retracted(log)) == LogKey(log)
    ensures Update(Retracted(log)) == Update(log)[Removed := Bool(true)]
  {
    var ev := log.event;
    assert Header(ev.(removed := Bool(true)), log.kind) == Header(ev, log.kind)[Removed := Bool(true)];
    assert Payload(log.kind, ev.(removed := Bool(true))) == Payload(log.kind, ev);
    assert Removed !in Payload(log.kind, ev);
    MergeUpdateLeft(Header(ev, log.kind), Payload(log.kind, ev), Removed, Bool(true));
  }

  /** A retraction does not delete: it marks the document removed and leaves
      every other field as the original delivery wrote it. */
  lemma RetractionMarks(s: EventStore, log: Log, defaults: Record)
    ensures LogKey(log) in Handle(Handle(s, log, defaults), Retracted(log), defaults)
    ensures Handle(Handle(s, log, defaults), Retracted(log), defaults)
         == Handle(s, log, defaults)[LogKey(log) := Handle(s, log, defaults)[LogKey(log)][Removed := Bool(true)]]
  {
    var k := LogKey(log);
    var once := Handle(s, log, defaults);
    RetractedUpdate(log);
    UpsertOverwriteOne(s, k, Seed(k, defaults), Update(log), Removed, Bool(true));
  }

  /** Retraction round trip: deliver, retract, redeliver ends in exactly the
      state the first delivery produced. */
  lemma RetractionRoundTrip(s: EventStore, log: Log, defaults: Record)
    ensures Handle(Handle(Handle(s, log, defaults), Retracted(log), defaults), log, defaults)
         == Handle(s, log, defaults)
  {
    var k := LogKey(log);
    var seed := Seed(k, defaults);
    var once := Handle(s, log, defaults);
    var retracted := Handle(once, Retracted(log), defaults);
    RetractedUpdate(log);
    UpsertAbsorbs(once, k, seed, Update(Retracted(log)), Update(log));
    UpsertIdempotent(s, k, seed, Update(log));
  }

  /** Delivering a batch of logs in order. */
  function Replay(s: EventStore, logs: seq<Log>, defaults: Record): EventStore
  {
    if |logs| == 0 then s
    else Handle(Replay(s, logs[..|logs| - 1], defaults), logs[|logs| - 1], defaults)
  }

  /** The `$set` documents of a batch aimed at `k`, merged in delivery order. */
  function Merged(logs: seq<Log>, k: EventKey): Record
  {
    if |logs| == 0 then map[]
    else
      var last := logs[|logs| - 1];
      Merged(logs[..|logs| - 1], k) + (if LogKey(last) == k then Update(last) else map[])
  }

  function LogKeys(logs: seq<Log>): set<EventKey>
  {
    set i | 0 <= i < |logs| :: LogKey(logs[i])
  }

  lemma LogKeysSnoc(logs: seq<Log>)
    requires |logs| > 0
    ensures LogKeys(logs) == LogKeys(logs[..|logs| - 1]) + {LogKey(logs[|logs| - 1])}
  {
    var prefix := logs[..|logs| - 1];
    assert forall i :: 0 <= i < |prefix| ==> prefix[i] == logs[i];
  }

  /** After a batch, the collection holds the old identities plus the batch's. */
  lemma {:induction false} ReplayKeys(s: EventStore, logs: seq<Log>, defaults: Record)
    ensures Replay(s, logs, defaults).Keys == s.Keys + LogKeys(logs)
  {
    if |logs| > 0 {
      ReplayKeys(s, logs[..|logs| - 1], defaults);
      LogKeysSnoc(logs);
    }
  }

  /** After a batch, a document is its old self (or, if new, its seed) with
      the batch's `$set` documents for its identity applied in order. */
  lemma {:induction false} ReplayShape(s: EventStore, logs: seq<Log>, defaults: Record, k: EventKey)
    ensures Base(Replay(s, logs, defaults), k, Seed(k, defaults))
         == Base(s, k, Seed(k, defaults)) + Merged(logs, k)
  {
    if |logs| == 0 {
      assert Base(s, k, Seed(k, defaults)) + map[] == Base(s, k, Seed(k, defaults));
    } else {
      var prefix := logs[..|logs| - 1];
      var last := logs[|logs| - 1];
      ReplayShape(s, prefix, defaults, k);
      UpsertExtendsRun(s, Replay(s, prefix, defaults), LogKey(last), Seed(LogKey(last), defaults),
                       Update(last), k, Seed(k, defaults), Merged(prefix, k));
    }
  }

  /** At-least-once delivery is harmless: redelivering a whole batch after it
      was applied changes nothing. */
  lemma ReplayTwice(s: EventStore, logs: seq<Log>, defaults: Record)
    ensures Replay(Replay(s, logs, defaults), logs, defaults) == Replay(s, logs, defaults)
  {
    var once := Replay(s, logs, defaults);
    var twice := Replay(once, logs, defaults);
    ReplayKeys(s, logs, defaults);
    ReplayKeys(once, logs, defaults);
    forall k | k in twice
      ensures twice[k] == once[k]
    {
      var seed := Seed(k, defaults);
      var m := Merged(logs, k);
      ReplayShape(s, logs, defaults, k);
      ReplayShape(once, logs, defaults, k);
      MergeTwice(Base(s, k, seed), m);
    }
  }

  lemma {:induction false} MergedOutside(logs: seq<Log>, k: EventKey)
    requires k !in LogKeys(logs)
    ensures Merged(logs, k) == map[]
  {
    if |logs| > 0 {
      var prefix := logs[..|logs| - 1];
      assert LogKeys(prefix) <= LogKeys(logs) by {
        assert forall i :: 0 <= i < |prefix| ==> prefix[i] == logs[i];
      }
      assert LogKey(logs[|logs| - 1]) in LogKeys(logs);
      MergedOutside(prefix, k);
    }
  }

  /** A batch leaves alone every document whose identity none of its logs carries. */
  lemma ReplayIsolates(s: EventStore, logs: seq<Log>, defaults: Record, k: EventKey)
    requires k !in LogKeys(logs)
    ensures k in Replay(s, logs, defaults) <==> k in s
    ensures k in s ==> Replay(s, logs, defaults)[k] == s[k]
  {
    ReplayKeys(s, logs, defaults);
    ReplayShape(s, logs, defaults, k);
    MergedOutside(logs, k);
    var seed := Seed(k, defaults);
    assert Base(s, k, seed) + map[] == Base(s, k, seed);
  }

  /** A transfer with log id "log-1" from contract "0xA", carrying no
      `removed` property, delivered into an empty collection with no schema
      defaults. */
  lemma TransferScenario()
    ensures
      var ev := RawEvent("0xA", "0xT1", "0xS1", "log-1", Num(100), Undefined,
                         map[From := Str("0xF"), To := Str("0xG"), ValueArg := Str("500")]);
      HandleTransferEvent(map[], ev, map[])
        == map[EventKey("log-1", "0xA") := map[
             LogId := Str("log-1"), ContractAddress := Str("0xA"),
             TxHash := Str("0xT1"), Signature := Str("0xS1"),
             Type := Str("TRANSFER"), BlockNumber := Num(100), Removed := Bool(false),
             FromAddress := Str("0xF"), ToAddress := Str("0xG"), AmountWei := Str("500")]]
  {
    var ev := RawEvent("0xA", "0xT1", "0xS1", "log-1", Num(100), Undefined,
                       map[From := Str("0xF"), To := Str("0xG"), ValueArg := Str("500")]);
    var k := EventKey("log-1", "0xA");
    var header := map[TxHash := Str("0xT1"), Signature := Str("0xS1"),
                      Type := Str("TRANSFER"), BlockNumber := Num(100), Removed := Bool(false)];
    var payload := map[FromAddress := Str("0xF"), ToAddress := Str("0xG"), AmountWei := Str("500")];
    var seed := map[LogId := Str("log-1"), ContractAddress := Str("0xA")];
    assert KeyOf(ev) == k;
    assert Header(ev, Transfer) == header;
    assert Payload(Transfer, ev) == payload;
    assert Seed(k, map[]) == seed;
    var stored := map[
      LogId := Str("log-1"), ContractAddress := Str("0xA"),
      TxHash := Str("0xT1"), Signature := Str("0xS1"),
      Type := Str("TRANSFER"), BlockNumber := Num(100), Removed := Bool(false),
      FromAddress := Str("0xF"), ToAddress := Str("0xG"), AmountWei := Str("500")];
    assert seed + (header + payload) == stored;
    var log := Log(Transfer, ev);
    assert Update(log) == header + payload;
    assert HandleTransferEvent(map[], ev, map[]) == Handle(map[], log, map[]);
    assert Handle(map[], log, map[]) == Upsert(map[], k, seed, header + payload);
    assert Upsert(map[], k, seed, header + payload) == map[k := seed + (header + payload)];
  }
}
