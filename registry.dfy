/**
 * The connection registry, hass.data[KNOWN_DEVICES]: a map from accessory pairing id to the
 * connection handle set up for it, and how each entry point of the integration changes it.
 */
module Registry {
  import opened Outcomes

  /** The part of a config entry the integration reads. */
  datatype ConfigEntry = ConfigEntry(
    title: string,
    uniqueId: Option<string>,  // entry.unique_id, None for entries created before it was recorded
    pairingId: string)         // entry.data["AccessoryPairingID"]

  /**
   * For backwards compatibility setup records the normalised pairing id as the entry's unique id
   * when the entry has none; an entry that has one keeps it, and nothing else of the entry changes.
   */
  function BackfillUniqueId(entry: ConfigEntry, normalized: string): (e: ConfigEntry)
    ensures e.uniqueId.Some?
    ensures entry.uniqueId.Some? ==> e == entry
    ensures entry.uniqueId.None? ==> e.uniqueId == Some(normalized)
    ensures e.(uniqueId := entry.uniqueId) == entry
  {
    if entry.uniqueId.None? then entry.(uniqueId := Some(normalized)) else entry
  }

  /** Setting up the same entry again never changes the unique id recorded the first time. */
  lemma BackfillIdempotent(entry: ConfigEntry, first: string, later: string)
    ensures BackfillUniqueId(BackfillUniqueId(entry, first), later) == BackfillUniqueId(entry, first)
  {
  }

  /**
   * A connection handle (HKDevice). Its internals, the pairing it owns and the entity map it keeps,
   * are not modelled; it is identified by object identity and carries the id it was created for.
   */
  class Connection {
    const uniqueId: string
    const entry: ConfigEntry

    constructor (entry: ConfigEntry)
      ensures uniqueId == entry.pairingId && this.entry == entry
    {
      uniqueId := entry.pairingId;
      this.entry := entry;
    }
  }

  type Devices = map<string, Connection>

  /** Every handle is filed under its own pairing id. */
  predicate Consistent(reg: Devices)
  {
    forall id :: id in reg ==> reg[id].uniqueId == id
  }

  /** The connect outcomes after which setup deletes the handle it has just inserted. */
  predicate RollsBack(connect: Outcome)
  {
    connect.Fail? && IsRetryable(connect.failure)
  }

  /**
   * The registry after async_setup_entry: the new handle is inserted under its id (overwriting any
   * earlier handle) before connecting, and deleted again when connecting fails retryably.
   */
  function AfterSetup(reg: Devices, conn: Connection, connect: Outcome): (r: Devices)
    ensures conn.uniqueId in r <==> !RollsBack(connect)
    ensures conn.uniqueId in r ==> r[conn.uniqueId] == conn
    ensures forall id :: id != conn.uniqueId ==> (id in r <==> id in reg) && (id in r ==> r[id] == reg[id])
  {
    var inserted := reg[conn.uniqueId := conn];
    if RollsBack(connect) then inserted - {conn.uniqueId} else inserted
  }

  /** How async_setup_entry ends, given how connecting and, on rollback, closing the pairing ended. */
  function SetupExit(connect: Outcome, close: Outcome): Exit<bool>
  {
    match connect
    case Ok => Return(true)
    case Fail(f) =>
      if !IsRetryable(f) then Raise(Failed(f))
      else if close.Fail? && close.failure != Timeout then Raise(Failed(close.failure))
      else Raise(ConfigEntryNotReady(f))
  }

  /**
   * The setup outcomes: success returns True; a retryable connect failure becomes
   * ConfigEntryNotReady caused by it unless closing raises something other than a timeout;
   * any other connect failure escapes unchanged. A timeout never escapes setup.
   */
  lemma SetupExitClassified(connect: Outcome, close: Outcome)
    ensures SetupExit(connect, close) == Return(true) <==> connect == Ok
    ensures SetupExit(connect, close).Raise? && SetupExit(connect, close).exc.ConfigEntryNotReady? <==>
      RollsBack(connect) && (close == Ok || close == Fail(Timeout))
    ensures SetupExit(connect, close).Raise? && SetupExit(connect, close).exc.ConfigEntryNotReady? ==>
      SetupExit(connect, close).exc.cause == connect.failure
    ensures connect.Fail? && !RollsBack(connect) ==> SetupExit(connect, close) == Raise(Failed(connect.failure))
    ensures SetupExit(connect, close) != Raise(Failed(Timeout))
  {
  }

  /** A connect failure outside the four retryable kinds leaves the new handle registered. */
  lemma UnclassifiedFailureKeepsHandle(reg: Devices, conn: Connection, name: string, close: Outcome)
    ensures AfterSetup(reg, conn, Fail(Unclassified(name))) == reg[conn.uniqueId := conn]
    ensures SetupExit(Fail(Unclassified(name)), close) == Raise(Failed(Unclassified(name)))
  {
  }

  /** The calls the framework makes into the integration, as far as the registry is concerned. */
  datatype Op =
    | InitOp(controller: Outcome)               // async_setup
    | SetupOp(conn: Connection, connect: Outcome)  // async_setup_entry
    | UnloadOp(hkid: string)                    // async_unload_entry
    | RemoveOp(hkid: string)                    // async_remove_entry
    | RemoveDeviceOp(hkid: string)              // async_remove_config_entry_device
    | ProvisionOp(hkid: string)                 // the thread_provision service
    | StopOp                                    // the stop event handler

  function Step(reg: Devices, op: Op): Devices
  {
    match op
    case InitOp(controller) => if controller == Ok then map[] else reg
    case SetupOp(conn, connect) => AfterSetup(reg, conn, connect)
    case _ => reg
  }

  /** The registry after the calls `ops`, made one after another, starting from `reg`. */
  function Run(reg: Devices, ops: seq<Op>): Devices
    decreases |ops|
  {
    if ops == [] then reg else Step(Run(reg, ops[..|ops| - 1]), ops[|ops| - 1])
  }

  /** The calls that decide whether `id` is registered: a successful init, or a setup for `id`. */
  predicate Decides(op: Op, id: string)
  {
    (op.InitOp? && op.controller == Ok) || (op.SetupOp? && op.conn.uniqueId == id)
  }

  /** Every entry point keeps each handle filed under its own id. */
  lemma {:induction false} RunKeepsConsistent(reg: Devices, ops: seq<Op>)
    requires Consistent(reg)
    ensures Consistent(Run(reg, ops))
  {
    if ops != [] {
      RunKeepsConsistent(reg, ops[..|ops| - 1]);
    }
  }

  /** Calls that do not decide `id` leave its entry as it was. */
  lemma {:induction false} RunUntouched(reg: Devices, ops: seq<Op>, id: string)
    requires forall j :: 0 <= j < |ops| ==> !Decides(ops[j], id)
    ensures id in Run(reg, ops) <==> id in reg
    ensures id in reg ==> Run(reg, ops)[id] == reg[id]
  {
    if ops != [] {
      RunUntouched(reg, ops[..|ops| - 1], id);
    }
  }

  /**
   * The last call deciding `id` determines its entry: after an init it is absent; after a setup
   * it holds that setup's handle unless connecting failed retryably.
   */
  lemma {:induction false} LastDecisionWins(reg: Devices, ops: seq<Op>, id: string, i: nat)
    requires i < |ops| && Decides(ops[i], id)
    requires forall j :: i < j < |ops| ==> !Decides(ops[j], id)
    ensures id in Run(reg, ops) <==> ops[i].SetupOp? && !RollsBack(ops[i].connect)
    ensures id in Run(reg, ops) ==> Run(reg, ops)[id] == ops[i].conn
  {
    if i < |ops| - 1 {
      LastDecisionWins(reg, ops[..|ops| - 1], id, i);
    }
  }

  /**
   * Two accessories set up after init, the first connecting and the second not found on the
   * network: only the first is registered.
   */
  lemma TwoDeviceScenario(a: Connection, b: Connection)
    requires a.uniqueId != b.uniqueId
    ensures Run(map[], [InitOp(Ok), SetupOp(a, Ok), SetupOp(b, Fail(AccessoryNotFound))]) == map[a.uniqueId := a]
  {
    var ops := [InitOp(Ok), SetupOp(a, Ok), SetupOp(b, Fail(AccessoryNotFound))];
    assert ops[..2][..1] == [InitOp(Ok)];
    assert ops[..2] == [InitOp(Ok), SetupOp(a, Ok)];
    assert Run(map[], ops[..2]) == map[a.uniqueId := a];
  }
}
