/**
 * The entry points of the HomeKit controller integration, acting on the integration's share of
 * hass.data: the connection registry (KNOWN_DEVICES) and, as an append-only log, the calls the
 * integration makes into its collaborators.
 */
module HomekitController {
  import opened Const
  import opened Outcomes
  import opened ThreadSchema
  import opened DeviceRemoval
  import opened Registry

  /** The warnings the integration logs. */
  datatype Message =
    | ProvisioningCredentials(record: seq<(Attr, Value)>)
    | UnknownHkid
    | UnpairUnreachable(title: string)

  /** One call from the integration into a collaborator. */
  datatype Effect =
    | GetController                          // async_get_controller(hass)
    | ListenOnceStop                         // hass.bus.async_listen_once(EVENT_HOMEASSISTANT_STOP, ...)
    | RegisterThreadProvisionService         // async_register_admin_service(..., thread_provision, schema)
    | UpdateEntryUniqueId(uniqueId: string)  // hass.config_entries.async_update_entry(entry, unique_id=...)
    | DeviceSetup(conn: Connection)          // conn.async_setup()
    | PairingClose(conn: Connection)         // conn.pairing.close()
    | DeviceUnload(conn: Connection)         // connection.async_unload()
    | PairingThreadProvision(conn: Connection, credentials: ThreadCredentials)
    | LoadPairing(hkid: string, entry: ConfigEntry)  // controller.load_pairing(hkid, dict(entry.data))
    | RemovePairing(hkid: string)            // controller.remove_pairing(hkid)
    | Warning(message: Message)              // _LOGGER.warning(...)

  /** The calls async_setup_entry makes, in order. */
  function SetupEffects(entry: ConfigEntry, conn: Connection, normalized: string, connect: Outcome): seq<Effect>
  {
    (if entry.uniqueId.None? then [UpdateEntryUniqueId(normalized)] else [])
    + [DeviceSetup(conn)]
    + (if RollsBack(connect) then [PairingClose(conn)] else [])
  }

  /**
   * Setup always attempts the connection once; it closes the pairing exactly when it rolls back,
   * and updates the entry exactly when the entry had no unique id.
   */
  lemma SetupEffectsShape(entry: ConfigEntry, conn: Connection, normalized: string, connect: Outcome)
    ensures DeviceSetup(conn) in SetupEffects(entry, conn, normalized, connect)
    ensures PairingClose(conn) in SetupEffects(entry, conn, normalized, connect) <==> RollsBack(connect)
    ensures (exists u :: UpdateEntryUniqueId(u) in SetupEffects(entry, conn, normalized, connect)) <==> entry.uniqueId.None?
    ensures forall u :: UpdateEntryUniqueId(u) in SetupEffects(entry, conn, normalized, connect) ==> u == normalized
  {
    var effs := SetupEffects(entry, conn, normalized, connect);
    if entry.uniqueId.None? {
      assert effs[0] == UpdateEntryUniqueId(normalized);
    }
  }

  /** How async_remove_entry ends once the controller is there: only an unreachable accessory is forgiven. */
  function RemoveExit(unpair: Outcome): (exit: Exit<()>)
    ensures exit.Raise? <==> unpair.Fail? && unpair.failure != AccessoryDisconnected
    ensures exit.Raise? ==> exit.exc == Failed(unpair.failure)
  {
    match unpair
    case Ok => Return(())
    case Fail(f) => if f == AccessoryDisconnected then Return(()) else Raise(Failed(f))
  }

  /** `order` lists every registered id exactly once. */
  ghost predicate FanOut(reg: Devices, order: seq<string>)
  {
    && |order| == |reg|
    && (forall id :: id in order <==> id in reg)
    && (forall i, j :: 0 <= i < j < |order| ==> order[i] != order[j])
  }

  /**
   * `calls` consists of unloads only, each of the handle filed under its own id, and unloads the
   * handle of every registered id.
   */
  ghost predicate UnloadsExactly(reg: Devices, calls: seq<Effect>)
  {
    && (forall i :: 0 <= i < |calls| ==>
          calls[i].DeviceUnload? && calls[i].conn.uniqueId in reg && reg[calls[i].conn.uniqueId] == calls[i].conn)
    && (forall id :: id in reg ==> DeviceUnload(reg[id]) in calls)
  }

  /** The unload calls the stop handler issues, one per id of `order`. */
  function UnloadCalls(reg: Devices, order: seq<string>): (calls: seq<Effect>)
    requires forall id :: id in order ==> id in reg
    ensures |calls| == |order|
    ensures forall i :: 0 <= i < |order| ==> calls[i] == DeviceUnload(reg[order[i]])
  {
    if order == [] then [] else [DeviceUnload(reg[order[0]])] + UnloadCalls(reg, order[1..])
  }

  /**
   * When `order` lists exactly the registered ids of a consistent registry, the stop handler's
   * calls unload every registered handle and no other.
   */
  lemma {:induction false} UnloadCallsCoverRegistry(reg: Devices, order: seq<string>)
    requires Consistent(reg)
    requires forall id :: id in order <==> id in reg
    ensures UnloadsExactly(reg, UnloadCalls(reg, order))
  {
    var calls := UnloadCalls(reg, order);
    forall id | id in reg ensures DeviceUnload(reg[id]) in calls {
      var i :| 0 <= i < |order| && order[i] == id;
      assert calls[i] == DeviceUnload(reg[id]);
    }
  }

  /** The calls the thread_provision handler makes for `req` against the registry `reg`. */
  function ProvisionEffects(reg: Devices, req: ProvisionRequest): seq<Effect>
  {
    [Warning(ProvisioningCredentials(LogRecord(req)))]
    + (if req.hkid in reg then [PairingThreadProvision(reg[req.hkid], Credentials(req))] else [Warning(UnknownHkid)])
  }

  /** How the thread_provision handler ends: only a failure of the forwarded call escapes. */
  function ProvisionExit(reg: Devices, req: ProvisionRequest, provision: Outcome): Exit<()>
  {
    if req.hkid in reg && provision.Fail? then Raise(Failed(provision.failure)) else Return(())
  }

  /**
   * A pairing is asked to provision exactly when the target id is registered; the call then goes
   * to the handle registered for it, with the six request fields unchanged. An unknown id gets
   * one warning and returns normally.
   */
  lemma ProvisionDispatch(reg: Devices, req: ProvisionRequest, provision: Outcome)
    ensures (exists c, cr :: PairingThreadProvision(c, cr) in ProvisionEffects(reg, req)) <==> req.hkid in reg
    ensures forall c, cr :: PairingThreadProvision(c, cr) in ProvisionEffects(reg, req) ==>
      && c == reg[req.hkid]
      && cr == ThreadCredentials(req.networkName, req.channel, req.panId, req.extendedPanId, req.networkKey, req.unknownFlag)
    ensures req.hkid !in reg ==> Warning(UnknownHkid) in ProvisionEffects(reg, req) && ProvisionExit(reg, req, provision) == Return(())
    ensures ProvisionEffects(reg, req)[0] == Warning(ProvisioningCredentials(LogRecord(req)))
  {
    if req.hkid in reg {
      assert ProvisionEffects(reg, req)[1] == PairingThreadProvision(reg[req.hkid], Credentials(req));
    }
  }

  /** The integration's state in hass.data. */
  class Integration {
    var knownDevices: Devices
    var effects: seq<Effect>

    ghost predicate Valid()
      reads this
    {
      Consistent(knownDevices)
    }

    constructor ()
      ensures Valid() && knownDevices == map[] && effects == []
    {
      knownDevices := map[];
      effects := [];
    }

    /**
     * async_setup: fetch the controller, then start from an empty registry, subscribe the stop
     * handler once and register the thread provisioning service. A failing controller fetch
     * escapes before anything else happens.
     */
    method AsyncSetup(controller: Outcome) returns (exit: Exit<bool>)
      requires Valid()
      modifies this
      ensures Valid()
      ensures knownDevices == Step(old(knownDevices), InitOp(controller))
      ensures controller == Ok ==> knownDevices == map[] && exit == Return(true)
      ensures controller.Fail? ==> exit == Raise(Failed(controller.failure))
      ensures effects == old(effects) + [GetController]
        + (if controller == Ok then [ListenOnceStop, RegisterThreadProvisionService] else [])
    {
      effects := effects + [GetController];
      if controller.Fail? {
        return Raise(Failed(controller.failure));
      }
      knownDevices := map[];
      effects := effects + [ListenOnceStop, RegisterThreadProvisionService];
      exit := Return(true);
    }

    /**
     * async_setup_entry: create a handle, register it under its pairing id, backfill the entry's
     * unique id, then connect. On a retryable failure the handle is unregistered, the pairing closed
     * (a timeout while closing is suppressed) and ConfigEntryNotReady raised.
     */
    method AsyncSetupEntry(entry: ConfigEntry, normalize: string -> string, connect: Outcome, close: Outcome)
      returns (exit: Exit<bool>, conn: Connection, updated: ConfigEntry)
      requires Valid()
      modifies this
      ensures Valid()
      ensures fresh(conn) && conn.uniqueId == entry.pairingId && conn.entry == entry
      ensures knownDevices == Step(old(knownDevices), SetupOp(conn, connect))
      ensures !RollsBack(connect) ==> knownDevices == old(knownDevices)[entry.pairingId := conn]
      ensures RollsBack(connect) ==> knownDevices == old(knownDevices) - {entry.pairingId}
      ensures exit == SetupExit(connect, close)
      ensures updated == BackfillUniqueId(entry, normalize(entry.pairingId))
      ensures effects == old(effects) + SetupEffects(entry, conn, normalize(entry.pairingId), connect)
    {
      conn := new Connection(entry);
      knownDevices := knownDevices[conn.uniqueId := conn];

      updated := entry;
      if entry.uniqueId.None? {
        updated := entry.(uniqueId := Some(normalize(conn.uniqueId)));
        effects := effects + [UpdateEntryUniqueId(normalize(conn.uniqueId))];
      }

      effects := effects + [DeviceSetup(conn)];
      match connect
      case Ok =>
        exit := Return(true);
      case Fail(f) =>
        if IsRetryable(f) {
          knownDevices := knownDevices - {conn.uniqueId};
          effects := effects + [PairingClose(conn)];
          if close.Fail? && close.failure != Timeout {
            exit := Raise(Failed(close.failure));
          } else {
            exit := Raise(ConfigEntryNotReady(f));
          }
        } else {
          exit := Raise(Failed(f));
        }
    }

    /** The ids the stop handler fans out over: each registered id exactly once, in no set order. */
    method StopSnapshot() returns (order: seq<string>)
      ensures FanOut(knownDevices, order)
    {
      order := [];
      var remaining := knownDevices.Keys;
      while remaining != {}
        invariant remaining <= knownDevices.Keys
        invariant forall id :: id in order <==> id in knownDevices && id !in remaining
        invariant forall i, j :: 0 <= i < j < |order| ==> order[i] != order[j]
        invariant |order| + |remaining| == |knownDevices.Keys|
        decreases remaining
      {
        var id :| id in remaining;
        order := order + [id];
        remaining := remaining - {id};
      }
    }

    /** The stop event handler: unload every handle of a snapshot of the registry. */
    method OnStop() returns (order: seq<string>)
      requires Valid()
      modifies this`effects
      ensures Valid()
      ensures knownDevices == Step(old(knownDevices), StopOp)
      ensures FanOut(knownDevices, order)
      ensures effects == old(effects) + UnloadCalls(knownDevices, order)
      ensures UnloadsExactly(knownDevices, UnloadCalls(knownDevices, order))
    {
      order := StopSnapshot();
      UnloadCallsCoverRegistry(knownDevices, order);
      effects := effects + UnloadCalls(knownDevices, order);
    }

    /** async_unload_entry: unload the handle registered for the entry's pairing id, if any. */
    method AsyncUnloadEntry(entry: ConfigEntry, unload: Outcome) returns (exit: Exit<bool>)
      requires Valid()
      modifies this`effects
      ensures Valid()
      ensures knownDevices == Step(old(knownDevices), UnloadOp(entry.pairingId))
      ensures entry.pairingId in knownDevices ==>
        && effects == old(effects) + [DeviceUnload(knownDevices[entry.pairingId])]
        && knownDevices[entry.pairingId].uniqueId == entry.pairingId
        && exit == (if unload == Ok then Return(true) else Raise(Failed(unload.failure)))
      ensures entry.pairingId !in knownDevices ==> effects == old(effects) && exit == Return(true)
    {
      var hkid := entry.pairingId;
      if hkid in knownDevices {
        var connection := knownDevices[hkid];
        effects := effects + [DeviceUnload(connection)];
        if unload.Fail? {
          return Raise(Failed(unload.failure));
        }
      }
      exit := Return(true);
    }

    /**
     * async_remove_entry: unpair through a pairing loaded afresh from the entry, never through the
     * registry. A failure of the controller fetch or of loading the pairing escapes before
     * unpairing; an unreachable accessory only produces a warning; any other unpair failure escapes.
     */
    method AsyncRemoveEntry(entry: ConfigEntry, controller: Outcome, load: Outcome, unpair: Outcome)
      returns (exit: Exit<()>)
      requires Valid()
      modifies this`effects
      ensures Valid()
      ensures knownDevices == Step(old(knownDevices), RemoveOp(entry.pairingId))
      ensures controller.Fail? ==> effects == old(effects) + [GetController] && exit == Raise(Failed(controller.failure))
      ensures controller == Ok && load.Fail? ==>
        && effects == old(effects) + [GetController, LoadPairing(entry.pairingId, entry)]
        && exit == Raise(Failed(load.failure))
      ensures controller == Ok && load == Ok ==>
        && effects == old(effects) + [GetController, LoadPairing(entry.pairingId, entry), RemovePairing(entry.pairingId)]
             + (if unpair == Fail(AccessoryDisconnected) then [Warning(UnpairUnreachable(entry.title))] else [])
        && exit == RemoveExit(unpair)
    {
      var hkid := entry.pairingId;
      effects := effects + [GetController];
      if controller.Fail? {
        return Raise(Failed(controller.failure));
      }
      effects := effects + [LoadPairing(hkid, entry)];
      if load.Fail? {
        return Raise(Failed(load.failure));
      }
      effects := effects + [RemovePairing(hkid)];
      match unpair
      case Ok =>
        exit := Return(());
      case Fail(f) =>
        if f == AccessoryDisconnected {
          effects := effects + [Warning(UnpairUnreachable(entry.title))];
          exit := Return(());
        } else {
          exit := Raise(Failed(f));
        }
    }

    /**
     * async_remove_config_entry_device: a device may be detached exactly when it shares no
     * identifier with any accessory of the entry's connection; an unregistered pairing id is a
     * KeyError. `entityMap` gives, per accessory of a connection, the identifiers its device info lists.
     */
    method AsyncRemoveConfigEntryDevice(
      entry: ConfigEntry, device: set<Identifier>, entityMap: Connection -> seq<set<Identifier>>)
      returns (exit: Exit<bool>)
      ensures entry.pairingId !in knownDevices ==> exit == Raise(KeyError(entry.pairingId))
      ensures entry.pairingId in knownDevices ==>
        var accessories := entityMap(knownDevices[entry.pairingId]);
        exit == Return(forall i :: 0 <= i < |accessories| ==> device !! accessories[i])
    {
      var hkid := entry.pairingId;
      if hkid !in knownDevices {
        return Raise(KeyError(hkid));
      }
      var connection := knownDevices[hkid];
      exit := Return(CanRemoveDevice(device, entityMap(connection)));
    }

    /**
     * The thread_provision handler: log the request with the network key redacted, then forward
     * the six credentials to the pairing of the registered handle, or warn when the id is unknown.
     */
    method ThreadProvision(req: ProvisionRequest, provision: Outcome) returns (exit: Exit<()>)
      requires Valid()
      modifies this`effects
      ensures Valid()
      ensures knownDevices == Step(old(knownDevices), ProvisionOp(req.hkid))
      ensures effects == old(effects) + ProvisionEffects(knownDevices, req)
      ensures exit == ProvisionExit(knownDevices, req, provision)
      ensures forall c, cr :: PairingThreadProvision(c, cr) in effects[|old(effects)|..] ==> c.uniqueId == req.hkid
    {
      effects := effects + [Warning(ProvisioningCredentials(LogRecord(req)))];
      if req.hkid !in knownDevices {
        effects := effects + [Warning(UnknownHkid)];
        exit := Return(());
      } else {
        var connection := knownDevices[req.hkid];
        effects := effects + [PairingThreadProvision(connection, Credentials(req))];
        match provision
        case Ok => exit := Return(());
        case Fail(f) => exit := Raise(Failed(f));
      }
      assert effects[|old(effects)|..] == ProvisionEffects(knownDevices, req);
      ProvisionDispatch(knownDevices, req, provision);
    }

    /** A service call: the schema refuses an invalid payload before the handler runs. */
    method CallThreadProvisionService(req: ProvisionRequest, provision: Outcome) returns (exit: Exit<()>)
      requires Valid()
      modifies this`effects
      ensures Valid()
      ensures knownDevices == old(knownDevices)
      ensures !Accepted(req) ==> effects == old(effects) && exit == Raise(Invalid(Violations(req)))
      ensures Accepted(req) ==>
        effects == old(effects) + ProvisionEffects(knownDevices, req) && exit == ProvisionExit(knownDevices, req, provision)
    {
      if !Accepted(req) {
        return Raise(Invalid(Violations(req)));
      }
      exit := ThreadProvision(req, provision);
    }
  }
}
