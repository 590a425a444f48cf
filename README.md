# HomeKit controller: connection registry lifecycle

A Dafny model of the entry points of Home Assistant's `homekit_controller` integration
(`homeassistant/components/homekit_controller/__init__.py`). The model covers how the integration
keeps its connection registry, `hass.data[KNOWN_DEVICES]`. This is a map from an accessory's pairing
id to the connection handle (`HKDevice`) set up for it. The entry points are:

- `async_setup` creates an empty registry, subscribes the stop handler and registers the
  `thread_provision` admin service.
- `async_setup_entry` inserts a fresh handle under its pairing id and then connects. If connecting
  fails with one of the four retryable kinds (timeout, accessory not found, encryption error,
  accessory disconnected), it deletes the entry again, closes the pairing best-effort and raises
  `ConfigEntryNotReady`.
- The stop handler unloads every registered handle.
- `async_unload_entry` unloads the handle for an entry if one is registered.
- `async_remove_entry` unpairs the accessory through a pairing loaded afresh from the entry. It
  forgives only an unreachable accessory.
- `thread_provision` checks its payload against a fixed schema, logs it with the network key
  redacted, and forwards the credentials to the registered handle's pairing.
- `async_remove_config_entry_device` allows detaching a device only when it shares no identifier
  with the connection's accessories.

Collaborator calls are not executed in the model. Connecting, closing, unloading, loading a pairing, unpairing,
provisioning and fetching the controller are each an `Outcome` parameter: `Ok`, or `Fail` with one
failure of a closed `Failure` datatype. The calls the integration makes are appended to an effect
log, `Integration.effects`. So the contracts can say which calls happen, in what order, and with
what arguments. `normalize_hkid` is a `string -> string` parameter.

Modules, one file each:
- `Const` (const.dfy) holds the payload keys.
- `Outcomes` (outcomes.dfy) holds failures, exceptions and exits.
- `ThreadSchema` (thread_schema.dfy) holds the service schema, the log record and the credentials.
- `DeviceRemoval` (device_removal.dfy) holds the identifier-disjointness decision.
- `Registry` (registry.dfy) holds the handle class, the pure registry transitions, and the
  semantics of a sequence of entry-point calls with lemmas about it.
- `HomekitController` (homekit_controller.dfy) holds the `Integration` class, one method per entry point.

Behaviour of the code worth noting:
- Registering a handle does not refuse a duplicate id. The insert is a plain assignment, so it
  overwrites any handle already filed under that id.
- Nothing guards against subscribing the stop handler twice. Every successful `async_setup` call
  subscribes again, and it also resets the registry to empty.
- Closing the pairing during rollback suppresses only a timeout. Any other failure of `close()`
  escapes in place of `ConfigEntryNotReady`.
- `async_unload_entry` returns True only when the unload call itself does not raise.
- `async_remove_config_entry_device` raises `KeyError` when the pairing id is not registered.

## Model

| member | source | states |
|---|---|---|
| `HomekitController.Integration.AsyncSetup` | homeassistant/components/homekit_controller/__init__.py:71-133 | a failing controller fetch escapes and changes nothing else; otherwise the registry becomes empty, the stop handler is subscribed, the service registered, and True returned |
| `HomekitController.Integration.AsyncSetupEntry` | homeassistant/components/homekit_controller/__init__.py:44-68 | a fresh handle for the entry's pairing id; the registry afterwards is the old one with the handle inserted (overwriting), or with the id deleted when connecting failed retryably; the exit is `SetupExit`, the entry update `BackfillUniqueId` and the calls `SetupEffects` |
| `Registry.Connection.constructor` | homeassistant/components/homekit_controller/__init__.py:46 | the handle carries the entry's pairing id as its unique id |
| `Registry.AfterSetup` | homeassistant/components/homekit_controller/__init__.py:46-63 | after setup the id is registered exactly when connecting did not fail retryably, and then maps to the new handle; every other id keeps its entry |
| `Registry.SetupExitClassified` | homeassistant/components/homekit_controller/__init__.py:55-66 | success returns True; ConfigEntryNotReady is raised exactly on a retryable connect failure whose close ended normally or timed out, with that failure as cause; an unclassified connect failure escapes unchanged; a timeout never escapes |
| `Registry.UnclassifiedFailureKeepsHandle` | homeassistant/components/homekit_controller/__init__.py:47-62 | a connect failure outside the four kinds leaves the new handle registered and propagates unchanged |
| `Registry.BackfillUniqueId` | homeassistant/components/homekit_controller/__init__.py:49-53 | the entry's unique id becomes the normalised pairing id exactly when it was None; otherwise the entry is untouched; nothing else changes |
| `Registry.BackfillIdempotent` | homeassistant/components/homekit_controller/__init__.py:49-53 | setting up an entry again never changes the unique id recorded the first time |
| `HomekitController.SetupEffectsShape` | homeassistant/components/homekit_controller/__init__.py:49-66 | setup connects once, closes the pairing exactly when it rolls back, and updates the entry exactly when it had no unique id, with the normalised id |
| `Registry.RunKeepsConsistent` | homeassistant/components/homekit_controller/__init__.py:47-75 | over any sequence of entry-point calls every handle stays filed under its own pairing id |
| `Registry.RunUntouched` | homeassistant/components/homekit_controller/__init__.py:44-179 | calls other than an init or a setup for an id never change that id's entry |
| `Registry.LastDecisionWins` | homeassistant/components/homekit_controller/__init__.py:47-75 | the last init or setup for an id decides its entry: absent after init or a retryable failure, that setup's handle otherwise |
| `Registry.TwoDeviceScenario` | homeassistant/components/homekit_controller/__init__.py:44-75 | after init, a setup that connects and a setup whose accessory is not found, the registry holds only the first handle |
| `HomekitController.Integration.StopSnapshot` | homeassistant/components/homekit_controller/__init__.py:78-84 | the stop handler's fan-out lists every registered id exactly once |
| `HomekitController.Integration.OnStop` | homeassistant/components/homekit_controller/__init__.py:78-86 | the stop handler's snapshot lists every registered id exactly once (as many ids as entries, no repeats), and it issues one unload per listed id, so every registered handle, and no other, is unloaded; the registry is unchanged |
| `HomekitController.UnloadCalls` | homeassistant/components/homekit_controller/__init__.py:79-84 | the i-th unload call targets the handle of the i-th id of the snapshot |
| `HomekitController.UnloadCallsCoverRegistry` | homeassistant/components/homekit_controller/__init__.py:78-84 | in a consistent registry, a snapshot of exactly the registered ids yields only unloads, each of a handle filed under its own id, and an unload of every registered handle |
| `HomekitController.Integration.AsyncUnloadEntry` | homeassistant/components/homekit_controller/__init__.py:136-144 | unload is called only when the pairing id is registered, and then on the handle created for that id; True is returned unless that unload raises; the registry is unchanged |
| `HomekitController.Integration.AsyncRemoveEntry` | homeassistant/components/homekit_controller/__init__.py:147-164 | unpairing goes through a pairing loaded from the entry and never reads or changes the registry; a failing controller fetch or pairing load escapes before any unpair call; an unreachable accessory gives one warning and a normal return |
| `HomekitController.RemoveExit` | homeassistant/components/homekit_controller/__init__.py:156-164 | removal raises exactly when unpairing fails with a kind other than accessory-disconnected, and then raises that failure |
| `HomekitController.Integration.AsyncRemoveConfigEntryDevice` | homeassistant/components/homekit_controller/__init__.py:167-179 | KeyError for an unregistered pairing id; otherwise True exactly when the device's identifiers are disjoint from those of every accessory of the connection |
| `DeviceRemoval.SharedIdentifiers` | homeassistant/components/homekit_controller/__init__.py:173-179 | the intersection holds exactly the device identifiers that some accessory of the connection also lists |
| `DeviceRemoval.CanRemoveDevice` | homeassistant/components/homekit_controller/__init__.py:173-179 | the intersection is empty exactly when the device shares no identifier with any accessory |
| `ThreadSchema.FieldValidClosedForm` | homeassistant/components/homekit_controller/__init__.py:122-128 | each key's chain of validators (including cv.positive_int's lower bound of zero) accepts exactly the closed-form range of that key |
| `ThreadSchema.Violations` | homeassistant/components/homekit_controller/__init__.py:120-130 | the schema never reports the hkid, and reports the network name exactly when longer than 16, the channel exactly when outside 11..26, the PAN id, extended PAN id and key exactly when their length is outside 1..4, 1..16 and 1..32, and the flag exactly when outside 0..255 |
| `ThreadSchema.AcceptedIff` | homeassistant/components/homekit_controller/__init__.py:120-130 | a payload passes exactly when network name length is at most 16, 11 ≤ channel ≤ 26, PAN id length is 1..4, extended PAN id length 1..16, network key length 1..32, and 0 ≤ flag ≤ 255 |
| `ThreadSchema.NetworkNameBoundary` | homeassistant/components/homekit_controller/__init__.py:123 | a 16-character network name passes and a 17-character one is refused |
| `HomekitController.Integration.CallThreadProvisionService` | homeassistant/components/homekit_controller/__init__.py:115-131 | a refused payload raises Invalid with the failing keys before any call or log; an accepted one runs the handler |
| `ThreadSchema.LogRecordRedactsKey` | homeassistant/components/homekit_controller/__init__.py:96-104 | the logged record names every key once, shows every field except the network key as given, shows the key only as REDACTED, and is the same whatever the key |
| `HomekitController.Integration.ThreadProvision` | homeassistant/components/homekit_controller/__init__.py:88-113 | the handler logs the redacted record, then warns on an unknown id or forwards to the registered handle, which is the one created for that id, propagating only that call's failure; the registry is unchanged |
| `HomekitController.ProvisionDispatch` | homeassistant/components/homekit_controller/__init__.py:106-111 | a pairing is asked to provision exactly when the id is registered, and then only that id's handle, with the six fields unchanged; an unknown id gets a warning and a normal return |

## Left out

- `asyncio.gather` concurrency in the stop handler: the model issues the unloads one after another in an arbitrary order. It does not say that they run concurrently, or how long the handler waits.
- The failures of unload calls in the stop handler are not modelled. `gather` would propagate the first failure, and the handler's result is not part of the model.
- Interleavings of entry points that suspend at an `await`, for example two setups in flight at once. Each entry point is modelled as one atomic step.
- The registry does not exist until `async_setup` has run. Before that, `async_setup_entry`, `async_unload_entry` and `async_remove_config_entry_device` would raise `KeyError` on `hass.data[KNOWN_DEVICES]`. The `thread_provision` handler cannot run earlier, because `async_setup` registers it only after creating the registry. The model assumes the framework's order, in which `async_setup` succeeds first: an `Integration` starts with an empty registry.
- `HKDevice` is not part of this model. That covers its `async_setup`, its `async_unload`, and whatever either does to the registry itself. The handle's unique id is taken to be the entry's `AccessoryPairingID`.
- `aiohomekit`, `async_get_controller`, `load_pairing`, `remove_pairing`, and `close()` and `thread_provision` on the pairing are foreign code. Each is an `Outcome` parameter and an entry in the effect log. A failure of any of them escapes unchanged, except an unreachable accessory during `remove_pairing` and a timeout while closing the pairing during rollback.
- `normalize_hkid` lives in `config_flow.py`, which is not part of this model. It is an arbitrary function parameter.
- Voluptuous and `cv` coercion (string conversion, integer coercion, missing and extra keys) is not modelled. The payload arrives typed, and only the length and range validators are checked.
- Log formatting is not modelled. The record is a sequence of (key, shown value) pairs, and warnings are constructors of `Message`.
- `hass.data[TRIGGERS]` is not modelled. It is only initialised to empty here and is used by other files.
- The `entity_map` of a connection and `device_info_for_accessory` are not modelled. They are a parameter giving the identifier sets of each accessory.
