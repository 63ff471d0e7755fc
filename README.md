# Equipment registry — a verified Dafny model

This project models the equipment registry of a rural network-sharing system.
The registry records physical network devices, such as routers and access
points, under an owner. It lets the owner change a device's status, location
and network settings. The owner can hand the device to someone else, and each
handover is written to an ownership history. Anyone can attach a maintenance
record to a registered device.

The model follows the registry as `tests/equipment-registration.test.ts`
implements it (lines 1-175). That code keeps two counters, `lastEquipmentId`
and `lastMaintenanceRecordId`, and three tables: equipment, maintenance
records and ownership history. Every operation returns either a value or an
error code, 404 (not found) or 403 (caller is not the owner).

Files:

- `Types.dfy` (module `RegistryTypes`): the records `Equipment`,
  `TransferRecord`, `MaintenanceRecord` and `Registration`. `Registration`
  holds the fourteen attributes that registration takes. The file also has
  `Result`, the error codes, and `NewEquipment`, the record that registration
  stores.
- `Spec.dfy` (module `RegistrySpec`): the registry as a value `State`, with
  one function per operation. Each state-changing function returns the next
  state and the result; the two lookups, `GetEquipment` and
  `GetMaintenance`, return only a result. A lemma beside each state-changing
  function (`RegisterEffect`, `UpdateStatusEffect`, and
  so on) states what the operation does. This module also defines the
  invariant `Inv` and proves that every operation preserves it.
- `Registry.dfy` (module `EquipmentRegistry`): class `Registry`. Its fields
  are the source's two counters and three tables, and its methods update them
  in place, as the source does. Each method ensures that its new state and
  its result are exactly the transition the matching `RegistrySpec` function
  gives. Each method also keeps `Valid()`, which is `Inv`.
- `Trace.dfy` (module `RegistryTrace`): runs any sequence of operations. It
  proves what holds over such a run: the invariant, append-only tables,
  strictly increasing equipment identifiers, and identifiers 1..N for N
  registrations in a row.
- `Scenarios.dfy` (module `RegistryScenarios`): the test scenarios as lemmas.
  Each lemma starts from the empty registry and holds for any attributes,
  principals and block heights, with distinct principals where the scenario
  needs them.

Where the code and the registry's design description differ, the model
follows the code:

- **History keys.** The design asks for transfer-history keys that never
  repeat per device. The code keys each entry by the device id and the
  current value of the *global* equipment counter, and then increments that
  counter. The model does the same. `Inv` shows that keys still never
  collide: every change index is below the counter, and no two entries share
  one (`RegistrySpec.TransferPreservesInv`). The side effect is that a
  registration made after a transfer skips an identifier
  (`RegistryScenarios.TransferSkipsNextId`).
- **Identifiers 1..N.** These hold for a run made only of registrations
  (`RegistryTrace.FreshRegistrationsNumberedOneToN`). Over any mix of
  operations, registration identifiers are only strictly increasing
  (`RegistryTrace.RegisteredIdsIncrease`).
- **No range checks.** The design calls coverage radius and cost
  non-negative, but the code checks neither. The model stores any integer.
- **Open status.** Status is an unrestricted string, as in the code.

The caller and the block height are parameters. The source takes the caller
as a defaulted last argument, and its clock is a constant. Principals are
opaque strings.

## Model

| member | source | states |
|---|---|---|
| `RegistryTypes.NewEquipment` | tests/equipment-registration.test.ts:36-54 | the stored record has the given owner, status "active" and registrationDate equal to the block height; its registration attributes read back as exactly the arguments passed |
| `RegistrySpec.Ids` | tests/equipment-registration.test.ts:9-10 | the set 1..n, with exactly n elements; `Inv` makes it the exact maintenance key set, while equipment keys are only a subset of 1..lastEquipmentId because a transfer advances that counter without storing anything |
| `RegistrySpec.InitSatisfiesInv` | tests/equipment-registration.test.ts:177-184 | the reset state (counters 0, tables empty) satisfies the registry invariant |
| `RegistrySpec.MaintenanceCount` | tests/equipment-registration.test.ts:153-156 | in every valid state the maintenance counter equals the number of maintenance records |
| `RegistrySpec.RegisterEffect` | tests/equipment-registration.test.ts:16-57 | always succeeds, with old lastEquipmentId + 1, and the counter becomes that id; the new entry has the caller as owner, status "active", the block height and every other field equal to its argument; all other entries, the maintenance table, the maintenance counter and the history are unchanged |
| `RegistrySpec.RegisterPreservesInv` | tests/equipment-registration.test.ts:33-36 | in a valid state the new id is not yet a key, the registry grows by exactly one, and the invariant holds afterwards |
| `RegistrySpec.GetEquipment` | tests/equipment-registration.test.ts:59-63 | 404 exactly when the id is not a key, otherwise the stored record unchanged; in a valid state ids below 1 or above the counter are always 404 |
| `RegistrySpec.UpdateStatusEffect` | tests/equipment-registration.test.ts:65-76 | 404 exactly when the id is absent, otherwise 403 exactly when the caller is not the owner, success otherwise; any error leaves the state unchanged; on success it returns the id, sets the status and leaves every other field, entry, counter and table unchanged |
| `RegistrySpec.UpdateStatusPreservesInv` | tests/equipment-registration.test.ts:70-73 | a status update keeps the invariant |
| `RegistrySpec.UpdateLocationEffect` | tests/equipment-registration.test.ts:78-97 | the same 404/403 gate with no change on error; on success it replaces latitude, longitude and description together and nothing else |
| `RegistrySpec.UpdateLocationPreservesInv` | tests/equipment-registration.test.ts:89-94 | a location update keeps the invariant |
| `RegistrySpec.UpdateNetworkEffect` | tests/equipment-registration.test.ts:99-111 | the same 404/403 gate with no change on error; on success it replaces ipAddress and firmwareVersion together and nothing else |
| `RegistrySpec.UpdateNetworkPreservesInv` | tests/equipment-registration.test.ts:104-108 | a network update keeps the invariant |
| `RegistrySpec.TransferEffect` | tests/equipment-registration.test.ts:113-138 | the same 404/403 gate, and on error owner, history and counter are unchanged; on success it writes history[(id, old lastEquipmentId)] with the old owner, the new owner, the block height and the reason; the owner becomes newOwner and every other field is unchanged; lastEquipmentId rises by exactly 1 |
| `RegistrySpec.TransferPreservesInv` | tests/equipment-registration.test.ts:121-135 | in a valid state a successful transfer writes a history key not already present, so the history grows by exactly one entry and none is overwritten; the invariant holds afterwards |
| `RegistrySpec.AddMaintenanceEffect` | tests/equipment-registration.test.ts:140-168 | fails with 404 exactly when the equipment id is not registered, and then changes nothing; otherwise it returns old lastMaintenanceRecordId + 1 and stores the given fields with performedBy equal to the caller; equipment, history and the equipment counter are untouched |
| `RegistrySpec.AddMaintenancePreservesInv` | tests/equipment-registration.test.ts:150-156 | in a valid state the new maintenance id is fresh, the table grows by one, maintenance keys stay exactly 1..counter and every record still names registered equipment |
| `RegistrySpec.AddMaintenanceIgnoresOwnership` | tests/equipment-registration.test.ts:148-151 | the reporter's identity never affects success or the id returned; it changes only the stored performedBy field (no owner check) |
| `RegistrySpec.GetMaintenance` | tests/equipment-registration.test.ts:170-174 | 404 exactly when the id is not a key, otherwise the stored record unchanged; in a valid state it succeeds exactly for ids 1..lastMaintenanceRecordId, and the record found names registered equipment |
| `RegistryTrace.Apply` | tests/equipment-registration.test.ts:16-168 | no operation decreases the equipment counter |
| `RegistryTrace.ApplyStep` | tests/equipment-registration.test.ts:16-168 | every state-changing operation keeps the invariant and only extends the state |
| `RegistryTrace.RegisterExtends` | tests/equipment-registration.test.ts:33-36 | when the next id is unused (as the invariant ensures), registration removes no equipment and keeps the fixed attributes of every existing device, keeps every maintenance record and history entry, and no counter goes back (the full frame, every other entry unchanged, is `RegistrySpec.RegisterEffect`) |
| `RegistryTrace.StatusExtends` | tests/equipment-registration.test.ts:70-73 | a status update keeps every device's fixed attributes and all other tables |
| `RegistryTrace.LocationExtends` | tests/equipment-registration.test.ts:89-94 | a location update keeps every device's fixed attributes and all other tables |
| `RegistryTrace.NetworkExtends` | tests/equipment-registration.test.ts:104-108 | a network update keeps every device's fixed attributes and all other tables |
| `RegistryTrace.TransferExtends` | tests/equipment-registration.test.ts:121-135 | when the key (id, counter) is unused (as the invariant ensures), a transfer keeps every earlier history entry as it was and every device's fixed attributes |
| `RegistryTrace.MaintenanceExtends` | tests/equipment-registration.test.ts:153-156 | when the next maintenance id is unused (as the invariant ensures), adding maintenance keeps every earlier maintenance record as it was |
| `RegistryTrace.RunPreservesInv` | tests/equipment-registration.test.ts:16-174 | any sequence of operations from a valid state ends in a valid state |
| `RegistryTrace.ReachableSatisfiesInv` | tests/equipment-registration.test.ts:9-13 | every state reachable from the initial one satisfies the invariant: keys within the counters, maintenance records point at existing equipment, history keys fresh |
| `RegistryTrace.RunExtends` | tests/equipment-registration.test.ts:16-174 | over any run, counters never decrease; equipment is never deleted and its fixed attributes never change; maintenance records and history entries are never removed or overwritten |
| `RegistryTrace.CounterNeverDecreases` | tests/equipment-registration.test.ts:34-135 | over any run the equipment counter never decreases |
| `RegistryTrace.RegistrationIdBounds` | tests/equipment-registration.test.ts:33-34 | a registration anywhere in a run succeeds with an id above the starting counter and not above the final one |
| `RegistryTrace.RegisteredIdsIncrease` | tests/equipment-registration.test.ts:33-135 | over any mix of operations a later registration receives a strictly larger id than an earlier one, so no id is handed out twice |
| `RegistryTrace.RegistrationResult` | tests/equipment-registration.test.ts:33-56 | the i-th of consecutive registrations returns the starting counter + i + 1 |
| `RegistryTrace.RegistrationsAreConsecutive` | tests/equipment-registration.test.ts:33-56 | N consecutive registrations return the next N ids in call order, advance the counter by N and add exactly those keys |
| `RegistryTrace.FreshRegistrationsNumberedOneToN` | tests/equipment-registration.test.ts:205-253 | from the empty registry, N registrations return ids 1..N in order and the registry then holds exactly the keys 1..N |
| `EquipmentRegistry.Registry.constructor` | tests/equipment-registration.test.ts:9-13 | the new registry is the initial state and is valid |
| `EquipmentRegistry.Registry.RegisterEquipment` | tests/equipment-registration.test.ts:16-57 | performs the Register transition in place: returns old counter + 1, stores NewEquipment under it, leaves maintenance and history alone, keeps Valid |
| `EquipmentRegistry.Registry.GetEquipment` | tests/equipment-registration.test.ts:59-63 | returns the stored record exactly when the id is a key, otherwise 404 |
| `EquipmentRegistry.Registry.UpdateEquipmentStatus` | tests/equipment-registration.test.ts:65-76 | performs the UpdateStatus transition in place; on error no field of the registry changes |
| `EquipmentRegistry.Registry.UpdateEquipmentLocation` | tests/equipment-registration.test.ts:78-97 | performs the UpdateLocation transition in place; on error no field of the registry changes |
| `EquipmentRegistry.Registry.UpdateEquipmentNetwork` | tests/equipment-registration.test.ts:99-111 | performs the UpdateNetwork transition in place; on error no field of the registry changes |
| `EquipmentRegistry.Registry.TransferEquipmentOwnership` | tests/equipment-registration.test.ts:113-138 | performs the Transfer transition in place (history write, owner change, counter increment); on error nothing changes; the key written was not in the history before |
| `EquipmentRegistry.Registry.AddMaintenanceRecord` | tests/equipment-registration.test.ts:140-168 | performs the AddMaintenance transition in place; the equipment counter, equipment table and history are never touched |
| `EquipmentRegistry.Registry.GetMaintenanceRecord` | tests/equipment-registration.test.ts:170-174 | returns the stored record exactly when the id is a key, otherwise 404 |
| `RegistryScenarios.RegisterFirst` | tests/equipment-registration.test.ts:187-215 | the first registration returns 1, the registry has one entry, status "active", and type, power source and radius as given |
| `RegistryScenarios.RegisterSecond` | tests/equipment-registration.test.ts:217-258 | the second registration returns 2, the registry has two entries, and entry 2 carries the second call's type and model |
| `RegistryScenarios.OwnerUpdatesStatus` | tests/equipment-registration.test.ts:262-285 | the owner setting status "maintenance" gets 1 back and the status reads "maintenance" |
| `RegistryScenarios.OwnerUpdatesLocation` | tests/equipment-registration.test.ts:287-312 | the owner's location update returns 1 and the three location fields read back as given |
| `RegistryScenarios.OwnerUpdatesNetwork` | tests/equipment-registration.test.ts:314-338 | the owner's network update returns 1 and ipAddress and firmwareVersion read back as given |
| `RegistryScenarios.NonOwnerCannotUpdateStatus` | tests/equipment-registration.test.ts:340-363 | a different caller gets 403, the state is unchanged and the status is still "active" |
| `RegistryScenarios.OwnerTransfers` | tests/equipment-registration.test.ts:367-397 | the owner's transfer returns 1, the owner becomes the new owner, and history key (1, 1) records the old owner, new owner, height and reason |
| `RegistryScenarios.NonOwnerCannotTransfer` | tests/equipment-registration.test.ts:399-427 | a transfer by a non-owner gets 403 and the owner is unchanged |
| `RegistryScenarios.AddFirstMaintenance` | tests/equipment-registration.test.ts:431-468 | the first maintenance record gets id 1, the table has one entry, and it names equipment 1, the type, the parts and the reporter |
| `RegistryScenarios.AddSecondMaintenance` | tests/equipment-registration.test.ts:470-514 | the second maintenance record gets id 2, the table has two entries, and record 2 has the second type and cost |
| `RegistryScenarios.MaintenanceForUnknownEquipment` | tests/equipment-registration.test.ts:516-529 | on the empty registry adding maintenance for any equipment id gets 404 and the table stays empty |
| `RegistryScenarios.TransferChain` | tests/equipment-registration.test.ts:113-138 | P transfers to Q; P's later attempt gets 403 and changes nothing; Q transfers to R; the history then holds exactly the two distinct keys (1, 1) and (1, 2) |
| `RegistryScenarios.TransferSkipsNextId` | tests/equipment-registration.test.ts:121-135 | register, transfer, register yields ids 1 and 3: the transfer consumed id 2, which never names equipment |

## Left out

- The test harness (`describe`, `it`, `expect`, `beforeEach`). The test
  bodies appear only as scenario lemmas, and `beforeEach` is the initial
  state (`RegistrySpec.Init`, the `Registry` constructor).
- The concrete principal strings and the constant block height 100.
  Principals are arbitrary strings. The block height is a parameter of
  registration and transfer, where the source reads its constant.
- The source's default argument for the caller (`owner = mockPrincipal`).
  Every operation takes the caller explicitly.
- The string form of a history key, `` `${id}-${changeIndex}` ``. The key is
  modelled as the pair (id, changeIndex). Ids and change indices are
  positive integers and the separator is not a digit, so distinct pairs give
  distinct strings.
- Dynamic typing. The source's ids and attributes are untyped JavaScript
  values, and its numbers are floating point. The model uses integers and
  strings. It therefore does not model ids of another type (a string "1"
  would miss the numeric key 1) or precision loss above 2^53.
- Aliasing of returned records. `getEquipment` and `getMaintenanceRecord`
  return the stored object itself, so a caller that mutated it would change
  the table. The model returns record values, so this is not captured.
- The truthiness test `if (!equipment)`. Stored records are objects and
  always truthy, so the test is the same as a key-presence check, which is
  how it is modelled.
- The real on-chain contract, identity resolution and block mechanics are
  not part of this model.
