/**
 * The registry as a value: its five variables and one function per operation,
 * each returning the state after the call together with the call's result.
 */
module RegistrySpec {
  import opened RegistryTypes

  /** An ownership-history key: the equipment identifier and the change index. */
  type HistoryKey = (int, int)

  datatype State = State(
    lastEquipmentId: nat,
    lastMaintenanceRecordId: nat,
    equipment: map<int, Equipment>,
    maintenance: map<int, MaintenanceRecord>,
    history: map<HistoryKey, TransferRecord>)

  /** The state after an operation and what the operation returned. */
  datatype Transition<T> = Transition(post: State, result: Result<T>)

  /** Both counters at zero and all three tables empty. */
  function Init(): State {
    State(0, 0, map[], map[], map[])
  }

  /**
   * The set 1..n, with n elements. `Inv` makes it the exact key set of the
   * maintenance table; equipment keys are only a subset of 1..lastEquipmentId,
   * since a transfer advances that counter without storing anything.
   */
  function Ids(n: nat): (r: set<int>)
    ensures forall i :: i in r <==> 1 <= i <= n
    ensures |r| == n
  {
    if n == 0 then {} else Ids(n - 1) + {n}
  }

  /**
   * What every reachable state satisfies: equipment keys were allocated by the
   * equipment counter, maintenance keys are exactly 1..lastMaintenanceRecordId,
   * every maintenance record names registered equipment, and every history key
   * names registered equipment with a change index below the equipment counter,
   * no two history keys sharing a change index.
   */
  ghost predicate Inv(s: State) {
    && IdsAllocated(s.equipment, s.lastEquipmentId)
    && s.maintenance.Keys == Ids(s.lastMaintenanceRecordId)
    && RecordsNameEquipment(s.maintenance, s.equipment)
    && HistoryNamesEquipment(s.history, s.equipment, s.lastEquipmentId)
    && ChangeIndicesDistinct(s.history)
  }

  ghost predicate IdsAllocated(equipment: map<int, Equipment>, last: int) {
    forall id :: id in equipment ==> 1 <= id <= last
  }

  ghost predicate RecordsNameEquipment(maintenance: map<int, MaintenanceRecord>,
                                       equipment: map<int, Equipment>) {
    forall m :: m in maintenance ==> maintenance[m].equipmentId in equipment
  }

  ghost predicate HistoryNamesEquipment(history: map<HistoryKey, TransferRecord>,
                                        equipment: map<int, Equipment>, last: int) {
    forall k :: k in history ==> k.0 in equipment && k.1 < last
  }

  ghost predicate ChangeIndicesDistinct(history: map<HistoryKey, TransferRecord>) {
    forall k, k' :: k in history && k' in history && k.1 == k'.1 ==> k == k'
  }

  lemma InitSatisfiesInv()
    ensures Inv(Init())
  {
  }

  /** The maintenance counter is always the number of maintenance records. */
  lemma MaintenanceCount(s: State)
    requires Inv(s)
    ensures |s.maintenance| == s.lastMaintenanceRecordId
  {
    assert |s.maintenance| == |s.maintenance.Keys|;
  }

  /** Only the record under `id` may differ, and it stays registered. */
  ghost predicate OnlyEntryChanged(s: State, s': State, id: int) {
    && id in s.equipment
    && s'.lastEquipmentId == s.lastEquipmentId
    && s'.lastMaintenanceRecordId == s.lastMaintenanceRecordId
    && s'.maintenance == s.maintenance
    && s'.history == s.history
    && s'.equipment.Keys == s.equipment.Keys
    && (forall k :: k in s.equipment && k != id ==> s'.equipment[k] == s.equipment[k])
  }

  /**
   * The owner check shared by the three updates and the transfer: 404 when the
   * equipment is absent, otherwise 403 when the caller is not its owner,
   * otherwise success, and no failure changes anything.
   */
  ghost predicate OwnerGated<T>(s: State, id: int, caller: string, t: Transition<T>) {
    && (t.result == Err(NOT_FOUND) <==> id !in s.equipment)
    && (t.result == Err(FORBIDDEN) <==> id in s.equipment && s.equipment[id].owner != caller)
    && (t.result.Ok? <==> id in s.equipment && s.equipment[id].owner == caller)
    && (t.result.Err? ==> t.post == s)
  }

  /** Looks `id` up and checks that `caller` owns it, in that order. */
  function Authorize(s: State, id: int, caller: string): Result<Equipment> {
    if id !in s.equipment then Err(NOT_FOUND)
    else if s.equipment[id].owner != caller then Err(FORBIDDEN)
    else Ok(s.equipment[id])
  }

  function Register(s: State, reg: Registration, owner: string, height: int): Transition<int> {
    var newId := s.lastEquipmentId + 1;
    Transition(
      s.(lastEquipmentId := newId,
         equipment := s.equipment[newId := NewEquipment(reg, owner, height)]),
      Ok(newId))
  }

  /**
   * Registration always succeeds with the next identifier, stores the new
   * record under it and changes nothing else.
   */
  lemma RegisterEffect(s: State, reg: Registration, owner: string, height: int)
    ensures var t := Register(s, reg, owner, height); var id := s.lastEquipmentId + 1;
      && t.result == Ok(id)
      && t.post.lastEquipmentId == id
      && t.post.equipment.Keys == s.equipment.Keys + {id}
      && t.post.equipment[id].owner == owner
      && t.post.equipment[id].status == ACTIVE
      && t.post.equipment[id].registrationDate == height
      && Supplied(t.post.equipment[id]) == reg
      && (forall k :: k in s.equipment && k != id ==> t.post.equipment[k] == s.equipment[k])
      && t.post.lastMaintenanceRecordId == s.lastMaintenanceRecordId
      && t.post.maintenance == s.maintenance
      && t.post.history == s.history
  {
  }

  function GetEquipment(s: State, id: int): (r: Result<Equipment>)
    ensures r.Err? <==> id !in s.equipment
    ensures r.Err? ==> r.code == NOT_FOUND
    ensures r.Ok? ==> r.value == s.equipment[id]
    ensures Inv(s) && (id < 1 || id > s.lastEquipmentId) ==> r == Err(NOT_FOUND)
  {
    if id in s.equipment then Ok(s.equipment[id]) else Err(NOT_FOUND)
  }

  function UpdateStatus(s: State, id: int, status: string, caller: string): Transition<int> {
    match Authorize(s, id, caller)
    case Err(code) => Transition(s, Err(code))
    case Ok(e) => Transition(s.(equipment := s.equipment[id := e.(status := status)]), Ok(id))
  }

  /** Owner-gated; on success only the status of the record under `id` changes. */
  lemma UpdateStatusEffect(s: State, id: int, status: string, caller: string)
    ensures var t := UpdateStatus(s, id, status, caller);
      && OwnerGated(s, id, caller, t)
      && (t.result.Ok? ==>
            && t.result.value == id
            && OnlyEntryChanged(s, t.post, id)
            && t.post.equipment[id].status == status
            && t.post.equipment[id].(status := s.equipment[id].status) == s.equipment[id])
  {
  }

  function UpdateLocation(s: State, id: int, latitude: string, longitude: string,
                          description: string, caller: string): Transition<int> {
    match Authorize(s, id, caller)
    case Err(code) => Transition(s, Err(code))
    case Ok(e) =>
      var e' := e.(locationLatitude := latitude, locationLongitude := longitude,
                   locationDescription := description);
      Transition(s.(equipment := s.equipment[id := e']), Ok(id))
  }

  /** Owner-gated; on success the three location fields change together and nothing else. */
  lemma UpdateLocationEffect(s: State, id: int, latitude: string, longitude: string,
                             description: string, caller: string)
    ensures var t := UpdateLocation(s, id, latitude, longitude, description, caller);
      && OwnerGated(s, id, caller, t)
      && (t.result.Ok? ==>
            && t.result.value == id
            && OnlyEntryChanged(s, t.post, id)
            && t.post.equipment[id].locationLatitude == latitude
            && t.post.equipment[id].locationLongitude == longitude
            && t.post.equipment[id].locationDescription == description
            && t.post.equipment[id].(locationLatitude := s.equipment[id].locationLatitude,
                                     locationLongitude := s.equipment[id].locationLongitude,
                                     locationDescription := s.equipment[id].locationDescription)
               == s.equipment[id])
  {
  }

  function UpdateNetwork(s: State, id: int, ipAddress: string, firmwareVersion: string,
                         caller: string): Transition<int> {
    match Authorize(s, id, caller)
    case Err(code) => Transition(s, Err(code))
    case Ok(e) =>
      var e' := e.(ipAddress := ipAddress, firmwareVersion := firmwareVersion);
      Transition(s.(equipment := s.equipment[id := e']), Ok(id))
  }

  /** Owner-gated; on success ipAddress and firmwareVersion change together and nothing else. */
  lemma UpdateNetworkEffect(s: State, id: int, ipAddress: string, firmwareVersion: string,
                            caller: string)
    ensures var t := UpdateNetwork(s, id, ipAddress, firmwareVersion, caller);
      && OwnerGated(s, id, caller, t)
      && (t.result.Ok? ==>
            && t.result.value == id
            && OnlyEntryChanged(s, t.post, id)
            && t.post.equipment[id].ipAddress == ipAddress
            && t.post.equipment[id].firmwareVersion == firmwareVersion
            && t.post.equipment[id].(ipAddress := s.equipment[id].ipAddress,
                                     firmwareVersion := s.equipment[id].firmwareVersion)
               == s.equipment[id])
  {
  }

  /**
   * Records the transfer under (id, lastEquipmentId), hands the equipment to
   * `newOwner`, and then advances the equipment counter.
   */
  function Transfer(s: State, id: int, newOwner: string, reason: string, caller: string,
                    height: int): Transition<int> {
    match Authorize(s, id, caller)
    case Err(code) => Transition(s, Err(code))
    case Ok(e) =>
      var changeIndex := s.lastEquipmentId;
      var entry := TransferRecord(e.owner, newOwner, height, reason);
      Transition(
        s.(history := s.history[(id, changeIndex) := entry],
           equipment := s.equipment[id := e.(owner := newOwner)],
           lastEquipmentId := s.lastEquipmentId + 1),
        Ok(id))
  }

  /**
   * Owner-gated; on success the history gains the entry (id, old counter) for
   * this handover, only the owner of the record changes, and the equipment
   * counter rises by one.
   */
  lemma TransferEffect(s: State, id: int, newOwner: string, reason: string, caller: string,
                       height: int)
    ensures var t := Transfer(s, id, newOwner, reason, caller, height);
      && OwnerGated(s, id, caller, t)
      && (t.result.Ok? ==>
            && t.result.value == id
            && t.post.lastEquipmentId == s.lastEquipmentId + 1
            && t.post.history == s.history[(id, s.lastEquipmentId) :=
                 TransferRecord(s.equipment[id].owner, newOwner, height, reason)]
            && t.post.equipment.Keys == s.equipment.Keys
            && t.post.equipment[id].owner == newOwner
            && t.post.equipment[id].(owner := s.equipment[id].owner) == s.equipment[id]
            && (forall k :: k in s.equipment && k != id ==> t.post.equipment[k] == s.equipment[k])
            && t.post.lastMaintenanceRecordId == s.lastMaintenanceRecordId
            && t.post.maintenance == s.maintenance)
  {
  }

  /** Anyone may report maintenance; only the equipment's existence is checked. */
  function AddMaintenance(s: State, equipmentId: int, maintenanceType: string, description: string,
                          performedDate: int, cost: int, partsReplaced: string,
                          nextMaintenanceDate: int, performedBy: string): Transition<int> {
    if equipmentId !in s.equipment then Transition(s, Err(NOT_FOUND))
    else
      var newId := s.lastMaintenanceRecordId + 1;
      var record := MaintenanceRecord(equipmentId, maintenanceType, description, performedBy,
                                      performedDate, cost, partsReplaced, nextMaintenanceDate);
      Transition(s.(lastMaintenanceRecordId := newId,
                    maintenance := s.maintenance[newId := record]),
                 Ok(newId))
  }

  /**
   * 404 exactly for unregistered equipment, changing nothing; otherwise the
   * next maintenance identifier, with the record stored under it and the
   * equipment side untouched.
   */
  lemma AddMaintenanceEffect(s: State, equipmentId: int, maintenanceType: string,
                             description: string, performedDate: int, cost: int,
                             partsReplaced: string, nextMaintenanceDate: int, performedBy: string)
    ensures var t := AddMaintenance(s, equipmentId, maintenanceType, description, performedDate,
                                    cost, partsReplaced, nextMaintenanceDate, performedBy);
      var id := s.lastMaintenanceRecordId + 1;
      && (t.result.Err? <==> equipmentId !in s.equipment)
      && (t.result.Err? ==> t.result.code == NOT_FOUND && t.post == s)
      && (t.result.Ok? ==>
            && t.result.value == id
            && t.post.lastMaintenanceRecordId == id
            && t.post.maintenance == s.maintenance[id :=
                 MaintenanceRecord(equipmentId, maintenanceType, description, performedBy,
                                   performedDate, cost, partsReplaced, nextMaintenanceDate)]
            && t.post.lastEquipmentId == s.lastEquipmentId
            && t.post.equipment == s.equipment
            && t.post.history == s.history)
  {
  }

  function GetMaintenance(s: State, id: int): (r: Result<MaintenanceRecord>)
    ensures r.Err? <==> id !in s.maintenance
    ensures r.Err? ==> r.code == NOT_FOUND
    ensures r.Ok? ==> r.value == s.maintenance[id]
    ensures Inv(s) ==> (r.Ok? <==> 1 <= id <= s.lastMaintenanceRecordId)
    ensures Inv(s) && r.Ok? ==> r.value.equipmentId in s.equipment
  {
    if id in s.maintenance then Ok(s.maintenance[id]) else Err(NOT_FOUND)
  }

  // Each state-changing operation keeps the invariant.

  /** The next identifiers and the next change index are not yet in use. */
  lemma NextKeysFresh(s: State, id: int)
    requires Inv(s)
    ensures s.lastEquipmentId + 1 !in s.equipment
    ensures s.lastMaintenanceRecordId + 1 !in s.maintenance
    ensures (id, s.lastEquipmentId) !in s.history
  {
  }

  lemma RegisterPreservesInv(s: State, reg: Registration, owner: string, height: int)
    requires Inv(s)
    ensures var t := Register(s, reg, owner, height);
      && s.lastEquipmentId + 1 !in s.equipment
      && |t.post.equipment| == |s.equipment| + 1
      && Inv(t.post)
  {
  }

  lemma UpdateStatusPreservesInv(s: State, id: int, status: string, caller: string)
    requires Inv(s)
    ensures Inv(UpdateStatus(s, id, status, caller).post)
  {
  }

  lemma UpdateLocationPreservesInv(s: State, id: int, latitude: string, longitude: string,
                                   description: string, caller: string)
    requires Inv(s)
    ensures Inv(UpdateLocation(s, id, latitude, longitude, description, caller).post)
  {
  }

  lemma UpdateNetworkPreservesInv(s: State, id: int, ipAddress: string, firmwareVersion: string,
                                  caller: string)
    requires Inv(s)
    ensures Inv(UpdateNetwork(s, id, ipAddress, firmwareVersion, caller).post)
  {
  }

  /** A successful transfer writes a history key that was never written before. */
  lemma TransferPreservesInv(s: State, id: int, newOwner: string, reason: string, caller: string,
                             height: int)
    requires Inv(s)
    ensures var t := Transfer(s, id, newOwner, reason, caller, height);
      && (t.result.Ok? ==>
            && (id, s.lastEquipmentId) !in s.history
            && |t.post.history| == |s.history| + 1)
      && Inv(t.post)
  {
  }

  lemma AddMaintenancePreservesInv(s: State, equipmentId: int, maintenanceType: string,
                                   description: string, performedDate: int, cost: int,
                                   partsReplaced: string, nextMaintenanceDate: int,
                                   performedBy: string)
    requires Inv(s)
    ensures var t := AddMaintenance(s, equipmentId, maintenanceType, description, performedDate,
                                    cost, partsReplaced, nextMaintenanceDate, performedBy);
      && (t.result.Ok? ==>
            && s.lastMaintenanceRecordId + 1 !in s.maintenance
            && |t.post.maintenance| == |s.maintenance| + 1)
      && Inv(t.post)
  {
    var t := AddMaintenance(s, equipmentId, maintenanceType, description, performedDate,
                            cost, partsReplaced, nextMaintenanceDate, performedBy);
    if equipmentId in s.equipment {
      var record := MaintenanceRecord(equipmentId, maintenanceType, description, performedBy,
                                      performedDate, cost, partsReplaced, nextMaintenanceDate);
      AppendMaintenancePreservesInv(s, record);
    }
  }

  /** A table keyed exactly by 1..n, extended under n + 1, is keyed exactly by 1..n + 1. */
  lemma NextIdKey<V>(m: map<int, V>, n: nat, v: V)
    requires m.Keys == Ids(n)
    ensures n + 1 !in m
    ensures m[n + 1 := v].Keys == Ids(n + 1)
    ensures |m[n + 1 := v]| == |m| + 1
  {
    assert m[n + 1 := v].Keys == m.Keys + {n + 1};
  }

  /** Storing a record for registered equipment under the next maintenance identifier. */
  lemma AppendMaintenancePreservesInv(s: State, record: MaintenanceRecord)
    requires Inv(s)
    requires record.equipmentId in s.equipment
    ensures var n := s.lastMaintenanceRecordId + 1;
      && n !in s.maintenance
      && |s.maintenance[n := record]| == |s.maintenance| + 1
      && Inv(s.(lastMaintenanceRecordId := n, maintenance := s.maintenance[n := record]))
  {
    var n := s.lastMaintenanceRecordId + 1;
    var m := s.maintenance[n := record];
    var s' := s.(lastMaintenanceRecordId := n, maintenance := m);
    assert s'.maintenance.Keys == Ids(s'.lastMaintenanceRecordId) by {
      NextIdKey(s.maintenance, s.lastMaintenanceRecordId, record);
    }
    assert RecordsNameEquipment(s'.maintenance, s'.equipment) by {
      forall i | i in m
        ensures m[i].equipmentId in s.equipment
      {
        if i != n {
          assert m[i] == s.maintenance[i];
        }
      }
    }
  }

  /**
   * Adding maintenance performs no owner check: who reports it changes only
   * the stored performedBy field, never whether the call succeeds.
   */
  lemma AddMaintenanceIgnoresOwnership(s: State, equipmentId: int, maintenanceType: string,
                                       description: string, performedDate: int, cost: int,
                                       partsReplaced: string, nextMaintenanceDate: int,
                                       reporter: string, other: string)
    ensures var t := AddMaintenance(s, equipmentId, maintenanceType, description, performedDate,
                                    cost, partsReplaced, nextMaintenanceDate, reporter);
            var u := AddMaintenance(s, equipmentId, maintenanceType, description, performedDate,
                                    cost, partsReplaced, nextMaintenanceDate, other);
            && t.result == u.result
            && (t.result.Ok? ==>
                  u.post == t.post.(maintenance := t.post.maintenance[t.result.value :=
                    t.post.maintenance[t.result.value].(performedBy := other)]))
  {
  }
}
