/**
 * The registry as the source keeps it: two counters and three tables that
 * every operation updates in place. Each method is proved to perform exactly
 * the transition that the matching function of RegistrySpec describes.
 */
module EquipmentRegistry {
  import opened RegistryTypes
  import S = RegistrySpec

  class Registry {
    var lastEquipmentId: nat
    var lastMaintenanceRecordId: nat
    var equipment: map<int, Equipment>
    var maintenance: map<int, MaintenanceRecord>
    var history: map<S.HistoryKey, TransferRecord>

    /** The registry's current contents as a value. */
    function View(): S.State
      reads this
    {
      S.State(lastEquipmentId, lastMaintenanceRecordId, equipment, maintenance, history)
    }

    ghost predicate Valid()
      reads this
    {
      S.Inv(View())
    }

    /** The state every scenario starts from: counters at zero, tables empty. */
    constructor ()
      ensures Valid() && View() == S.Init()
    {
      lastEquipmentId := 0;
      lastMaintenanceRecordId := 0;
      equipment := map[];
      maintenance := map[];
      history := map[];
      new;
      S.InitSatisfiesInv();
    }

    method RegisterEquipment(reg: Registration, owner: string, blockHeight: int)
      returns (r: Result<int>)
      requires Valid()
      modifies this
      ensures Valid()
      ensures S.Transition(View(), r) == S.Register(old(View()), reg, owner, blockHeight)
      ensures r == Ok(old(lastEquipmentId) + 1) && lastEquipmentId == old(lastEquipmentId) + 1
      ensures equipment == old(equipment)[lastEquipmentId := NewEquipment(reg, owner, blockHeight)]
      ensures unchanged(this`lastMaintenanceRecordId, this`maintenance, this`history)
    {
      ghost var pre := View();
      var newId := lastEquipmentId + 1;
      lastEquipmentId := newId;
      equipment := equipment[newId := NewEquipment(reg, owner, blockHeight)];
      r := Ok(newId);
      assert View() == S.Register(pre, reg, owner, blockHeight).post;
      S.RegisterPreservesInv(pre, reg, owner, blockHeight);
    }

    method GetEquipment(id: int) returns (r: Result<Equipment>)
      ensures r == S.GetEquipment(View(), id)
      ensures r.Ok? <==> id in equipment
      ensures r.Ok? ==> r.value == equipment[id]
      ensures r.Err? ==> r.code == NOT_FOUND
    {
      if id !in equipment {
        return Err(NOT_FOUND);
      }
      r := Ok(equipment[id]);
    }

    method UpdateEquipmentStatus(id: int, status: string, caller: string) returns (r: Result<int>)
      requires Valid()
      modifies this
      ensures Valid()
      ensures S.Transition(View(), r) == S.UpdateStatus(old(View()), id, status, caller)
      ensures r.Err? ==> unchanged(this)
    {
      ghost var pre := View();
      if id !in equipment {
        return Err(NOT_FOUND);
      }
      var e := equipment[id];
      if e.owner != caller {
        return Err(FORBIDDEN);
      }
      equipment := equipment[id := e.(status := status)];
      r := Ok(id);
      S.UpdateStatusPreservesInv(pre, id, status, caller);
    }

    method UpdateEquipmentLocation(id: int, latitude: string, longitude: string,
                                   description: string, caller: string)
      returns (r: Result<int>)
      requires Valid()
      modifies this
      ensures Valid()
      ensures S.Transition(View(), r)
              == S.UpdateLocation(old(View()), id, latitude, longitude, description, caller)
      ensures r.Err? ==> unchanged(this)
    {
      ghost var pre := View();
      if id !in equipment {
        return Err(NOT_FOUND);
      }
      var e := equipment[id];
      if e.owner != caller {
        return Err(FORBIDDEN);
      }
      equipment := equipment[id := e.(locationLatitude := latitude,
                                      locationLongitude := longitude,
                                      locationDescription := description)];
      r := Ok(id);
      S.UpdateLocationPreservesInv(pre, id, latitude, longitude, description, caller);
    }

    method UpdateEquipmentNetwork(id: int, ipAddress: string, firmwareVersion: string,
                                  caller: string)
      returns (r: Result<int>)
      requires Valid()
      modifies this
      ensures Valid()
      ensures S.Transition(View(), r)
              == S.UpdateNetwork(old(View()), id, ipAddress, firmwareVersion, caller)
      ensures r.Err? ==> unchanged(this)
    {
      ghost var pre := View();
      if id !in equipment {
        return Err(NOT_FOUND);
      }
      var e := equipment[id];
      if e.owner != caller {
        return Err(FORBIDDEN);
      }
      equipment := equipment[id := e.(ipAddress := ipAddress, firmwareVersion := firmwareVersion)];
      r := Ok(id);
      S.UpdateNetworkPreservesInv(pre, id, ipAddress, firmwareVersion, caller);
    }

    method TransferEquipmentOwnership(id: int, newOwner: string, transferReason: string,
                                      caller: string, blockHeight: int)
      returns (r: Result<int>)
      requires Valid()
      modifies this
      ensures Valid()
      ensures S.Transition(View(), r)
              == S.Transfer(old(View()), id, newOwner, transferReason, caller, blockHeight)
      ensures r.Err? ==> unchanged(this)
      ensures r.Ok? ==> (id, old(lastEquipmentId)) !in old(history)
    {
      ghost var pre := View();
      S.NextKeysFresh(pre, id);
      if id !in equipment {
        return Err(NOT_FOUND);
      }
      var e := equipment[id];
      if e.owner != caller {
        return Err(FORBIDDEN);
      }
      var currentOwner := e.owner;
      var changeIndex := lastEquipmentId;
      var entry := TransferRecord(currentOwner, newOwner, blockHeight, transferReason);
      assert S.Authorize(pre, id, caller) == Ok(e);
      assert S.Transfer(pre, id, newOwner, transferReason, caller, blockHeight)
             == S.Transition(S.State(changeIndex + 1, pre.lastMaintenanceRecordId,
                                     pre.equipment[id := e.(owner := newOwner)], pre.maintenance,
                                     pre.history[(id, changeIndex) := entry]),
                             Ok(id));
      history := history[(id, changeIndex) := entry];
      equipment := equipment[id := e.(owner := newOwner)];
      lastEquipmentId := lastEquipmentId + 1;
      r := Ok(id);
      assert View() == S.State(changeIndex + 1, pre.lastMaintenanceRecordId,
                               pre.equipment[id := e.(owner := newOwner)], pre.maintenance,
                               pre.history[(id, changeIndex) := entry]);
      S.TransferPreservesInv(pre, id, newOwner, transferReason, caller, blockHeight);
    }

    method AddMaintenanceRecord(equipmentId: int, maintenanceType: string, description: string,
                                performedDate: int, cost: int, partsReplaced: string,
                                nextMaintenanceDate: int, performedBy: string)
      returns (r: Result<int>)
      requires Valid()
      modifies this
      ensures Valid()
      ensures S.Transition(View(), r)
              == S.AddMaintenance(old(View()), equipmentId, maintenanceType, description,
                                  performedDate, cost, partsReplaced, nextMaintenanceDate,
                                  performedBy)
      ensures r.Err? ==> unchanged(this)
      ensures unchanged(this`lastEquipmentId, this`equipment, this`history)
    {
      ghost var pre := View();
      if equipmentId !in equipment {
        return Err(NOT_FOUND);
      }
      var newId := lastMaintenanceRecordId + 1;
      var record := MaintenanceRecord(equipmentId, maintenanceType, description, performedBy,
                                      performedDate, cost, partsReplaced, nextMaintenanceDate);
      lastMaintenanceRecordId := newId;
      maintenance := maintenance[newId := record];
      r := Ok(newId);
      S.AppendMaintenancePreservesInv(pre, record);
    }

    method GetMaintenanceRecord(id: int) returns (r: Result<MaintenanceRecord>)
      ensures r == S.GetMaintenance(View(), id)
      ensures r.Ok? <==> id in maintenance
      ensures r.Ok? ==> r.value == maintenance[id]
      ensures r.Err? ==> r.code == NOT_FOUND
    {
      if id !in maintenance {
        return Err(NOT_FOUND);
      }
      r := Ok(maintenance[id]);
    }
  }
}
