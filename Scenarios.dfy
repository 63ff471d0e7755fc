/**
 * The registry's test scenarios, each starting from the empty registry, stated
 * for arbitrary attributes, principals and block heights.
 */
module RegistryScenarios {
  import opened RegistryTypes
  import opened RegistrySpec

  /** The registry after `owner` registered one piece of equipment. */
  function OneRegistered(reg: Registration, owner: string, height: int): State {
    Register(Init(), reg, owner, height).post
  }

  lemma RegisterFirst(reg: Registration, owner: string, height: int)
    ensures var t := Register(Init(), reg, owner, height);
      && t.result == Ok(1)
      && |t.post.equipment| == 1
      && GetEquipment(t.post, 1) == Ok(NewEquipment(reg, owner, height))
      && GetEquipment(t.post, 1).value.status == ACTIVE
      && GetEquipment(t.post, 1).value.equipmentType == reg.equipmentType
      && GetEquipment(t.post, 1).value.powerSource == reg.powerSource
      && GetEquipment(t.post, 1).value.coverageRadiusMeters == reg.coverageRadiusMeters
  {
  }

  lemma RegisterSecond(reg1: Registration, reg2: Registration, owner: string, height: int)
    ensures var s := OneRegistered(reg1, owner, height);
      var t := Register(s, reg2, owner, height);
      && t.result == Ok(2)
      && |t.post.equipment| == 2
      && GetEquipment(t.post, 2).Ok?
      && GetEquipment(t.post, 2).value.equipmentType == reg2.equipmentType
      && GetEquipment(t.post, 2).value.model == reg2.model
  {
    var s := OneRegistered(reg1, owner, height);
    assert s.equipment.Keys == {1};
    var t := Register(s, reg2, owner, height);
    assert t.post.equipment.Keys == {1, 2};
    assert |t.post.equipment| == |t.post.equipment.Keys|;
  }

  lemma OwnerUpdatesStatus(reg: Registration, owner: string, height: int)
    ensures var t := UpdateStatus(OneRegistered(reg, owner, height), 1, "maintenance", owner);
      && t.result == Ok(1)
      && GetEquipment(t.post, 1).Ok?
      && GetEquipment(t.post, 1).value.status == "maintenance"
  {
  }

  lemma OwnerUpdatesLocation(reg: Registration, owner: string, height: int,
                             latitude: string, longitude: string, description: string)
    ensures var t := UpdateLocation(OneRegistered(reg, owner, height), 1,
                                    latitude, longitude, description, owner);
      && t.result == Ok(1)
      && GetEquipment(t.post, 1).Ok?
      && GetEquipment(t.post, 1).value.locationLatitude == latitude
      && GetEquipment(t.post, 1).value.locationLongitude == longitude
      && GetEquipment(t.post, 1).value.locationDescription == description
  {
  }

  lemma OwnerUpdatesNetwork(reg: Registration, owner: string, height: int,
                            ipAddress: string, firmwareVersion: string)
    ensures var t := UpdateNetwork(OneRegistered(reg, owner, height), 1,
                                   ipAddress, firmwareVersion, owner);
      && t.result == Ok(1)
      && GetEquipment(t.post, 1).Ok?
      && GetEquipment(t.post, 1).value.ipAddress == ipAddress
      && GetEquipment(t.post, 1).value.firmwareVersion == firmwareVersion
  {
  }

  lemma NonOwnerCannotUpdateStatus(reg: Registration, owner: string, other: string, height: int)
    requires other != owner
    ensures var s := OneRegistered(reg, owner, height);
      var t := UpdateStatus(s, 1, "maintenance", other);
      && t.result == Err(FORBIDDEN)
      && t.post == s
      && GetEquipment(t.post, 1).Ok?
      && GetEquipment(t.post, 1).value.status == ACTIVE
  {
  }

  lemma OwnerTransfers(reg: Registration, owner: string, newOwner: string, reason: string,
                       height: int)
    ensures var t := Transfer(OneRegistered(reg, owner, height), 1, newOwner, reason, owner, height);
      && t.result == Ok(1)
      && GetEquipment(t.post, 1).Ok?
      && GetEquipment(t.post, 1).value.owner == newOwner
      && (1, 1) in t.post.history
      && t.post.history[(1, 1)] == TransferRecord(owner, newOwner, height, reason)
  {
  }

  lemma NonOwnerCannotTransfer(reg: Registration, owner: string, other: string, reason: string,
                               height: int)
    requires other != owner
    ensures var s := OneRegistered(reg, owner, height);
      var t := Transfer(s, 1, other, reason, other, height);
      && t.result == Err(FORBIDDEN)
      && t.post == s
      && GetEquipment(t.post, 1).Ok?
      && GetEquipment(t.post, 1).value.owner == owner
  {
  }

  lemma AddFirstMaintenance(reg: Registration, owner: string, height: int, maintenanceType: string,
                            description: string, performedDate: int, cost: int,
                            partsReplaced: string, nextMaintenanceDate: int)
    ensures var t := AddMaintenance(OneRegistered(reg, owner, height), 1, maintenanceType,
                                    description, performedDate, cost, partsReplaced,
                                    nextMaintenanceDate, owner);
      && t.result == Ok(1)
      && |t.post.maintenance| == 1
      && GetMaintenance(t.post, 1).Ok?
      && GetMaintenance(t.post, 1).value.equipmentId == 1
      && GetMaintenance(t.post, 1).value.maintenanceType == maintenanceType
      && GetMaintenance(t.post, 1).value.partsReplaced == partsReplaced
      && GetMaintenance(t.post, 1).value.performedBy == owner
  {
  }

  lemma AddSecondMaintenance(reg: Registration, owner: string, height: int,
                             type1: string, description1: string, date1: int, cost1: int,
                             parts1: string, next1: int,
                             type2: string, description2: string, date2: int, cost2: int,
                             parts2: string, next2: int)
    ensures var s := AddMaintenance(OneRegistered(reg, owner, height), 1, type1, description1,
                                    date1, cost1, parts1, next1, owner).post;
      var t := AddMaintenance(s, 1, type2, description2, date2, cost2, parts2, next2, owner);
      && t.result == Ok(2)
      && |t.post.maintenance| == 2
      && GetMaintenance(t.post, 2).Ok?
      && GetMaintenance(t.post, 2).value.maintenanceType == type2
      && GetMaintenance(t.post, 2).value.cost == cost2
  {
    var s := AddMaintenance(OneRegistered(reg, owner, height), 1, type1, description1,
                            date1, cost1, parts1, next1, owner).post;
    assert s.maintenance.Keys == {1};
    var t := AddMaintenance(s, 1, type2, description2, date2, cost2, parts2, next2, owner);
    assert t.post.maintenance.Keys == {1, 2};
    assert |t.post.maintenance| == |t.post.maintenance.Keys|;
  }

  lemma MaintenanceForUnknownEquipment(equipmentId: int, maintenanceType: string,
                                       description: string, performedDate: int, cost: int,
                                       partsReplaced: string, nextMaintenanceDate: int,
                                       reporter: string)
    ensures var t := AddMaintenance(Init(), equipmentId, maintenanceType, description,
                                    performedDate, cost, partsReplaced, nextMaintenanceDate,
                                    reporter);
      && t.result == Err(NOT_FOUND)
      && |t.post.maintenance| == 0
  {
  }

  /**
   * P hands the equipment to Q; P can then no longer move it; Q hands it to R.
   * The two transfers are recorded under different change indices.
   */
  lemma TransferChain(reg: Registration, p: string, q: string, r: string, height: int)
    requires p != q
    ensures var s1 := Transfer(OneRegistered(reg, p, height), 1, q, "donated", p, height);
      var s2 := Transfer(s1.post, 1, r, "resale", p, height);
      var s3 := Transfer(s2.post, 1, r, "resale", q, height);
      && s1.result == Ok(1)
      && s2.result == Err(FORBIDDEN) && s2.post == s1.post
      && s3.result == Ok(1)
      && GetEquipment(s3.post, 1).Ok? && GetEquipment(s3.post, 1).value.owner == r
      && s3.post.history.Keys == {(1, 1), (1, 2)}
      && s3.post.history[(1, 1)] == TransferRecord(p, q, height, "donated")
      && s3.post.history[(1, 2)] == TransferRecord(q, r, height, "resale")
  {
  }

  /**
   * A transfer advances the equipment counter, so the next registration skips
   * an identifier: after register, transfer, register the identifiers are 1 and 3.
   */
  lemma TransferSkipsNextId(reg1: Registration, reg2: Registration, owner: string,
                            newOwner: string, reason: string, height: int)
    ensures var s1 := Transfer(OneRegistered(reg1, owner, height), 1, newOwner, reason, owner,
                               height);
      var t := Register(s1.post, reg2, owner, height);
      && s1.result == Ok(1)
      && t.result == Ok(3)
      && t.post.equipment.Keys == {1, 3}
      && GetEquipment(t.post, 2) == Err(NOT_FOUND)
  {
  }
}
