/** Records kept by the equipment registry and its result vocabulary. */
module RegistryTypes {

  /** Error code for an equipment or maintenance identifier that is not registered. */
  const NOT_FOUND: int := 404
  /** Error code for a caller that is not the equipment's current owner. */
  const FORBIDDEN: int := 403
  /** The status every newly registered piece of equipment starts in. */
  const ACTIVE: string := "active"

  /** Every registry operation answers `{ value }` or `{ error }`. */
  datatype Result<T> = Ok(value: T) | Err(code: int)

  /** The attributes a caller supplies when registering equipment, in registration order. */
  datatype Registration = Registration(
    equipmentType: string,
    model: string,
    serialNumber: string,
    manufacturer: string,
    purchaseDate: int,
    installationDate: int,
    locationLatitude: string,
    locationLongitude: string,
    locationDescription: string,
    ipAddress: string,
    macAddress: string,
    firmwareVersion: string,
    powerSource: string,
    coverageRadiusMeters: int)

  /** A registered device, as stored in the equipment registry. */
  datatype Equipment = Equipment(
    owner: string,
    equipmentType: string,
    model: string,
    serialNumber: string,
    manufacturer: string,
    purchaseDate: int,
    installationDate: int,
    locationLatitude: string,
    locationLongitude: string,
    locationDescription: string,
    status: string,
    ipAddress: string,
    macAddress: string,
    firmwareVersion: string,
    powerSource: string,
    coverageRadiusMeters: int,
    registrationDate: int)

  /** One entry of the ownership history. */
  datatype TransferRecord = TransferRecord(
    previousOwner: string,
    newOwner: string,
    transferDate: int,
    transferReason: string)

  /** One maintenance event reported against a piece of equipment. */
  datatype MaintenanceRecord = MaintenanceRecord(
    equipmentId: int,
    maintenanceType: string,
    description: string,
    performedBy: string,
    performedDate: int,
    cost: int,
    partsReplaced: string,
    nextMaintenanceDate: int)

  /** The registration attributes an equipment record still carries. */
  function Supplied(e: Equipment): Registration {
    Registration(
      e.equipmentType, e.model, e.serialNumber, e.manufacturer,
      e.purchaseDate, e.installationDate,
      e.locationLatitude, e.locationLongitude, e.locationDescription,
      e.ipAddress, e.macAddress, e.firmwareVersion,
      e.powerSource, e.coverageRadiusMeters)
  }

  /** The record registration stores: the caller's attributes, status "active" and the current height. */
  function NewEquipment(reg: Registration, owner: string, height: int): (e: Equipment)
    ensures e.owner == owner && e.status == ACTIVE && e.registrationDate == height
    ensures Supplied(e) == reg
  {
    Equipment(
      owner, reg.equipmentType, reg.model, reg.serialNumber, reg.manufacturer,
      reg.purchaseDate, reg.installationDate,
      reg.locationLatitude, reg.locationLongitude, reg.locationDescription,
      ACTIVE, reg.ipAddress, reg.macAddress, reg.firmwareVersion,
      reg.powerSource, reg.coverageRadiusMeters, height)
  }

  /** The fields no operation ever changes once the equipment is registered. */
  predicate SameIdentity(e: Equipment, e': Equipment) {
    && e.equipmentType == e'.equipmentType
    && e.model == e'.model
    && e.serialNumber == e'.serialNumber
    && e.manufacturer == e'.manufacturer
    && e.purchaseDate == e'.purchaseDate
    && e.installationDate == e'.installationDate
    && e.macAddress == e'.macAddress
    && e.powerSource == e'.powerSource
    && e.coverageRadiusMeters == e'.coverageRadiusMeters
    && e.registrationDate == e'.registrationDate
  }
}
