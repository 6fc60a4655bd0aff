/** The records of passports/models.py: equipment types, equipment
    passports and their maintenance works, as values. Dates and timestamps
    are abstract ordinals (days, ticks); their ISO rendering is not modelled. */
module Models {
  import opened Common
  import opened Users

  type Date = int
  type Timestamp = int
  type TypeId = nat

  /** A passport id as the code turns it into text (`str(passport.id)`). */
  type PassportId = string
  type WorkId = string

  /** An id in the shape a UUID or an integer primary key prints as: it
      holds neither a dot nor an underscore. File names are built from it. */
  predicate WellFormedId(id: PassportId)
  {
    '.' !in id && '_' !in id
  }

  /** `EquipmentPassport.STATUS_CHOICES`. */
  datatype Status = InOperation | Repair | Reserve | Decommissioned
  {
    /** The value stored in the `status` column. */
    function Code(): string
    {
      match this
      case InOperation => "in_operation"
      case Repair => "repair"
      case Reserve => "reserve"
      case Decommissioned => "decommissioned"
    }
  }

  /** The stored codes, in declaration order. */
  const StatusCodes: seq<string> := ["in_operation", "repair", "reserve", "decommissioned"]

  /** The column default. */
  const DefaultStatus: Status := InOperation

  /** The choice whose stored code is `code`, if any. */
  function ParseStatus(code: string): (r: Option<Status>)
    ensures r.Some? <==> code in StatusCodes
    ensures r.Some? ==> r.value.Code() == code
  {
    if code == "in_operation" then Some(InOperation)
    else if code == "repair" then Some(Repair)
    else if code == "reserve" then Some(Reserve)
    else if code == "decommissioned" then Some(Decommissioned)
    else None
  }

  /** Every status is one of the four choices, its code parses back to it,
      and the default is `in_operation`. */
  lemma StatusCodesRoundTrip(s: Status)
    ensures s.Code() in StatusCodes
    ensures ParseStatus(s.Code()) == Some(s)
    ensures s.Code() != ""
    ensures DefaultStatus.Code() == "in_operation"
  {
  }

  /** The status a new row gets when the submitted data may omit it. */
  function StatusOrDefault(submitted: Option<Status>): (r: Status)
    ensures submitted.None? ==> r == InOperation
    ensures submitted.Some? ==> r == submitted.value
  {
    submitted.GetOr(DefaultStatus)
  }

  /** `EquipmentType`: `name` is unique (a database constraint kept by
      `Store.Database.Valid`); `created_by` may be null. */
  datatype EquipmentType = EquipmentType(
    id: TypeId,
    name: string,
    description: string,
    createdBy: Option<UserId>,
    createdAt: Timestamp)

  /** `EquipmentType.__str__`. */
  function TypeStr(t: EquipmentType): string
  {
    t.name
  }

  /** `EquipmentPassport`. The nullable columns (`equipment_type`,
      `last_maintenance`, `photo`, `created_by`) are options; the others are
      always present. `custom_fields` is the key/value map the mirror code reads. */
  datatype Passport = Passport(
    id: PassportId,
    equipmentType: Option<TypeId>,
    name: string,
    serialNumber: string,
    inventoryNumber: string,
    productionDate: Date,
    commissioningDate: Date,
    description: string,
    location: string,
    responsiblePerson: string,
    status: Status,
    lastMaintenance: Option<Date>,
    createdBy: Option<UserId>,
    createdAt: Timestamp,
    updatedAt: Timestamp,
    photo: Option<string>,
    customFields: map<string, string>)

  /** `EquipmentPassport.__str__`: "name (serial_number)". */
  function PassportStr(p: Passport): (r: string)
    ensures |r| == |p.name| + |p.serialNumber| + 3
    ensures r[..|p.name|] == p.name
    ensures r[|p.name|..|p.name| + 2] == " ("
    ensures r[|p.name| + 2..|r| - 1] == p.serialNumber
    ensures r[|r| - 1] == ')'
  {
    p.name + " (" + p.serialNumber + ")"
  }

  /** Two passports of the same name display differently exactly when their
      serial numbers differ. */
  lemma PassportStrSeparatesSerials(p: Passport, q: Passport)
    requires p.name == q.name
    ensures PassportStr(p) == PassportStr(q) <==> p.serialNumber == q.serialNumber
  {
    if PassportStr(p) == PassportStr(q) {
      var n := |p.name|;
      assert p.serialNumber == PassportStr(p)[n + 2..|PassportStr(p)| - 1];
    }
  }

  /** A maintenance work entry. Its model class is not defined in
      passports/models.py; the fields are the ones the mirror code reads. `cost` is a
      decimal, kept as an integer amount of the smallest currency unit. */
  datatype MaintenanceWork = MaintenanceWork(
    id: WorkId,
    passportId: PassportId,
    workType: string,
    workDate: Date,
    responsiblePerson: string,
    description: string,
    cost: Option<int>,
    materialsUsed: string,
    createdBy: Option<UserId>,
    createdAt: Timestamp,
    customFields: map<string, string>)

  /** The writable fields of a passport, as a form or serializer submits
      them. `status` is optional: on create an omitted status takes the
      default, on update it leaves the stored one. */
  datatype PassportFields = PassportFields(
    equipmentType: Option<TypeId>,
    name: string,
    serialNumber: string,
    inventoryNumber: string,
    productionDate: Date,
    commissioningDate: Date,
    description: string,
    location: string,
    responsiblePerson: string,
    status: Option<Status>,
    lastMaintenance: Option<Date>,
    photo: Option<string>,
    customFields: map<string, string>)

  /** The row `serializer.save(created_by=user)` inserts: `created_at` and
      `updated_at` are set to `now`, the status defaults to `in_operation`. */
  function NewPassport(id: PassportId, f: PassportFields, creator: UserId, now: Timestamp): (p: Passport)
    ensures p.id == id && p.createdBy == Some(creator)
    ensures p.createdAt == now && p.updatedAt == now
    ensures p.status == StatusOrDefault(f.status)
    ensures f.status.None? ==> p.status == InOperation
    ensures Submitted(p) == f.(status := Some(p.status))
  {
    Passport(id, f.equipmentType, f.name, f.serialNumber, f.inventoryNumber,
             f.productionDate, f.commissioningDate, f.description, f.location,
             f.responsiblePerson, StatusOrDefault(f.status), f.lastMaintenance,
             Some(creator), now, now, f.photo, f.customFields)
  }

  /** The writable fields of a stored passport. */
  function Submitted(p: Passport): PassportFields
  {
    PassportFields(p.equipmentType, p.name, p.serialNumber, p.inventoryNumber,
                   p.productionDate, p.commissioningDate, p.description, p.location,
                   p.responsiblePerson, Some(p.status), p.lastMaintenance, p.photo,
                   p.customFields)
  }

  /** The row `serializer.save()` leaves after an update: the read-only
      fields (`id`, `created_by`, `created_at`) are kept, `updated_at`
      becomes `now`, an omitted status keeps the stored one. */
  function UpdatedPassport(p: Passport, f: PassportFields, now: Timestamp): (r: Passport)
    ensures r.id == p.id && r.createdBy == p.createdBy && r.createdAt == p.createdAt
    ensures r.updatedAt == now
    ensures r.status == f.status.GetOr(p.status)
    ensures Submitted(r) == f.(status := Some(r.status))
  {
    Passport(p.id, f.equipmentType, f.name, f.serialNumber, f.inventoryNumber,
             f.productionDate, f.commissioningDate, f.description, f.location,
             f.responsiblePerson, f.status.GetOr(p.status), f.lastMaintenance,
             p.createdBy, p.createdAt, now, f.photo, f.customFields)
  }

  /** Resubmitting a passport's own fields changes only `updated_at`. */
  lemma ResubmitChangesOnlyUpdatedAt(p: Passport, now: Timestamp)
    ensures UpdatedPassport(p, Submitted(p), now) == p.(updatedAt := now)
  {
  }
}
