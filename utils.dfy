/** passports/utils.py: the JSON mirror of a passport, the per-passport
    history log, and the field diff. The passport directory is a map from
    file name to the document it holds; JSON encoding is not modelled, a
    document is its decoded value. */
module Utils {
  import opened Common
  import opened Users
  import opened Models
  import opened Store

  /** One entry of a mirror's `maintenance_works` list. */
  datatype WorkData = WorkData(
    id: string,
    workType: string,
    workDate: Date,
    responsiblePerson: string,
    description: string,
    cost: Option<int>,
    materialsUsed: string,
    createdBy: Option<string>,
    createdAt: Timestamp,
    customFields: map<string, string>)

  /** The mirror document `save_passport_to_file` writes. */
  datatype PassportData = PassportData(
    id: string,
    name: string,
    equipmentType: Option<string>,
    serialNumber: string,
    inventoryNumber: string,
    productionDate: Option<Date>,
    commissioningDate: Option<Date>,
    description: string,
    location: string,
    responsiblePerson: string,
    status: string,
    lastMaintenance: Option<Date>,
    createdBy: Option<string>,
    createdAt: Timestamp,
    updatedAt: Timestamp,
    customFields: map<string, string>,
    maintenanceWorks: seq<WorkData>)

  /** One entry of a history document. `changed_fields` is what the caller
      passes; here the list of field names `get_changed_fields` returns. */
  datatype HistoryEntry = HistoryEntry(timestamp: Timestamp, user: string, changedFields: seq<string>)

  /** What a `.json` file in the passport directory holds, once decoded:
      a mirror, a history list, or any other JSON value. */
  datatype Doc = MirrorDoc(data: PassportData) | HistoryDoc(entries: seq<HistoryEntry>) | OtherDoc

  /** `<id>.json` */
  function MirrorName(id: PassportId): string
  {
    id + ".json"
  }

  /** `<id>_history.json` */
  function HistoryName(id: PassportId): string
  {
    id + "_history.json"
  }

  lemma SuffixCancel(a: string, b: string, suffix: string)
    requires a + suffix == b + suffix
    ensures a == b
  {
    assert a == (a + suffix)[..|a|];
    assert b == (b + suffix)[..|b|];
  }

  /** Each id has its own mirror and history file, and no mirror of a
      well-formed id is anybody's history file. */
  lemma FileNamesDistinct(a: PassportId, b: PassportId)
    ensures MirrorName(a) == MirrorName(b) ==> a == b
    ensures HistoryName(a) == HistoryName(b) ==> a == b
    ensures WellFormedId(a) ==> MirrorName(a) != HistoryName(b)
  {
    if MirrorName(a) == MirrorName(b) { SuffixCancel(a, b, ".json"); }
    if HistoryName(a) == HistoryName(b) { SuffixCancel(a, b, "_history.json"); }
    if WellFormedId(a) && MirrorName(a) == HistoryName(b) {
      assert a + ".json" == (b + "_history") + ".json";
      SuffixCancel(a, b + "_history", ".json");
    }
  }

  // ---------------------------------------------------------------------
  // The mirror projection

  function UserName(users: map<UserId, User>, r: Option<UserId>): (n: Option<string>)
    ensures n.None? <==> (r.None? || r.value !in users)
  {
    if r.Some? && r.value in users then Some(users[r.value].username) else None
  }

  function TypeName(types: map<TypeId, EquipmentType>, r: Option<TypeId>): (n: Option<string>)
    ensures n.None? <==> (r.None? || r.value !in types)
  {
    if r.Some? && r.value in types then Some(types[r.value].name) else None
  }

  /** `float(work.cost) if work.cost else None`: a missing or zero cost is
      written as null. The float conversion itself is not modelled. */
  function CostField(cost: Option<int>): (r: Option<int>)
    ensures r.None? <==> (cost.None? || cost.value == 0)
    ensures r.Some? ==> r == cost
  {
    if cost.Some? && cost.value != 0 then cost else None
  }

  /** The `work_data` dictionary of one work. */
  function ProjectWork(w: MaintenanceWork, users: map<UserId, User>): (d: WorkData)
    ensures d.id == w.id && d.workDate == w.workDate && d.workType == w.workType
    ensures d.responsiblePerson == w.responsiblePerson && d.description == w.description
    ensures d.materialsUsed == w.materialsUsed && d.createdAt == w.createdAt
    ensures d.customFields == w.customFields
    ensures d.cost.None? <==> (w.cost.None? || w.cost.value == 0)
    ensures d.cost.Some? ==> d.cost == w.cost
    ensures d.createdBy.None? <==> (w.createdBy.None? || w.createdBy.value !in users)
    ensures d.createdBy.Some? ==> d.createdBy == Some(users[w.createdBy.value].username)
  {
    WorkData(w.id, w.workType, w.workDate, w.responsiblePerson, w.description,
             CostField(w.cost), w.materialsUsed, UserName(users, w.createdBy),
             w.createdAt, w.customFields)
  }

  /** The scalar part of the mirror, with an empty `maintenance_works`. */
  function ProjectScalars(p: Passport, types: map<TypeId, EquipmentType>, users: map<UserId, User>): PassportData
  {
    PassportData(p.id, p.name, TypeName(types, p.equipmentType), p.serialNumber,
                 p.inventoryNumber, Some(p.productionDate), Some(p.commissioningDate),
                 p.description, p.location, p.responsiblePerson, p.status.Code(),
                 p.lastMaintenance, UserName(users, p.createdBy), p.createdAt,
                 p.updatedAt, p.customFields, [])
  }

  /** The document `save_passport_to_file` writes for `p`, given the
      tables it reads: the type and creator names and the passport's works. */
  function Project(p: Passport, types: map<TypeId, EquipmentType>, users: map<UserId, User>,
                   works: seq<MaintenanceWork>): PassportData
  {
    var ws := WorksOf(works, p.id);
    ProjectScalars(p, types, users).(maintenanceWorks :=
      seq(|ws|, i requires 0 <= i < |ws| => ProjectWork(ws[i], users)))
  }

  /** What the mirror says about a consistent row: every column of the
      row as stored except `photo`, with the type and the creator written
      as their names and null exactly where the reference is null, and one
      entry per work of the passport, in table order, each carrying that
      work's columns, its cost null exactly where it is missing or zero,
      and its creator's name. */
  lemma ProjectionContents(p: Passport, types: map<TypeId, EquipmentType>, users: map<UserId, User>,
                           works: seq<MaintenanceWork>)
    requires PassportRefsOk(users, types, p)
    ensures var d := Project(p, types, users, works);
      && d.id == p.id && d.name == p.name && d.serialNumber == p.serialNumber
      && d.inventoryNumber == p.inventoryNumber && d.location == p.location
      && d.description == p.description && d.responsiblePerson == p.responsiblePerson
      && d.status == p.status.Code() && d.customFields == p.customFields
      && d.createdAt == p.createdAt && d.updatedAt == p.updatedAt
      && (d.equipmentType.None? <==> p.equipmentType.None?)
      && (p.equipmentType.Some? ==> d.equipmentType == Some(types[p.equipmentType.value].name))
      && d.lastMaintenance == p.lastMaintenance
      && (d.createdBy.None? <==> p.createdBy.None?)
      && (p.createdBy.Some? ==> d.createdBy == Some(users[p.createdBy.value].username))
      && d.productionDate == Some(p.productionDate)
      && d.commissioningDate == Some(p.commissioningDate)
      && |d.maintenanceWorks| == |WorksOf(works, p.id)|
      && (forall i :: 0 <= i < |d.maintenanceWorks| ==>
            d.maintenanceWorks[i] == ProjectWork(WorksOf(works, p.id)[i], users))
  {
  }

  lemma StatusCodeInjective(s: Status, t: Status)
    requires s.Code() == t.Code()
    ensures s == t
  {
    StatusCodesRoundTrip(s);
    StatusCodesRoundTrip(t);
  }

  /** The mirror determines the row: two consistent passports with the same
      mirror agree on every column the mirror records, the type included
      (type names are unique). Only `photo` is not in the mirror. */
  lemma ProjectionDeterminesRow(p: Passport, q: Passport, users: map<UserId, User>,
                                types: map<TypeId, EquipmentType>, works: seq<MaintenanceWork>)
    requires forall u :: u in users ==> users[u].id == u
    requires UniqueTypeNames(types)
    requires PassportRefsOk(users, types, p) && PassportRefsOk(users, types, q)
    requires Project(p, types, users, works) == Project(q, types, users, works)
    ensures p.(photo := None, createdBy := None) == q.(photo := None, createdBy := None)
    ensures p.createdBy.None? <==> q.createdBy.None?
  {
    var d, e := Project(p, types, users, works), Project(q, types, users, works);
    assert d.status == e.status;
    StatusCodeInjective(p.status, q.status);
    assert d.equipmentType == e.equipmentType;
    if p.equipmentType.Some? && q.equipmentType.Some? {
      assert types[p.equipmentType.value].name == types[q.equipmentType.value].name;
    }
    assert d.productionDate == e.productionDate && d.commissioningDate == e.commissioningDate;
  }

  // ---------------------------------------------------------------------
  // Reading the passport directory

  /** `load_passport_from_file`: nothing for a missing file, otherwise what
      the file holds. */
  function LoadFrom(files: map<string, Doc>, id: PassportId): Option<Doc>
  {
    if MirrorName(id) in files then Some(files[MirrorName(id)]) else None
  }

  /** `get_passport_history`: `[]` for a missing file, the list a history
      file holds, and `None` for a file that holds anything else (the code
      returns that value and its caller's `append` then fails). */
  function HistoryFrom(files: map<string, Doc>, id: PassportId): Option<seq<HistoryEntry>>
  {
    if HistoryName(id) !in files then Some([])
    else match files[HistoryName(id)]
      case HistoryDoc(es) => Some(es)
      case _ => None
  }

  /** A passport without a history file has an empty history, and a load of
      a missing mirror gives nothing. */
  lemma MissingFiles(files: map<string, Doc>, id: PassportId)
    ensures HistoryName(id) !in files ==> HistoryFrom(files, id) == Some([])
    ensures MirrorName(id) !in files ==> LoadFrom(files, id).None?
  {
  }

  /** The directory after the mirror of `data` is written. */
  function Saved(files: map<string, Doc>, data: PassportData): map<string, Doc>
  {
    files[MirrorName(data.id) := MirrorDoc(data)]
  }

  /** A load after a save gives back the projection written; the save
      touches no other passport's mirror and no well-formed id's history. */
  lemma LoadAfterSave(files: map<string, Doc>, data: PassportData, other: PassportId)
    requires WellFormedId(data.id)
    ensures LoadFrom(Saved(files, data), data.id) == Some(MirrorDoc(data))
    ensures other != data.id ==> LoadFrom(Saved(files, data), other) == LoadFrom(files, other)
    ensures HistoryFrom(Saved(files, data), other) == HistoryFrom(files, other)
  {
    FileNamesDistinct(data.id, other);
    FileNamesDistinct(other, data.id);
  }

  /** The directory after `delete_passport_file(id)`. */
  function Deleted(files: map<string, Doc>, id: PassportId): map<string, Doc>
  {
    files - {MirrorName(id)}
  }

  /** After a delete the mirror is gone, so a second delete finds nothing;
      the history and every other passport's mirror are untouched. */
  lemma DeleteEffects(files: map<string, Doc>, id: PassportId, other: PassportId)
    requires WellFormedId(id)
    ensures MirrorName(id) !in Deleted(files, id) && LoadFrom(Deleted(files, id), id).None?
    ensures Deleted(Deleted(files, id), id) == Deleted(files, id)
    ensures HistoryFrom(Deleted(files, id), id) == HistoryFrom(files, id)
    ensures other != id ==> LoadFrom(Deleted(files, id), other) == LoadFrom(files, other)
  {
    FileNamesDistinct(id, id);
    FileNamesDistinct(id, other);
  }

  /** The directory after `history` has been replaced by `history + [entry]`. */
  function Appended(files: map<string, Doc>, id: PassportId, history: seq<HistoryEntry>,
                    entry: HistoryEntry): map<string, Doc>
  {
    files[HistoryName(id) := HistoryDoc(history + [entry])]
  }

  /** The history is append-only: one entry longer, the earlier entries
      unchanged and in order, the new one last; no mirror of a well-formed
      id and no other passport's history changes. */
  lemma HistoryAppendOnly(files: map<string, Doc>, id: PassportId, entry: HistoryEntry,
                          other: PassportId)
    requires HistoryFrom(files, id).Some?
    ensures var h := HistoryFrom(files, id).value;
            var h' := HistoryFrom(Appended(files, id, h, entry), id);
      && h'.Some? && |h'.value| == |h| + 1
      && h'.value[..|h|] == h && h'.value[|h|] == entry
    ensures var h := HistoryFrom(files, id).value;
      && (other != id ==> HistoryFrom(Appended(files, id, h, entry), other) == HistoryFrom(files, other))
      && (WellFormedId(other) ==> LoadFrom(Appended(files, id, h, entry), other) == LoadFrom(files, other))
  {
    var h := HistoryFrom(files, id).value;
    assert (h + [entry])[..|h|] == h;
    FileNamesDistinct(id, other);
    FileNamesDistinct(other, id);
  }

  /** The passport directory. `dirExists` is whether `PASSPORTS_DIR` exists;
      a directory that does not exist holds no files. */
  class FileStore {
    var dirExists: bool
    var files: map<string, Doc>

    ghost predicate Valid()
      reads this
    {
      !dirExists ==> files == map[]
    }

    constructor (dirExists: bool, files: map<string, Doc>)
      requires !dirExists ==> files == map[]
      ensures Valid() && this.dirExists == dirExists && this.files == files
    {
      this.dirExists := dirExists;
      this.files := files;
    }

    /** `save_passport_to_file`: builds the projection, appending one work
        entry per work of the passport, and writes it to `<id>.json`; the
        write fails, changing nothing, when the directory is missing. */
    method SavePassport(p: Passport, types: map<TypeId, EquipmentType>, users: map<UserId, User>,
                        works: seq<MaintenanceWork>) returns (ok: bool)
      requires Valid()
      modifies this
      ensures Valid() && dirExists == old(dirExists)
      ensures ok == dirExists
      ensures files == if ok then Saved(old(files), Project(p, types, users, works)) else old(files)
    {
      var ws := WorksOf(works, p.id);
      var data := ProjectScalars(p, types, users);
      var i := 0;
      while i < |ws|
        invariant 0 <= i <= |ws|
        invariant data.(maintenanceWorks := []) == ProjectScalars(p, types, users)
        invariant |data.maintenanceWorks| == i
        invariant forall j :: 0 <= j < i ==> data.maintenanceWorks[j] == ProjectWork(ws[j], users)
      {
        data := data.(maintenanceWorks := data.maintenanceWorks + [ProjectWork(ws[i], users)]);
        i := i + 1;
      }
      assert data == Project(p, types, users, works);
      ok := dirExists;
      if ok {
        files := Saved(files, data);
      }
    }

    /** `delete_passport_file`: removes `<id>.json` and reports whether it existed. */
    method DeleteMirror(id: PassportId) returns (removed: bool)
      requires Valid()
      modifies this
      ensures Valid() && dirExists == old(dirExists)
      ensures removed == (MirrorName(id) in old(files))
      ensures files == Deleted(old(files), id)
      ensures !removed ==> files == old(files)
    {
      removed := MirrorName(id) in files;
      files := Deleted(files, id);
    }

    /** `add_passport_history_entry`: reads the history, appends
        `{timestamp: now, user: username, changed_fields}` and rewrites the
        file. It fails, changing nothing, when the file holds something other
        than a list or the directory is missing. */
    method AddHistoryEntry(id: PassportId, user: User, changedFields: seq<string>, now: Timestamp)
      returns (ok: bool)
      requires Valid()
      modifies this
      ensures Valid() && dirExists == old(dirExists)
      ensures ok == (dirExists && HistoryFrom(old(files), id).Some?)
      ensures files == if ok
        then Appended(old(files), id, HistoryFrom(old(files), id).value, HistoryEntry(now, user.username, changedFields))
        else old(files)
    {
      var history := HistoryFrom(files, id);
      ok := dirExists && history.Some?;
      if ok {
        files := Appended(files, id, history.value, HistoryEntry(now, user.username, changedFields));
      }
    }
  }

  // ---------------------------------------------------------------------
  // get_changed_fields

  /** A value of a form's `initial` or cleaned data; `Null` is Python's `None`. */
  datatype Value = Null | Text(text: string) | Number(number: int) | Day(day: Date) | Flag(flag: bool)

  /** `new_data.get(key)` */
  function Get(m: map<string, Value>, key: string): Value
  {
    if key in m then m[key] else Null
  }

  /** The keys of `initial` (its items in dict order) whose value differs
      from `Get(newData, key)`, in that order. */
  function ChangedKeys(initial: seq<(string, Value)>, newData: map<string, Value>): seq<string>
  {
    if initial == [] then []
    else
      var n := |initial| - 1;
      var rest := ChangedKeys(initial[..n], newData);
      if initial[n].1 != Get(newData, initial[n].0) then rest + [initial[n].0] else rest
  }

  predicate ChangedAt(initial: seq<(string, Value)>, newData: map<string, Value>, i: int)
  {
    0 <= i < |initial| && initial[i].1 != Get(newData, initial[i].0)
  }

  /** A key is reported exactly when some item of `initial` under that key
      differs from the new data. */
  lemma {:induction false} ChangedKeysMembers(initial: seq<(string, Value)>, newData: map<string, Value>, k: string)
    ensures k in ChangedKeys(initial, newData) <==>
            exists i :: ChangedAt(initial, newData, i) && initial[i].0 == k
    decreases |initial|
  {
    if initial != [] {
      var n := |initial| - 1;
      var pre := initial[..n];
      ChangedKeysMembers(pre, newData, k);
      if exists i :: ChangedAt(pre, newData, i) && pre[i].0 == k {
        var i :| ChangedAt(pre, newData, i) && pre[i].0 == k;
        assert ChangedAt(initial, newData, i) && initial[i].0 == k;
      }
      if exists i :: ChangedAt(initial, newData, i) && initial[i].0 == k {
        var i :| ChangedAt(initial, newData, i) && initial[i].0 == k;
        if i < n {
          assert ChangedAt(pre, newData, i) && pre[i].0 == k;
        }
      }
    }
  }

  /** Dict keys are unique. */
  predicate DistinctKeys(initial: seq<(string, Value)>)
  {
    forall i, j :: 0 <= i < |initial| && 0 <= j < |initial| && i != j ==> initial[i].0 != initial[j].0
  }

  /** The properties of the diff: only keys of `initial` appear, so a key
      present only in the new data never does; a key missing from the new
      data is reported exactly when its initial value is not `None`; when
      every value is unchanged the result is empty. */
  lemma ChangedKeysProperties(initial: seq<(string, Value)>, newData: map<string, Value>, k: string, i: int)
    requires DistinctKeys(initial)
    ensures k in ChangedKeys(initial, newData) ==> exists j :: 0 <= j < |initial| && initial[j].0 == k
    ensures 0 <= i < |initial| && initial[i].0 == k && k !in newData ==>
              (k in ChangedKeys(initial, newData) <==> initial[i].1 != Null)
    ensures (forall j :: 0 <= j < |initial| ==> initial[j].1 == Get(newData, initial[j].0)) ==>
              ChangedKeys(initial, newData) == []
  {
    ChangedKeysMembers(initial, newData, k);
    if forall j :: 0 <= j < |initial| ==> initial[j].1 == Get(newData, initial[j].0) {
      var r := ChangedKeys(initial, newData);
      if r != [] {
        ChangedKeysMembers(initial, newData, r[0]);
        assert false;
      }
    }
  }

  /** `get_changed_fields(initial_data, new_data)`. */
  method GetChangedFields(initial: seq<(string, Value)>, newData: map<string, Value>)
    returns (changed: seq<string>)
    ensures changed == ChangedKeys(initial, newData)
    ensures forall k :: k in changed <==> exists i :: ChangedAt(initial, newData, i) && initial[i].0 == k
  {
    changed := [];
    var i := 0;
    while i < |initial|
      invariant 0 <= i <= |initial|
      invariant changed == ChangedKeys(initial[..i], newData)
    {
      assert initial[..i + 1][..i] == initial[..i];
      if initial[i].1 != Get(newData, initial[i].0) {
        changed := changed + [initial[i].0];
      }
      i := i + 1;
    }
    assert initial[..i] == initial;
    forall k ensures k in changed <==> exists i :: ChangedAt(initial, newData, i) && initial[i].0 == k {
      ChangedKeysMembers(initial, newData, k);
    }
  }
}
