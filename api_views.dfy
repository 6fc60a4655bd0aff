/** passports/api_views.py: the two REST viewsets. Their `get_queryset`
    scoping, `get_permissions`, the `perform_*` hooks that keep the JSON
    mirror in step with the database, and the `file_data` and
    `maintenance_works` actions. An action on an existing object first
    resolves it through the scoped queryset (`get_object`), so an object
    outside the requester's scope is "not found". */
module ApiViews {
  import opened Common
  import opened Users
  import opened Models
  import opened Store
  import opened Utils
  import opened Views

  // ---------------------------------------------------------------------
  // Permissions

  datatype Action = List | Retrieve | Create | Update | PartialUpdate | Destroy | FileData | MaintenanceWorks

  datatype Permission = IsAuthenticated | IsAdminUser

  /** `EquipmentPassportViewSet.get_permissions`: the two branches name the
      same class. `MaintenanceWorkViewSet` declares the same list. */
  function Permissions(a: Action): (r: seq<Permission>)
    ensures IsAuthenticated in r && IsAdminUser !in r
  {
    if a in {Create, Update, PartialUpdate, Destroy} then [IsAuthenticated] else [IsAuthenticated]
  }

  /** What a permission class asks of the requester. */
  predicate Grants(p: Permission, authenticated: bool, isStaff: bool)
  {
    match p
    case IsAuthenticated => authenticated
    case IsAdminUser => authenticated && isStaff
  }

  predicate Permitted(a: Action, authenticated: bool, isStaff: bool)
  {
    forall p :: p in Permissions(a) ==> Grants(p, authenticated, isStaff)
  }

  /** Every action, writes included, is open to every authenticated
      requester and closed to anonymous ones; staff status plays no part. */
  lemma OnlyAuthenticationRequired(a: Action, authenticated: bool, isStaff: bool)
    ensures Permitted(a, authenticated, isStaff) <==> authenticated
    ensures Permitted(a, authenticated, isStaff) == Permitted(Retrieve, authenticated, false)
  {
    assert Permissions(a) == [IsAuthenticated] && Permissions(Retrieve) == [IsAuthenticated];
  }

  // ---------------------------------------------------------------------
  // Querysets and object lookup

  /** `MaintenanceWorkViewSet.get_queryset`. */
  function WorkScope(works: seq<MaintenanceWork>, u: User): (r: seq<MaintenanceWork>)
    ensures r == Filter(works, (x: MaintenanceWork) => Visible(u, x.createdBy))
    ensures Privileged(u) ==> r == works
  {
    if Privileged(u) then
      FilterAll(works, (x: MaintenanceWork) => Visible(u, x.createdBy));
      works
    else
      FilterSame(works, (x: MaintenanceWork) => x.createdBy == Some(u.id),
                 (x: MaintenanceWork) => Visible(u, x.createdBy));
      Filter(works, (x: MaintenanceWork) => x.createdBy == Some(u.id))
  }

  /** Both viewsets scope alike: a passport and a work with the same
      creator are both in the requester's querysets or both out. */
  lemma ScopesAgree(u: User, ps: seq<Passport>, works: seq<MaintenanceWork>, p: Passport, w: MaintenanceWork)
    requires p in ps && w in works && p.createdBy == w.createdBy
    ensures p in PassportScope(ps, u) <==> w in WorkScope(works, u)
  {
  }

  /** `get_object` of the passport viewset: the lookup runs in the scoped
      queryset. */
  function GetPassport(ps: seq<Passport>, u: User, pk: PassportId): (r: Option<Passport>)
    ensures r.Some? ==> r.value in ps && r.value.id == pk && CanAccess(u, r.value)
  {
    Find(PassportScope(ps, u), pk)
  }

  /** Where the HTML views answer 403, the API answers 404: the scoped
      lookup finds exactly the passports the guard lets through. */
  lemma GetPassportMatchesGuard(ps: seq<Passport>, u: User, pk: PassportId)
    requires UniqueIds(ps)
    ensures GetPassport(ps, u, pk).None? <==> !Authorize(ps, u, pk).Permitted?
    ensures Authorize(ps, u, pk).Permitted? ==> GetPassport(ps, u, pk) == Some(Authorize(ps, u, pk).passport)
  {
    var a := Authorize(ps, u, pk);
    var scoped := PassportScope(ps, u);
    if a.Permitted? {
      FilterKeepsUniqueIds(ps, (x: Passport) => Visible(u, x.createdBy));
      FindUnique(scoped, pk, a.passport);
    }
  }

  /** The first work with id `pk`, if any. */
  function FindWork(works: seq<MaintenanceWork>, pk: WorkId): (r: Option<MaintenanceWork>)
    ensures r.Some? <==> exists w :: w in works && w.id == pk
    ensures r.Some? ==> r.value in works && r.value.id == pk
  {
    if works == [] then None
    else if works[0].id == pk then Some(works[0])
    else
      var r := FindWork(works[1..], pk);
      assert forall w :: w in works ==> w == works[0] || w in works[1..];
      r
  }

  /** `get_object` of the work viewset. */
  function GetWork(works: seq<MaintenanceWork>, u: User, pk: WorkId): (r: Option<MaintenanceWork>)
    ensures r.Some? <==> exists w :: w in works && w.id == pk && Visible(u, w.createdBy)
    ensures r.Some? ==> r.value in works && r.value.id == pk && Visible(u, r.value.createdBy)
  {
    FindWork(WorkScope(works, u), pk)
  }

  /** The outcome of an action on one object. */
  datatype Reply<T> = Http404 | Ok(value: T)

  // ---------------------------------------------------------------------
  // file_data and maintenance_works

  /** `file_data`: the mirror's content (`None` without a mirror file) of a
      passport in scope. */
  function FileDataReply(files: map<string, Doc>, ps: seq<Passport>, u: User, pk: PassportId): (r: Reply<Option<Doc>>)
    ensures r.Http404? <==> GetPassport(ps, u, pk).None?
    ensures r.Ok? ==> (r.value.None? <==> MirrorName(pk) !in files)
    ensures r.Ok? ==> r.value == LoadFrom(files, pk)
  {
    match GetPassport(ps, u, pk)
    case None => Http404
    case Some(p) => Ok(LoadFrom(files, p.id))
  }

  /** After a mirror save of a passport in scope, `file_data` returns the
      projection that was saved. */
  lemma FileDataAfterSave(files: map<string, Doc>, ps: seq<Passport>, u: User, pk: PassportId,
                          types: map<TypeId, EquipmentType>, users: map<UserId, User>, works: seq<MaintenanceWork>)
    requires GetPassport(ps, u, pk).Some? && WellFormedId(pk)
    ensures var p := GetPassport(ps, u, pk).value;
      FileDataReply(Saved(files, Project(p, types, users, works)), ps, u, pk)
        == Ok(Some(MirrorDoc(Project(p, types, users, works))))
  {
    var p := GetPassport(ps, u, pk).value;
    LoadAfterSave(files, Project(p, types, users, works), pk);
  }

  /** The query parameters of `maintenance_works`; `""` and `None` for absent ones. */
  datatype WorkQuery = WorkQuery(workType: string, startDate: Option<Date>, endDate: Option<Date>)

  /** The works `maintenance_works` keeps: the passport's own, of the given
      type exactly, dated no earlier than `startDate` and no later than
      `endDate`, each where given. */
  predicate WorkMatch(id: PassportId, q: WorkQuery, x: MaintenanceWork)
  {
    && x.passportId == id
    && (q.workType == "" || x.workType == q.workType)
    && (q.startDate.None? || x.workDate >= q.startDate.value)
    && (q.endDate.None? || x.workDate <= q.endDate.value)
  }

  /** `maintenance_works`: 404 for a passport out of scope, else the
      passport's works narrowed by each given parameter, in table order. */
  method MaintenanceWorksReply(ps: seq<Passport>, works: seq<MaintenanceWork>, u: User, pk: PassportId, q: WorkQuery)
    returns (r: Reply<seq<MaintenanceWork>>)
    ensures r.Http404? <==> GetPassport(ps, u, pk).None?
    ensures r.Ok? ==> r.value == Filter(works, (x: MaintenanceWork) => WorkMatch(pk, q, x))
  {
    var found := GetPassport(ps, u, pk);
    if found.None? {
      return Http404;
    }
    var passport := found.value;
    var rows := WorksOf(works, passport.id);
    FilterSame(works, (x: MaintenanceWork) => x.passportId == passport.id,
               (x: MaintenanceWork) => WorkMatch(pk, WorkQuery("", None, None), x));
    rows := Narrow(works, rows, q.workType != "", (x: MaintenanceWork) => x.workType == q.workType,
                   (x: MaintenanceWork) => WorkMatch(pk, WorkQuery("", None, None), x),
                   (x: MaintenanceWork) => WorkMatch(pk, WorkQuery(q.workType, None, None), x));
    rows := Narrow(works, rows, q.startDate.Some?,
                   (x: MaintenanceWork) => q.startDate.Some? && x.workDate >= q.startDate.value,
                   (x: MaintenanceWork) => WorkMatch(pk, WorkQuery(q.workType, None, None), x),
                   (x: MaintenanceWork) => WorkMatch(pk, WorkQuery(q.workType, q.startDate, None), x));
    rows := Narrow(works, rows, q.endDate.Some?,
                   (x: MaintenanceWork) => q.endDate.Some? && x.workDate <= q.endDate.value,
                   (x: MaintenanceWork) => WorkMatch(pk, WorkQuery(q.workType, q.startDate, None), x),
                   (x: MaintenanceWork) => WorkMatch(pk, q, x));
    return Ok(rows);
  }

  /** A date window whose start is after its end yields no works. */
  lemma EmptyWindow(id: PassportId, q: WorkQuery, works: seq<MaintenanceWork>)
    requires q.startDate.Some? && q.endDate.Some? && q.startDate.value > q.endDate.value
    ensures Filter(works, (x: MaintenanceWork) => WorkMatch(id, q, x)) == []
  {
    FilterNone(works, (x: MaintenanceWork) => WorkMatch(id, q, x));
  }

  // ---------------------------------------------------------------------
  // Passport viewset: create, update, destroy

  /** A new passport has no works yet, so its first mirror lists none. */
  lemma NewPassportNoWorks(users: map<UserId, User>, types: map<TypeId, EquipmentType>,
                           ps: seq<Passport>, works: seq<MaintenanceWork>, id: PassportId)
    requires Consistent(users, types, ps, works) && !HasId(ps, id)
    ensures WorksOf(works, id) == []
  {
    forall w | w in works ensures w.passportId != id {
      assert WorkRefsOk(users, ps, w);
    }
    FilterNone(works, (w: MaintenanceWork) => w.passportId == id);
  }

  /** `create` and `perform_create`: the row is inserted with the requester
      as creator and the mirror is written (when the data directory exists)
      with the new row's projection, whose works list is empty. */
  method CreatePassport(db: Database, fs: FileStore, u: User, id: PassportId, f: PassportFields, now: Timestamp)
    returns (p: Passport, mirrored: bool)
    requires db.Valid() && fs.Valid()
    requires WellFormedId(id) && !HasId(db.passports, id) && u.id in db.users
    requires f.equipmentType.Some? ==> f.equipmentType.value in db.types
    modifies db, fs
    ensures db.Valid() && fs.Valid() && fs.dirExists == old(fs.dirExists)
    ensures p == NewPassport(id, f, u.id, now) && p.createdBy == Some(u.id)
    ensures db.passports == old(db.passports) + [p]
    ensures db.users == old(db.users) && db.types == old(db.types) && db.works == old(db.works)
    ensures mirrored == fs.dirExists
    ensures fs.files == if mirrored then Saved(old(fs.files), Project(p, db.types, db.users, db.works)) else old(fs.files)
    ensures Project(p, db.types, db.users, db.works).maintenanceWorks == []
  {
    p := NewPassport(id, f, u.id, now);
    NewPassportNoWorks(db.users, db.types, db.passports, db.works, id);
    db.InsertPassport(p);
    mirrored := fs.SavePassport(p, db.types, db.users, db.works);
  }

  /** `update` and `perform_update`: 404 out of scope; else the row is
      written back with the submitted fields (id, creator and creation time
      kept, `updated_at` set to `now`) and the mirror is rewritten from it. */
  method UpdatePassport(db: Database, fs: FileStore, u: User, pk: PassportId, f: PassportFields, now: Timestamp)
    returns (r: Reply<Passport>, mirrored: bool)
    requires db.Valid() && fs.Valid()
    requires f.equipmentType.Some? ==> f.equipmentType.value in db.types
    modifies db, fs
    ensures db.Valid() && fs.Valid() && fs.dirExists == old(fs.dirExists)
    ensures r.Http404? <==> GetPassport(old(db.passports), u, pk).None?
    ensures r.Http404? ==> !mirrored && unchanged(db) && unchanged(fs)
    ensures r.Ok? ==>
      && r.value == UpdatedPassport(GetPassport(old(db.passports), u, pk).value, f, now)
      && db.passports == ReplacePassport(old(db.passports), r.value)
      && db.users == old(db.users) && db.types == old(db.types) && db.works == old(db.works)
      && mirrored == fs.dirExists
      && fs.files == if mirrored then Saved(old(fs.files), Project(r.value, db.types, db.users, db.works)) else old(fs.files)
  {
    var found := GetPassport(db.passports, u, pk);
    if found.None? {
      return Http404, false;
    }
    var p := UpdatedPassport(found.value, f, now);
    assert PassportRefsOk(db.users, db.types, found.value);
    db.UpdatePassport(p);
    mirrored := fs.SavePassport(p, db.types, db.users, db.works);
    r := Ok(p);
  }

  /** `destroy` and `perform_destroy`: 404 out of scope; else the mirror
      file is removed, then the row and, by cascade, its works. The history
      file is kept. */
  method DestroyPassport(db: Database, fs: FileStore, u: User, pk: PassportId)
    returns (r: Reply<bool>)
    requires db.Valid() && fs.Valid()
    modifies db, fs
    ensures db.Valid() && fs.Valid() && fs.dirExists == old(fs.dirExists)
    ensures r.Http404? <==> GetPassport(old(db.passports), u, pk).None?
    ensures r.Http404? ==> unchanged(db) && unchanged(fs)
    ensures r.Ok? ==>
      && r.value == (MirrorName(pk) in old(fs.files))
      && fs.files == Deleted(old(fs.files), pk)
      && db.passports == Filter(old(db.passports), (x: Passport) => x.id != pk)
      && db.works == Filter(old(db.works), (w: MaintenanceWork) => w.passportId != pk)
      && db.users == old(db.users) && db.types == old(db.types)
  {
    var found := GetPassport(db.passports, u, pk);
    if found.None? {
      return Http404;
    }
    var removed := fs.DeleteMirror(found.value.id);
    db.DeletePassport(found.value.id);
    r := Ok(removed);
  }

  /** After a destroy neither the row nor its mirror is left, so a later
      `file_data` answers 404, while the history file is what it was. */
  lemma DestroyLeavesNoPassport(files: map<string, Doc>, ps: seq<Passport>, u: User, pk: PassportId)
    requires WellFormedId(pk)
    ensures !HasId(Filter(ps, (x: Passport) => x.id != pk), pk)
    ensures LoadFrom(Deleted(files, pk), pk).None?
    ensures FileDataReply(Deleted(files, pk), Filter(ps, (x: Passport) => x.id != pk), u, pk).Http404?
    ensures HistoryFrom(Deleted(files, pk), pk) == HistoryFrom(files, pk)
  {
    var rest := Filter(ps, (x: Passport) => x.id != pk);
    HasIdIn(rest, pk);
    DeleteEffects(files, pk, pk);
  }

  // ---------------------------------------------------------------------
  // Work viewset: create, update, destroy

  /** The passport row a work belongs to. */
  function Owner(ps: seq<Passport>, w: MaintenanceWork): (r: Option<Passport>)
    ensures r.Some? <==> HasId(ps, w.passportId)
    ensures r.Some? ==> r.value in ps && r.value.id == w.passportId
  {
    Find(ps, w.passportId)
  }

  /** `create` and `perform_create` of the work viewset: the row is inserted
      with the requester as creator, under the fresh key `id` the database
      assigns and stamped with the time `now` (the serializer's read-only
      fields are not taken from the request), then the owning passport's
      mirror is rewritten and so lists the new work. */
  method CreateWork(db: Database, fs: FileStore, u: User, id: WorkId, w: MaintenanceWork, now: Timestamp)
    returns (saved: MaintenanceWork, mirrored: bool)
    requires db.Valid() && fs.Valid()
    requires HasId(db.passports, w.passportId) && u.id in db.users && FreshWorkId(db.works, id)
    modifies db, fs
    ensures db.Valid() && fs.Valid() && fs.dirExists == old(fs.dirExists)
    ensures saved == w.(id := id, createdBy := Some(u.id), createdAt := now)
    ensures db.works == old(db.works) + [saved]
    ensures db.users == old(db.users) && db.types == old(db.types) && db.passports == old(db.passports)
    ensures mirrored == fs.dirExists
    ensures fs.files == if mirrored
      then Saved(old(fs.files), Project(Owner(db.passports, saved).value, db.types, db.users, db.works))
      else old(fs.files)
    ensures saved in WorksOf(db.works, saved.passportId)
  {
    saved := w.(id := id, createdBy := Some(u.id), createdAt := now);
    db.InsertWork(saved);
    var owner := Owner(db.passports, saved);
    mirrored := fs.SavePassport(owner.value, db.types, db.users, db.works);
  }

  /** `update` and `perform_update` of the work viewset: 404 out of scope;
      else the submitted work replaces the stored one (id, creator and
      creation time kept), and the mirror of the passport it now belongs
      to is rewritten. */
  method UpdateWork(db: Database, fs: FileStore, u: User, pk: WorkId, w: MaintenanceWork)
    returns (r: Reply<MaintenanceWork>, mirrored: bool)
    requires db.Valid() && fs.Valid()
    requires HasId(db.passports, w.passportId)
    modifies db, fs
    ensures db.Valid() && fs.Valid() && fs.dirExists == old(fs.dirExists)
    ensures r.Http404? <==> GetWork(old(db.works), u, pk).None?
    ensures r.Http404? ==> !mirrored && unchanged(db) && unchanged(fs)
    ensures r.Ok? ==>
      && var stored := GetWork(old(db.works), u, pk).value;
      && r.value == w.(id := stored.id, createdBy := stored.createdBy, createdAt := stored.createdAt)
      && db.works == ReplaceWork(old(db.works), r.value)
      && db.users == old(db.users) && db.types == old(db.types) && db.passports == old(db.passports)
      && mirrored == fs.dirExists
      && fs.files == if mirrored
        then Saved(old(fs.files), Project(Owner(db.passports, r.value).value, db.types, db.users, db.works))
        else old(fs.files)
  {
    var found := GetWork(db.works, u, pk);
    if found.None? {
      return Http404, false;
    }
    var stored := found.value;
    var updated := w.(id := stored.id, createdBy := stored.createdBy, createdAt := stored.createdAt);
    assert WorkRefsOk(db.users, db.passports, stored);
    db.UpdateWork(updated);
    var owner := Owner(db.passports, updated);
    mirrored := fs.SavePassport(owner.value, db.types, db.users, db.works);
    r := Ok(updated);
  }

  /** `destroy` and `perform_destroy` of the work viewset: 404 out of scope;
      else the row is removed first and the owning passport's mirror is
      then rewritten, so it no longer lists the work. */
  method DestroyWork(db: Database, fs: FileStore, u: User, pk: WorkId)
    returns (r: Reply<MaintenanceWork>, mirrored: bool)
    requires db.Valid() && fs.Valid()
    modifies db, fs
    ensures db.Valid() && fs.Valid() && fs.dirExists == old(fs.dirExists)
    ensures r.Http404? <==> GetWork(old(db.works), u, pk).None?
    ensures r.Http404? ==> !mirrored && unchanged(db) && unchanged(fs)
    ensures r.Ok? ==>
      && r.value == GetWork(old(db.works), u, pk).value
      && db.works == Filter(old(db.works), (x: MaintenanceWork) => x.id != pk)
      && db.users == old(db.users) && db.types == old(db.types) && db.passports == old(db.passports)
      && mirrored == fs.dirExists
      && fs.files == if mirrored
        then Saved(old(fs.files), Project(Owner(db.passports, r.value).value, db.types, db.users, db.works))
        else old(fs.files)
  {
    var found := GetWork(db.works, u, pk);
    if found.None? {
      return Http404, false;
    }
    var work := found.value;
    assert WorkRefsOk(db.users, db.passports, work);
    var owner := Owner(db.passports, work);
    db.DeleteWork(work.id);
    mirrored := fs.SavePassport(owner.value, db.types, db.users, db.works);
    r := Ok(work);
  }

  /** The mirror written after a work's deletion lists no work of that id. */
  lemma DestroyedWorkNotMirrored(p: Passport, types: map<TypeId, EquipmentType>, users: map<UserId, User>,
                                 works: seq<MaintenanceWork>, pk: WorkId)
    ensures var d := Project(p, types, users, Filter(works, (x: MaintenanceWork) => x.id != pk));
      forall j :: 0 <= j < |d.maintenanceWorks| ==> d.maintenanceWorks[j].id != pk
  {
    var rest := Filter(works, (x: MaintenanceWork) => x.id != pk);
    var ws := WorksOf(rest, p.id);
    forall j | 0 <= j < |ws| ensures ws[j].id != pk {
      assert ws[j] in ws;
    }
  }
}
