/** The relational store behind passports/models.py: the four tables the
    passport code touches and the referential actions of its foreign keys:
    SET_NULL for types and users as passports/models.py declares, and,
    assumed because the work model class is not defined there, SET_NULL
    for a work's creator and CASCADE from a passport to its works. Tables whose order matters to queries are sequences in table
    order; types and users are keyed by their primary key. */
module Store {
  import opened Common
  import opened Users
  import opened Models

  /** The passport with id `id` is in `ps`. */
  predicate HasId(ps: seq<Passport>, id: PassportId)
  {
    exists i :: 0 <= i < |ps| && ps[i].id == id
  }

  /** No two rows share a primary key. */
  predicate UniqueIds(ps: seq<Passport>)
  {
    forall i, j :: 0 <= i < |ps| && 0 <= j < |ps| && i != j ==> ps[i].id != ps[j].id
  }

  /** No two work entries share a primary key. */
  predicate UniqueWorkIds(works: seq<MaintenanceWork>)
  {
    forall i, j :: 0 <= i < |works| && 0 <= j < |works| && i != j ==> works[i].id != works[j].id
  }

  /** No work entry of `works` has the key `id`. */
  predicate FreshWorkId(works: seq<MaintenanceWork>, id: WorkId)
  {
    forall v :: v in works ==> v.id != id
  }

  /** `EquipmentType.name` is `unique=True`. */
  predicate UniqueTypeNames(types: map<TypeId, EquipmentType>)
  {
    forall a, b :: a in types && b in types && a != b ==> types[a].name != types[b].name
  }

  /** With unique names, a type's display string identifies it. */
  lemma TypeStrIdentifies(types: map<TypeId, EquipmentType>, a: TypeId, b: TypeId)
    requires UniqueTypeNames(types) && a in types && b in types
    ensures TypeStr(types[a]) == TypeStr(types[b]) <==> a == b
  {
  }

  predicate UserRef(users: map<UserId, User>, r: Option<UserId>)
  {
    r.Some? ==> r.value in users
  }

  predicate PassportRefsOk(users: map<UserId, User>, types: map<TypeId, EquipmentType>, p: Passport)
  {
    && WellFormedId(p.id)
    && (p.equipmentType.Some? ==> p.equipmentType.value in types)
    && UserRef(users, p.createdBy)
  }

  predicate WorkRefsOk(users: map<UserId, User>, ps: seq<Passport>, w: MaintenanceWork)
  {
    HasId(ps, w.passportId) && UserRef(users, w.createdBy)
  }

  /** The database constraints: primary keys, the unique type name, and
      every foreign key pointing at an existing row. */
  predicate Consistent(users: map<UserId, User>, types: map<TypeId, EquipmentType>,
                       ps: seq<Passport>, works: seq<MaintenanceWork>)
  {
    && (forall u :: u in users ==> users[u].id == u)
    && (forall t :: t in types ==> types[t].id == t && UserRef(users, types[t].createdBy))
    && UniqueTypeNames(types)
    && UniqueIds(ps)
    && UniqueWorkIds(works)
    && (forall p :: p in ps ==> PassportRefsOk(users, types, p))
    && (forall w :: w in works ==> WorkRefsOk(users, ps, w))
  }

  /** `on_delete=SET_NULL` for `EquipmentPassport.equipment_type`: passports
      of the deleted type lose their type and keep everything else. */
  function ClearType(ps: seq<Passport>, tid: TypeId): (r: seq<Passport>)
    ensures |r| == |ps|
    ensures forall i :: 0 <= i < |r| ==> r[i].equipmentType != Some(tid)
    ensures forall i :: 0 <= i < |r| && ps[i].equipmentType != Some(tid) ==> r[i] == ps[i]
    ensures forall i :: 0 <= i < |r| ==> r[i].(equipmentType := None) == ps[i].(equipmentType := None)
  {
    seq(|ps|, i requires 0 <= i < |ps| =>
      if ps[i].equipmentType == Some(tid) then ps[i].(equipmentType := None) else ps[i])
  }

  /** `on_delete=SET_NULL` for `EquipmentPassport.created_by`. */
  function ClearPassportCreator(ps: seq<Passport>, uid: UserId): (r: seq<Passport>)
    ensures |r| == |ps|
    ensures forall i :: 0 <= i < |r| ==> r[i].createdBy != Some(uid)
    ensures forall i :: 0 <= i < |r| && ps[i].createdBy != Some(uid) ==> r[i] == ps[i]
    ensures forall i :: 0 <= i < |r| ==> r[i].(createdBy := None) == ps[i].(createdBy := None)
  {
    seq(|ps|, i requires 0 <= i < |ps| =>
      if ps[i].createdBy == Some(uid) then ps[i].(createdBy := None) else ps[i])
  }

  /** `on_delete=SET_NULL` for `EquipmentType.created_by`. */
  function ClearTypeCreator(types: map<TypeId, EquipmentType>, uid: UserId): (r: map<TypeId, EquipmentType>)
    ensures r.Keys == types.Keys
    ensures forall t :: t in r ==> r[t].createdBy != Some(uid)
    ensures forall t :: t in r ==> r[t].(createdBy := None) == types[t].(createdBy := None)
    ensures forall t :: t in r && types[t].createdBy != Some(uid) ==> r[t] == types[t]
  {
    map t | t in types :: if types[t].createdBy == Some(uid) then types[t].(createdBy := None) else types[t]
  }

  /** The work's creator reference is nullable as well. */
  function ClearWorkCreator(works: seq<MaintenanceWork>, uid: UserId): (r: seq<MaintenanceWork>)
    ensures |r| == |works|
    ensures forall i :: 0 <= i < |r| ==> r[i].createdBy != Some(uid)
    ensures forall i :: 0 <= i < |r| ==> r[i].(createdBy := None) == works[i].(createdBy := None)
    ensures forall i :: 0 <= i < |r| && works[i].createdBy != Some(uid) ==> r[i] == works[i]
    ensures UniqueWorkIds(works) ==> UniqueWorkIds(r)
  {
    seq(|works|, i requires 0 <= i < |works| =>
      if works[i].createdBy == Some(uid) then works[i].(createdBy := None) else works[i])
  }

  /** The table with the row of `p.id` replaced by `p`. */
  function ReplacePassport(ps: seq<Passport>, p: Passport): (r: seq<Passport>)
    ensures |r| == |ps|
    ensures forall i :: 0 <= i < |r| ==> r[i].id == ps[i].id
    ensures forall i :: 0 <= i < |r| ==> r[i] == if ps[i].id == p.id then p else ps[i]
    ensures UniqueIds(ps) ==> UniqueIds(r)
    ensures HasId(ps, p.id) ==> p in r
  {
    seq(|ps|, i requires 0 <= i < |ps| => if ps[i].id == p.id then p else ps[i])
  }

  /** The work table with the rows of id `w.id` replaced by `w`. */
  function ReplaceWork(works: seq<MaintenanceWork>, w: MaintenanceWork): (r: seq<MaintenanceWork>)
    ensures |r| == |works|
    ensures forall i :: 0 <= i < |r| ==> r[i].id == works[i].id
    ensures forall i :: 0 <= i < |r| ==> r[i] == if works[i].id == w.id then w else works[i]
    ensures UniqueWorkIds(works) ==> UniqueWorkIds(r)
    ensures (exists v :: v in works && v.id == w.id) ==> w in r
  {
    seq(|works|, i requires 0 <= i < |works| => if works[i].id == w.id then w else works[i])
  }

  /** The works of passport `id`, in table order (`passport.maintenance_works.all()`). */
  function WorksOf(works: seq<MaintenanceWork>, id: PassportId): (r: seq<MaintenanceWork>)
    ensures forall w :: w in r <==> w in works && w.passportId == id
  {
    Filter(works, (w: MaintenanceWork) => w.passportId == id)
  }

  lemma HasIdIn(ps: seq<Passport>, id: PassportId)
    ensures HasId(ps, id) <==> exists p :: p in ps && p.id == id
  {
    if HasId(ps, id) {
      var i :| 0 <= i < |ps| && ps[i].id == id;
      assert ps[i] in ps;
    }
  }

  /** The tail of a table with unique keys has unique keys, none equal to the head's. */
  lemma UniqueTail(ps: seq<Passport>)
    requires UniqueIds(ps) && ps != []
    ensures UniqueIds(ps[1..])
    ensures forall q :: q in ps[1..] ==> q.id != ps[0].id
  {
    var rest := ps[1..];
    forall i, j | 0 <= i < |rest| && 0 <= j < |rest| && i != j
      ensures rest[i].id != rest[j].id
    {
      assert rest[i] == ps[i + 1] && rest[j] == ps[j + 1];
    }
    forall q | q in rest ensures q.id != ps[0].id {
      var m :| 0 <= m < |rest| && rest[m] == q;
      assert ps[m + 1] == q;
    }
  }

  /** A row whose key is new may be put in front of a table with unique keys. */
  lemma UniqueCons(p: Passport, ps: seq<Passport>)
    requires UniqueIds(ps) && forall q :: q in ps ==> q.id != p.id
    ensures UniqueIds([p] + ps)
  {
    var r := [p] + ps;
    forall i, j | 0 <= i < |r| && 0 <= j < |r| && i != j
      ensures r[i].id != r[j].id
    {
      if i == 0 {
        assert r[j] == ps[j - 1];
      } else if j == 0 {
        assert r[i] == ps[i - 1];
      } else {
        assert r[i] == ps[i - 1] && r[j] == ps[j - 1];
      }
    }
  }

  /** Removing rows keeps primary keys unique. */
  lemma {:induction false} FilterKeepsUniqueIds(ps: seq<Passport>, f: Passport -> bool)
    requires UniqueIds(ps)
    ensures UniqueIds(Filter(ps, f))
  {
    if ps != [] {
      UniqueTail(ps);
      FilterKeepsUniqueIds(ps[1..], f);
      if f(ps[0]) {
        UniqueCons(ps[0], Filter(ps[1..], f));
      }
    }
  }

  /** The work-table counterparts of `UniqueTail` and `UniqueCons`. */
  lemma UniqueWorkTail(works: seq<MaintenanceWork>)
    requires UniqueWorkIds(works) && works != []
    ensures UniqueWorkIds(works[1..]) && FreshWorkId(works[1..], works[0].id)
  {
    var rest := works[1..];
    forall i, j | 0 <= i < |rest| && 0 <= j < |rest| && i != j
      ensures rest[i].id != rest[j].id
    {
      assert rest[i] == works[i + 1] && rest[j] == works[j + 1];
    }
    forall v | v in rest ensures v.id != works[0].id {
      var m :| 0 <= m < |rest| && rest[m] == v;
      assert works[m + 1] == v;
    }
  }

  lemma UniqueWorkCons(w: MaintenanceWork, works: seq<MaintenanceWork>)
    requires UniqueWorkIds(works) && FreshWorkId(works, w.id)
    ensures UniqueWorkIds([w] + works)
  {
    var r := [w] + works;
    forall i, j | 0 <= i < |r| && 0 <= j < |r| && i != j
      ensures r[i].id != r[j].id
    {
      if i == 0 {
        assert r[j] == works[j - 1];
      } else if j == 0 {
        assert r[i] == works[i - 1];
      } else {
        assert r[i] == works[i - 1] && r[j] == works[j - 1];
      }
    }
  }

  /** A work with a fresh key may be appended to a table with unique keys. */
  lemma UniqueWorkSnoc(works: seq<MaintenanceWork>, w: MaintenanceWork)
    requires UniqueWorkIds(works) && FreshWorkId(works, w.id)
    ensures UniqueWorkIds(works + [w])
  {
    var r := works + [w];
    forall i, j | 0 <= i < |r| && 0 <= j < |r| && i != j
      ensures r[i].id != r[j].id
    {
      if i == |works| {
        assert r[j] == works[j];
      } else if j == |works| {
        assert r[i] == works[i];
      } else {
        assert r[i] == works[i] && r[j] == works[j];
      }
    }
  }

  /** Removing work entries keeps their keys unique. */
  lemma {:induction false} FilterKeepsUniqueWorkIds(works: seq<MaintenanceWork>, f: MaintenanceWork -> bool)
    requires UniqueWorkIds(works)
    ensures UniqueWorkIds(Filter(works, f))
  {
    if works != [] {
      UniqueWorkTail(works);
      FilterKeepsUniqueWorkIds(works[1..], f);
      if f(works[0]) {
        UniqueWorkCons(works[0], Filter(works[1..], f));
      }
    }
  }

  /** The passport with id `id` is the only row of `ps` with that id. */
  lemma RowOfId(ps: seq<Passport>, i: int, j: int)
    requires UniqueIds(ps) && 0 <= i < |ps| && 0 <= j < |ps| && ps[i].id == ps[j].id
    ensures i == j
  {
  }

  /** Deleting a type, with SET_NULL on its passports, keeps the database
      consistent. */
  lemma DeleteTypeConsistent(users: map<UserId, User>, types: map<TypeId, EquipmentType>,
                             ps: seq<Passport>, works: seq<MaintenanceWork>, tid: TypeId)
    requires Consistent(users, types, ps, works)
    ensures Consistent(users, types - {tid}, ClearType(ps, tid), works)
  {
    var ps' := ClearType(ps, tid);
    forall w | w in works ensures HasId(ps', w.passportId) {
      var i :| 0 <= i < |ps| && ps[i].id == w.passportId;
      assert ps'[i].id == w.passportId;
    }
    forall p | p in ps' ensures PassportRefsOk(users, types - {tid}, p) {
      var i :| 0 <= i < |ps'| && ps'[i] == p;
      assert PassportRefsOk(users, types, ps[i]);
    }
  }

  /** Deleting a user, with SET_NULL on every row they created, keeps the
      database consistent. */
  lemma DeleteUserConsistent(users: map<UserId, User>, types: map<TypeId, EquipmentType>,
                             ps: seq<Passport>, works: seq<MaintenanceWork>, uid: UserId)
    requires Consistent(users, types, ps, works)
    ensures Consistent(users - {uid}, ClearTypeCreator(types, uid), ClearPassportCreator(ps, uid),
                       ClearWorkCreator(works, uid))
  {
    var us := users - {uid};
    var ps' := ClearPassportCreator(ps, uid);
    var ts := ClearTypeCreator(types, uid);
    var ws := ClearWorkCreator(works, uid);
    forall a, b | a in ts && b in ts && a != b ensures ts[a].name != ts[b].name {
      assert ts[a].name == types[a].name && ts[b].name == types[b].name;
    }
    forall p | p in ps' ensures PassportRefsOk(us, ts, p) {
      var i :| 0 <= i < |ps'| && ps'[i] == p;
      assert PassportRefsOk(users, types, ps[i]);
    }
    forall w | w in ws ensures WorkRefsOk(us, ps', w) {
      var i :| 0 <= i < |ws| && ws[i] == w;
      assert WorkRefsOk(users, ps, works[i]);
      var j :| 0 <= j < |ps| && ps[j].id == works[i].passportId;
      assert ps'[j].id == w.passportId;
    }
  }

  /** Deleting a passport together with its works (the cascade) keeps the
      database consistent. */
  lemma DeletePassportConsistent(users: map<UserId, User>, types: map<TypeId, EquipmentType>,
                                 ps: seq<Passport>, works: seq<MaintenanceWork>, id: PassportId)
    requires Consistent(users, types, ps, works)
    ensures Consistent(users, types, Filter(ps, (p: Passport) => p.id != id),
                       Filter(works, (w: MaintenanceWork) => w.passportId != id))
  {
    var ps' := Filter(ps, (p: Passport) => p.id != id);
    var ws := Filter(works, (w: MaintenanceWork) => w.passportId != id);
    FilterKeepsUniqueIds(ps, (p: Passport) => p.id != id);
    FilterKeepsUniqueWorkIds(works, (w: MaintenanceWork) => w.passportId != id);
    forall w | w in ws ensures HasId(ps', w.passportId) {
      var i :| 0 <= i < |ps| && ps[i].id == w.passportId;
      assert ps[i] in ps';
      HasIdIn(ps', w.passportId);
    }
  }

  /** The relational database: users, types, passports and works. */
  class Database {
    var users: map<UserId, User>
    var types: map<TypeId, EquipmentType>
    var passports: seq<Passport>
    var works: seq<MaintenanceWork>

    ghost predicate Valid()
      reads this
    {
      Consistent(users, types, passports, works)
    }

    constructor (users: map<UserId, User>)
      requires forall u :: u in users ==> users[u].id == u
      ensures Valid()
      ensures this.users == users && types == map[] && passports == [] && works == []
    {
      this.users := users;
      types := map[];
      passports := [];
      works := [];
    }

    /** Inserts an equipment type. The insert fails, changing nothing, when
        the primary key or the name is already taken (the unique constraint). */
    method InsertType(t: EquipmentType) returns (ok: bool)
      requires Valid() && UserRef(users, t.createdBy)
      modifies this
      ensures Valid()
      ensures ok <==> t.id !in old(types) && forall k :: k in old(types) ==> old(types)[k].name != t.name
      ensures types == if ok then old(types)[t.id := t] else old(types)
      ensures users == old(users) && passports == old(passports) && works == old(works)
    {
      ok := t.id !in types && forall k :: k in types ==> types[k].name != t.name;
      if ok {
        types := types[t.id := t];
      }
    }

    /** Deletes an equipment type; its passports survive with a null type. */
    method DeleteType(tid: TypeId)
      requires Valid() && tid in types
      modifies this
      ensures Valid()
      ensures types == old(types) - {tid}
      ensures passports == ClearType(old(passports), tid)
      ensures users == old(users) && works == old(works)
    {
      DeleteTypeConsistent(users, types, passports, works, tid);
      types := types - {tid};
      passports := ClearType(passports, tid);
    }

    /** Deletes a user. Their passports, types and works survive with a
        null creator. */
    method DeleteUser(uid: UserId)
      requires Valid() && uid in users
      modifies this
      ensures Valid()
      ensures users == old(users) - {uid}
      ensures passports == ClearPassportCreator(old(passports), uid)
      ensures types == ClearTypeCreator(old(types), uid)
      ensures works == ClearWorkCreator(old(works), uid)
    {
      DeleteUserConsistent(users, types, passports, works, uid);
      users, passports, types, works :=
        users - {uid}, ClearPassportCreator(passports, uid), ClearTypeCreator(types, uid), ClearWorkCreator(works, uid);
    }

    /** Inserts a passport row with a fresh primary key. */
    method InsertPassport(p: Passport)
      requires Valid() && PassportRefsOk(users, types, p) && !HasId(passports, p.id)
      modifies this
      ensures Valid()
      ensures passports == old(passports) + [p]
      ensures users == old(users) && types == old(types) && works == old(works)
    {
      var ps := passports + [p];
      forall w | w in works ensures HasId(ps, w.passportId) {
        var i :| 0 <= i < |passports| && passports[i].id == w.passportId;
        assert ps[i].id == w.passportId;
      }
      passports := ps;
    }

    /** Writes back the row of `p.id` (an UPDATE by primary key). */
    method UpdatePassport(p: Passport)
      requires Valid() && PassportRefsOk(users, types, p)
      modifies this
      ensures Valid()
      ensures passports == ReplacePassport(old(passports), p)
      ensures users == old(users) && types == old(types) && works == old(works)
    {
      var ps := ReplacePassport(passports, p);
      forall w | w in works ensures HasId(ps, w.passportId) {
        var i :| 0 <= i < |passports| && passports[i].id == w.passportId;
        assert ps[i].id == w.passportId;
      }
      forall q | q in ps ensures PassportRefsOk(users, types, q) {
        var i :| 0 <= i < |ps| && ps[i] == q;
        assert q == p || q == passports[i];
      }
      passports := ps;
    }

    /** `passport.delete()`: removes the row of `id` and, by CASCADE, its works. */
    method DeletePassport(id: PassportId)
      requires Valid()
      modifies this
      ensures Valid()
      ensures passports == Filter(old(passports), (p: Passport) => p.id != id)
      ensures works == Filter(old(works), (w: MaintenanceWork) => w.passportId != id)
      ensures users == old(users) && types == old(types)
    {
      DeletePassportConsistent(users, types, passports, works, id);
      passports, works :=
        Filter(passports, (p: Passport) => p.id != id), Filter(works, (w: MaintenanceWork) => w.passportId != id);
    }

    /** Inserts a work entry of an existing passport under a fresh key. */
    method InsertWork(w: MaintenanceWork)
      requires Valid() && WorkRefsOk(users, passports, w) && FreshWorkId(works, w.id)
      modifies this
      ensures Valid()
      ensures works == old(works) + [w]
      ensures users == old(users) && types == old(types) && passports == old(passports)
    {
      UniqueWorkSnoc(works, w);
      works := works + [w];
    }

    /** Writes back the work entry with id `w.id`. */
    method UpdateWork(w: MaintenanceWork)
      requires Valid() && WorkRefsOk(users, passports, w)
      modifies this
      ensures Valid()
      ensures works == ReplaceWork(old(works), w)
      ensures users == old(users) && types == old(types) && passports == old(passports)
    {
      var ws := ReplaceWork(works, w);
      forall v | v in ws ensures WorkRefsOk(users, passports, v) {
        var i :| 0 <= i < |ws| && ws[i] == v;
        assert v == w || v == works[i];
      }
      works := ws;
    }

    /** `work.delete()`. */
    method DeleteWork(id: WorkId)
      requires Valid()
      modifies this
      ensures Valid()
      ensures works == Filter(old(works), (w: MaintenanceWork) => w.id != id)
      ensures users == old(users) && types == old(types) && passports == old(passports)
    {
      FilterKeepsUniqueWorkIds(works, (w: MaintenanceWork) => w.id != id);
      works := Filter(works, (w: MaintenanceWork) => w.id != id);
    }
  }

  /** SET_NULL on a type deletion keeps every passport row and its id. */
  lemma ClearTypeKeepsRows(ps: seq<Passport>, tid: TypeId, id: PassportId)
    ensures HasId(ClearType(ps, tid), id) <==> HasId(ps, id)
  {
    var r := ClearType(ps, tid);
    if HasId(ps, id) {
      var i :| 0 <= i < |ps| && ps[i].id == id;
      assert r[i].id == id;
    }
    if HasId(r, id) {
      var i :| 0 <= i < |r| && r[i].id == id;
      assert ps[i].id == id;
    }
  }
}
