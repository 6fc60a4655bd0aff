/** passports/views.py: the owner-or-privileged guard, the list and search
    views (scoping, filters, ordering, pagination) and the delete view.
    Views are functions and methods from (store, requester, parameters) to
    results; rendering, messages and redirects are not modelled. */
module Views {
  import opened Common
  import opened Users
  import opened Models
  import opened Store

  /** The row scoping of every view and viewset: a privileged requester sees
      every row, anyone else only the rows they created. */
  predicate Visible(u: User, createdBy: Option<UserId>)
  {
    Privileged(u) || createdBy == Some(u.id)
  }

  /** The guard of `view_passport`, `edit_passport` and `delete_passport`:
      superuser, staff, or the passport's creator. */
  predicate CanAccess(u: User, p: Passport)
  {
    Visible(u, p.createdBy)
  }

  /** `get_object_or_404(EquipmentPassport, pk=pk)` */
  function Find(ps: seq<Passport>, pk: PassportId): (r: Option<Passport>)
    ensures r.Some? <==> HasId(ps, pk)
    ensures r.Some? ==> r.value in ps && r.value.id == pk
  {
    if ps == [] then None
    else if ps[0].id == pk then Some(ps[0])
    else
      var r := Find(ps[1..], pk);
      assert HasId(ps, pk) ==> ps[0].id == pk || HasId(ps[1..], pk) by {
        if HasId(ps, pk) && ps[0].id != pk {
          var i :| 0 <= i < |ps| && ps[i].id == pk;
          assert ps[1..][i - 1].id == pk;
        }
      }
      assert HasId(ps[1..], pk) ==> HasId(ps, pk) by {
        if HasId(ps[1..], pk) {
          var i :| 0 <= i < |ps[1..]| && ps[1..][i].id == pk;
          assert ps[i + 1].id == pk;
        }
      }
      r
  }

  lemma FindUnique(ps: seq<Passport>, pk: PassportId, p: Passport)
    requires UniqueIds(ps) && p in ps && p.id == pk
    ensures Find(ps, pk) == Some(p)
  {
    var q := Find(ps, pk).value;
    var i :| 0 <= i < |ps| && ps[i] == p;
    var j :| 0 <= j < |ps| && ps[j] == q;
    RowOfId(ps, i, j);
  }

  /** The outcome of the guard. */
  datatype Access = NotFound | Forbidden | Permitted(passport: Passport)

  /** The lookup and guard that open `view_passport`, `edit_passport` and
      `delete_passport`: 404 for an unknown id, 403 ("forbidden", distinct
      from not found) for a requester without rights. */
  function Authorize(ps: seq<Passport>, u: User, pk: PassportId): (r: Access)
    ensures r.NotFound? <==> !HasId(ps, pk)
    ensures r.Permitted? ==> r.passport in ps && r.passport.id == pk && CanAccess(u, r.passport)
    ensures UniqueIds(ps) ==>
      (r.Permitted? <==> exists p :: p in ps && p.id == pk && CanAccess(u, p))
    ensures UniqueIds(ps) ==>
      (r.Forbidden? <==> exists p :: p in ps && p.id == pk && !CanAccess(u, p))
  {
    var found := Find(ps, pk);
    if found.None? then NotFound
    else if !CanAccess(u, found.value) then Forbidden
    else
      assert UniqueIds(ps) ==> forall p :: p in ps && p.id == pk ==> p == found.value by {
        forall p | UniqueIds(ps) && p in ps && p.id == pk ensures p == found.value {
          FindUnique(ps, pk, p);
        }
      }
      Permitted(found.value)
  }

  // ---------------------------------------------------------------------
  // Filters shared by the list and search views

  /** `field__icontains=q`: `q` occurs in `field` once both are case
      folded. The database's case folding is the parameter `lower`. */
  predicate IContains(lower: string -> string, field: string, q: string)
  {
    Contains(lower(field), lower(q))
  }

  /** The text search of `passport_list` and the keywords search of
      `passport_search`: name, serial number, inventory number, description
      or the type's name. A passport without a type matches on the other
      fields only. Location is not among them. */
  predicate MatchesText(lower: string -> string, types: map<TypeId, EquipmentType>, q: string, p: Passport)
  {
    || IContains(lower, p.name, q)
    || IContains(lower, p.serialNumber, q)
    || IContains(lower, p.inventoryNumber, q)
    || IContains(lower, p.description, q)
    || (p.equipmentType.Some? && p.equipmentType.value in types
        && IContains(lower, types[p.equipmentType.value].name, q))
  }

  /** The ownership scoping of `passport_list`, `passport_search` and the
      passport viewset's `get_queryset`: every row for a privileged
      requester, else `filter(created_by=user)`. Either way it is the table
      narrowed by `Visible`. */
  function PassportScope(store: seq<Passport>, u: User): (r: seq<Passport>)
    ensures r == Filter(store, (x: Passport) => Visible(u, x.createdBy))
    ensures Privileged(u) ==> r == store
  {
    if Privileged(u) then
      FilterAll(store, (x: Passport) => Visible(u, x.createdBy));
      store
    else
      FilterSame(store, (x: Passport) => x.createdBy == Some(u.id), (x: Passport) => Visible(u, x.createdBy));
      Filter(store, (x: Passport) => x.createdBy == Some(u.id))
  }

  // ---------------------------------------------------------------------
  // Ordering and pagination of passport_list

  datatype SortKey = Newest | Oldest | ByName

  /** The `sort` parameter: `oldest`, `name`, anything else newest first. */
  function SortKeyOf(sort: string): (k: SortKey)
    ensures sort == "oldest" <==> k == Oldest
    ensures sort == "name" <==> k == ByName
    ensures sort != "oldest" && sort != "name" <==> k == Newest
  {
    if sort == "oldest" then Oldest else if sort == "name" then ByName else Newest
  }

  /** `a` may come before `b` in the order of `k`. */
  predicate Before(k: SortKey, a: Passport, b: Passport)
  {
    match k
    case Newest => a.createdAt >= b.createdAt
    case Oldest => a.createdAt <= b.createdAt
    case ByName => LexLe(a.name, b.name)
  }

  lemma BeforeTotal(k: SortKey, a: Passport, b: Passport)
    ensures Before(k, a, b) || Before(k, b, a)
  {
    if k == ByName {
      LexLeTotal(a.name, b.name);
    }
  }

  lemma BeforeTrans(k: SortKey, a: Passport, b: Passport, c: Passport)
    requires Before(k, a, b) && Before(k, b, c)
    ensures Before(k, a, c)
  {
    if k == ByName {
      LexLeTrans(a.name, b.name, c.name);
    }
  }

  predicate SortedBy(k: SortKey, s: seq<Passport>)
  {
    forall i, j :: 0 <= i < j < |s| ==> Before(k, s[i], s[j])
  }

  /** `a` may come before every row of `s`. */
  predicate BeforeAll(k: SortKey, a: Passport, s: seq<Passport>)
  {
    forall y :: y in s ==> Before(k, a, y)
  }

  lemma SortedCons(k: SortKey, a: Passport, s: seq<Passport>)
    requires SortedBy(k, s) && BeforeAll(k, a, s)
    ensures SortedBy(k, [a] + s)
  {
    var r := [a] + s;
    forall i, j | 0 <= i < j < |r| ensures Before(k, r[i], r[j]) {
      assert r[j] == s[j - 1];
      if i > 0 {
        assert r[i] == s[i - 1];
      }
    }
  }

  lemma SortedHead(k: SortKey, s: seq<Passport>)
    requires SortedBy(k, s) && s != []
    ensures SortedBy(k, s[1..]) && BeforeAll(k, s[0], s[1..])
  {
    forall y | y in s[1..] ensures Before(k, s[0], y) {
      var m :| 0 <= m < |s[1..]| && s[1..][m] == y;
      assert s[m + 1] == y;
    }
  }

  lemma BeforeAllSame(k: SortKey, a: Passport, s: seq<Passport>, t: seq<Passport>)
    requires multiset(s) == multiset(t) && BeforeAll(k, a, s)
    ensures BeforeAll(k, a, t)
  {
    forall y | y in t ensures Before(k, a, y) {
      assert y in multiset(t);
    }
  }

  /** Inserts `x` into an ordered sequence. */
  function Insert(k: SortKey, x: Passport, s: seq<Passport>): (r: seq<Passport>)
    requires SortedBy(k, s)
    ensures SortedBy(k, r)
    ensures multiset(r) == multiset(s) + multiset{x}
  {
    if s == [] then [x]
    else
      SortedHead(k, s);
      assert s == [s[0]] + s[1..];
      if Before(k, x, s[0]) then
        assert BeforeAll(k, x, s) by {
          forall y | y in s ensures Before(k, x, y) {
            if y != s[0] { BeforeTrans(k, x, s[0], y); }
          }
        }
        SortedCons(k, x, s);
        [x] + s
      else
        var rest := Insert(k, x, s[1..]);
        BeforeTotal(k, x, s[0]);
        assert BeforeAll(k, s[0], s[1..] + [x]);
        BeforeAllSame(k, s[0], s[1..] + [x], rest);
        SortedCons(k, s[0], rest);
        [s[0]] + rest
  }

  /** The rows of `s` ordered by `k` (`order_by`). */
  function Sort(k: SortKey, s: seq<Passport>): (r: seq<Passport>)
    ensures SortedBy(k, r)
    ensures multiset(r) == multiset(s)
    ensures |r| == |s|
  {
    if s == [] then []
    else
      assert s == [s[0]] + s[1..];
      var r := Insert(k, s[0], Sort(k, s[1..]));
      assert |r| == |multiset(r)|;
      r
  }

  const PageSize: nat := 10

  /** The page with 0-based number `index` of `Paginator(rows, 10)`: the
      rows from `index * 10` on, at most ten of them. */
  function Page(rows: seq<Passport>, index: nat): (r: seq<Passport>)
    ensures |r| <= PageSize
    ensures index * PageSize + |r| <= |rows| || r == []
    ensures forall j :: 0 <= j < |r| ==> r[j] == rows[index * PageSize + j]
    ensures index * PageSize + PageSize <= |rows| ==> |r| == PageSize
    ensures index * PageSize < |rows| ==> r != []
  {
    var lo := if index * PageSize <= |rows| then index * PageSize else |rows|;
    var hi := if lo + PageSize <= |rows| then lo + PageSize else |rows|;
    rows[lo..hi]
  }

  /** Every row is on exactly the page its position says. */
  lemma RowOnPage(rows: seq<Passport>, k: nat)
    requires k < |rows|
    ensures k % PageSize < |Page(rows, k / PageSize)|
    ensures Page(rows, k / PageSize)[k % PageSize] == rows[k]
  {
    var index := k / PageSize;
    assert index * PageSize + k % PageSize == k;
  }

  // ---------------------------------------------------------------------
  // passport_list

  /** The GET parameters of the list view; `None` for an absent one. */
  datatype ListQuery = ListQuery(status: Option<string>, sort: Option<string>, q: Option<string>)

  /** The rows `passport_list` keeps, before ordering. `status` defaults to
      `all` (no filter); any other value, the empty one included, keeps
      exact matches only. An empty `q` imposes nothing. */
  predicate ListMatch(u: User, status: string, q: string, lower: string -> string,
                      types: map<TypeId, EquipmentType>, p: Passport)
  {
    && Visible(u, p.createdBy)
    && (status == "all" || p.status.Code() == status)
    && (q == "" || MatchesText(lower, types, q, p))
  }

  /** `passport_list`: scope, narrow by status and text, order, paginate.
      `ordered` is the whole filtered and ordered set, `page` the page shown. */
  method PassportList(store: seq<Passport>, types: map<TypeId, EquipmentType>, u: User,
                      query: ListQuery, lower: string -> string, pageIndex: nat)
    returns (ordered: seq<Passport>, page: seq<Passport>)
    ensures var status, q := query.status.GetOr("all"), query.q.GetOr("");
      ordered == Sort(SortKeyOf(query.sort.GetOr("-created_at")),
                      Filter(store, (x: Passport) => ListMatch(u, status, q, lower, types, x)))
    ensures SortedBy(SortKeyOf(query.sort.GetOr("-created_at")), ordered)
    ensures page == Page(ordered, pageIndex) && |page| <= PageSize
  {
    var statusFilter := query.status.GetOr("all");
    var sort := query.sort.GetOr("-created_at");
    var searchQuery := query.q.GetOr("");

    var passports := PassportScope(store, u);
    passports := Narrow(store, passports, statusFilter != "all", (x: Passport) => x.status.Code() == statusFilter,
                        (x: Passport) => Visible(u, x.createdBy),
                        (x: Passport) => ListMatch(u, statusFilter, "", lower, types, x));
    passports := Narrow(store, passports, searchQuery != "", (x: Passport) => MatchesText(lower, types, searchQuery, x),
                        (x: Passport) => ListMatch(u, statusFilter, "", lower, types, x),
                        (x: Passport) => ListMatch(u, statusFilter, searchQuery, lower, types, x));
    ordered := Sort(SortKeyOf(sort), passports);
    page := Page(ordered, pageIndex);
  }

  /** A status parameter given but empty filters out every passport, since
      no stored status code is empty. */
  lemma EmptyStatusMatchesNothing(u: User, q: string, lower: string -> string,
                                  types: map<TypeId, EquipmentType>, p: Passport)
    ensures !ListMatch(u, "", q, lower, types, p)
  {
    StatusCodesRoundTrip(p.status);
  }

  // ---------------------------------------------------------------------
  // passport_search

  /** The GET parameters of the search view; an absent parameter is `""`
      (for the date: `None`). */
  datatype SearchQuery = SearchQuery(
    name: string,
    serialNumber: string,
    inventoryNumber: string,
    commissioningDate: Option<Date>,
    location: string,
    keywords: string,
    status: string)

  /** The scoping and the first `n` of the search view's filters, in the
      view's order; an empty parameter imposes nothing, the date must match
      exactly, the status code exactly. */
  predicate SearchUpTo(n: nat, u: User, s: SearchQuery, lower: string -> string,
                       types: map<TypeId, EquipmentType>, p: Passport)
  {
    && Visible(u, p.createdBy)
    && (n >= 1 && s.name != "" ==> IContains(lower, p.name, s.name))
    && (n >= 2 && s.serialNumber != "" ==> IContains(lower, p.serialNumber, s.serialNumber))
    && (n >= 3 && s.inventoryNumber != "" ==> IContains(lower, p.inventoryNumber, s.inventoryNumber))
    && (n >= 4 && s.commissioningDate.Some? ==> p.commissioningDate == s.commissioningDate.value)
    && (n >= 5 && s.location != "" ==> IContains(lower, p.location, s.location))
    && (n >= 6 && s.keywords != "" ==> MatchesText(lower, types, s.keywords, p))
    && (n >= 7 && s.status != "" ==> p.status.Code() == s.status)
  }

  /** All of the search view's filters. */
  predicate SearchMatch(u: User, s: SearchQuery, lower: string -> string,
                        types: map<TypeId, EquipmentType>, p: Passport)
  {
    SearchUpTo(7, u, s, lower, types, p)
  }

  /** The `n`-th filter of the search view: `if <parameter>: rows =
      rows.filter(<lookup>)`. */
  method SearchNarrow(ghost store: seq<Passport>, rows: seq<Passport>, n: nat,
                      u: User, s: SearchQuery, lower: string -> string, types: map<TypeId, EquipmentType>)
    returns (rows': seq<Passport>)
    requires 1 <= n <= 7
    requires rows == Filter(store, (x: Passport) => SearchUpTo(n - 1, u, s, lower, types, x))
    ensures rows' == Filter(store, (x: Passport) => SearchUpTo(n, u, s, lower, types, x))
  {
    ghost var before := (x: Passport) => SearchUpTo(n - 1, u, s, lower, types, x);
    ghost var after := (x: Passport) => SearchUpTo(n, u, s, lower, types, x);
    if n == 1 {
      rows' := Narrow(store, rows, s.name != "", (x: Passport) => IContains(lower, x.name, s.name), before, after);
    } else if n == 2 {
      rows' := Narrow(store, rows, s.serialNumber != "",
                      (x: Passport) => IContains(lower, x.serialNumber, s.serialNumber), before, after);
    } else if n == 3 {
      rows' := Narrow(store, rows, s.inventoryNumber != "",
                      (x: Passport) => IContains(lower, x.inventoryNumber, s.inventoryNumber), before, after);
    } else if n == 4 {
      rows' := Narrow(store, rows, s.commissioningDate.Some?,
                      (x: Passport) => s.commissioningDate.Some? && x.commissioningDate == s.commissioningDate.value,
                      before, after);
    } else if n == 5 {
      rows' := Narrow(store, rows, s.location != "", (x: Passport) => IContains(lower, x.location, s.location),
                      before, after);
    } else if n == 6 {
      rows' := Narrow(store, rows, s.keywords != "", (x: Passport) => MatchesText(lower, types, s.keywords, x),
                      before, after);
    } else {
      rows' := Narrow(store, rows, s.status != "", (x: Passport) => x.status.Code() == s.status, before, after);
    }
  }

  /** `passport_search`: the scoped table narrowed by each non-empty
      parameter in turn; the result keeps table order. */
  method PassportSearch(store: seq<Passport>, types: map<TypeId, EquipmentType>, u: User,
                        s: SearchQuery, lower: string -> string)
    returns (passports: seq<Passport>, count: nat)
    ensures passports == Filter(store, (x: Passport) => SearchMatch(u, s, lower, types, x))
    ensures count == |passports|
  {
    passports := PassportScope(store, u);
    FilterSame(store, (x: Passport) => Visible(u, x.createdBy), (x: Passport) => SearchUpTo(0, u, s, lower, types, x));
    passports := SearchNarrow(store, passports, 1, u, s, lower, types);
    passports := SearchNarrow(store, passports, 2, u, s, lower, types);
    passports := SearchNarrow(store, passports, 3, u, s, lower, types);
    passports := SearchNarrow(store, passports, 4, u, s, lower, types);
    passports := SearchNarrow(store, passports, 5, u, s, lower, types);
    passports := SearchNarrow(store, passports, 6, u, s, lower, types);
    passports := SearchNarrow(store, passports, 7, u, s, lower, types);
    FilterSame(store, (x: Passport) => SearchUpTo(7, u, s, lower, types, x),
               (x: Passport) => SearchMatch(u, s, lower, types, x));
    count := |passports|;
  }

  /** Search with no parameter at all returns exactly the requester's scope. */
  lemma EmptySearchIsScope(store: seq<Passport>, types: map<TypeId, EquipmentType>, u: User,
                           lower: string -> string, p: Passport)
    ensures SearchMatch(u, SearchQuery("", "", "", None, "", "", ""), lower, types, p) <==> Visible(u, p.createdBy)
  {
  }

  // ---------------------------------------------------------------------
  // delete_passport

  /** `delete_passport`: 404 for an unknown id, 403 for a requester without
      rights, 400 for a method other than DELETE (nothing changes in these
      three cases), and on DELETE the passport row and, by cascade, its
      works are removed and 200 is returned. The mirror files are not
      touched by this view. */
  method DeletePassport(db: Database, u: User, pk: PassportId, httpMethod: string)
    returns (status: nat)
    requires db.Valid()
    modifies db
    ensures db.Valid()
    ensures status in {200, 400, 403, 404}
    ensures status == 404 <==> !HasId(old(db.passports), pk)
    ensures status == 403 <==> Authorize(old(db.passports), u, pk).Forbidden?
    ensures status == 200 <==> Authorize(old(db.passports), u, pk).Permitted? && httpMethod == "DELETE"
    ensures status != 200 ==> unchanged(db)
    ensures status == 200 ==>
      && db.passports == Filter(old(db.passports), (p: Passport) => p.id != pk)
      && db.works == Filter(old(db.works), (w: MaintenanceWork) => w.passportId != pk)
      && db.users == old(db.users) && db.types == old(db.types)
  {
    var access := Authorize(db.passports, u, pk);
    if access.NotFound? {
      return 404;
    }
    if access.Forbidden? {
      return 403;
    }
    if httpMethod == "DELETE" {
      db.DeletePassport(pk);
      return 200;
    }
    return 400;
  }
}
