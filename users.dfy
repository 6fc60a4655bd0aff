/** Accounts as the passport code sees them (Django's `User` and the proxy
    model `UserRole` of users/models.py). */
module Users {

  type UserId = nat

  /** The fields of an account that the passport code reads. */
  datatype User = User(
    id: UserId,
    username: string,
    isStaff: bool,
    isSuperuser: bool,
    groups: set<string>)

  /** Name of the group whose members count as administrators. */
  const AdminGroup: string := "Администраторы"

  /** `UserRole.is_admin`: staff, superuser, or member of the administrators group. */
  predicate IsAdmin(u: User)
  {
    u.isStaff || u.isSuperuser || AdminGroup in u.groups
  }

  /** The test every view and viewset of the passport app uses instead of
      `is_admin`: superuser or staff. Group membership plays no part in it. */
  predicate Privileged(u: User)
  {
    u.isSuperuser || u.isStaff
  }

  /** Each of the three grounds makes a user an administrator, and a user
      with none of them is not one. */
  lemma AdminGrounds(u: User)
    ensures u.isStaff ==> IsAdmin(u)
    ensures u.isSuperuser ==> IsAdmin(u)
    ensures AdminGroup in u.groups ==> IsAdmin(u)
    ensures !u.isStaff && !u.isSuperuser && AdminGroup !in u.groups ==> !IsAdmin(u)
  {
  }

  /** Every privileged user is an administrator, but not conversely: a plain
      member of the administrators group is not privileged. */
  lemma PrivilegedIsAdmin(u: User)
    ensures Privileged(u) ==> IsAdmin(u)
    ensures var m := User(u.id, u.username, false, false, {AdminGroup});
            IsAdmin(m) && !Privileged(m)
  {
  }
}
