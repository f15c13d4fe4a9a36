/** The user-listing controller: one read-only handler that lists every user
    to a caller whose role is exactly the lower-case string "admin". */
module UserListing {
  import opened Common

  /** A row of the user table (Usuario). `other` stands for the columns of
      the row that the listing does not select. */
  datatype User = User(id: int, name: string, email: string, alias: string, photo: Option<string>, other: seq<string>)

  /** The projection the listing returns: `{UsuarioID, Nombre, Correo, Alias, Foto}`. */
  datatype UserView = UserView(id: int, name: string, email: string, alias: string, photo: Option<string>)

  /** The role this handler compares with: lower case, unlike the news guard. */
  const ListingRole: string := "admin"

  /** The guard: a missing or empty role, or any role other than exactly
      "admin", is refused. */
  function MayList(role: Option<string>): (ok: bool)
    ensures ok <==> role == Some(ListingRole)
  {
    !(role.None? || role.value == "" || role.value != ListingRole)
  }

  function ProjectUser(u: User): UserView {
    UserView(u.id, u.name, u.email, u.alias, u.photo)
  }

  /** `findMany` with the five-column `select`, position by position. */
  function ProjectAll(users: seq<User>): (r: seq<UserView>)
    ensures |r| == |users|
    ensures forall i :: 0 <= i < |users| ==>
              r[i] == UserView(users[i].id, users[i].name, users[i].email, users[i].alias, users[i].photo)
  {
    if users == [] then [] else [ProjectUser(users[0])] + ProjectAll(users[1..])
  }

  /** GET `/`: 403 unless the role is "admin"; otherwise every user, projected. */
  function ListUsers(role: Option<string>, users: seq<User>): (r: Outcome<seq<UserView>>)
    ensures r.Refused? <==> role != Some(ListingRole)
    ensures r.Refused? ==> r.status == Forbidden
    ensures r.Done? ==> r.status == Ok && |r.value| == |users|
                        && forall i :: 0 <= i < |users| ==> r.value[i] == ProjectUser(users[i])
  {
    if !MayList(role) then Refused(Forbidden) else Done(Ok, ProjectAll(users))
  }

  /** The refusal does not depend on the user table: the role is checked
      before any user data is read. */
  lemma RefusalIgnoresUsers(role: Option<string>, users: seq<User>, others: seq<User>)
    requires role != Some(ListingRole)
    ensures ListUsers(role, users) == ListUsers(role, others) == Refused(Forbidden)
  {
  }

  /** The middleware's stub role "ADMIN" differs from "admin" in case, so the
      stub identity is always refused. */
  lemma StubRoleIsRefused(users: seq<User>)
    ensures ListUsers(Some(StubRole), users) == Refused(Forbidden)
  {
    assert StubRole[0] != ListingRole[0];
  }
}
