/** `ADUser`: the directory user as the API returns it, with its manager
    chain, built from a Graph `User`. */
module ADUsers {
  import opened Wrappers
  import opened Strings
  import GraphUsers

  datatype ADUser = ADUser(
    id: Option<string>,
    givenName: Option<string>,
    surname: Option<string>,
    displayName: Option<string>,
    email: Option<string>,
    jobTitle: Option<string>,
    department: Option<string>,
    businessPhone: Option<string>,
    mobilePhone: Option<string>,
    userPrincipalName: Option<string>,
    accountEnabled: Option<bool>,
    managerId: Option<string>,
    manager: Option<ADUser>)

  /** `Manager?.Id`. */
  function ManagerIdOf(a: ADUser): Option<string> {
    match a.manager
    case None => None
    case Some(m) => m.id
  }

  /** The number of users on the chain that starts at `a`. */
  function ChainLength(a: ADUser): nat
    decreases a
  {
    match a.manager
    case None => 1
    case Some(m) => 1 + ChainLength(m)
  }

  /** Every user on the chain names its manager's id as `managerId` and carries
      its principal name, lower-cased, as both `email` and `userPrincipalName`. */
  ghost predicate Normalised(a: ADUser)
    decreases a
  {
    && a.managerId == ManagerIdOf(a)
    && a.email == a.userPrincipalName
    && (a.userPrincipalName.Some? ==> ToLower(a.userPrincipalName.value) == a.userPrincipalName.value)
    && (a.manager.Some? ==> Normalised(a.manager.value))
  }

  /** Converts the user and, recursively, its whole manager chain. */
  function FromUser(u: GraphUsers.User): (r: ADUser)
    ensures r.id == u.id && r.displayName == u.displayName
    ensures r.email == LowerOrNull(u.userPrincipalName) && r.userPrincipalName == r.email
    ensures u.manager.None? ==> r.managerId.None? && r.manager.None?
    ensures u.manager.Some? ==> r.managerId == u.manager.value.id && r.manager.Some?
    ensures r.businessPhone == GraphUsers.FirstBusinessPhone(u)
    ensures ChainLength(r) == GraphUsers.ChainLength(u)
    ensures Normalised(r)
    decreases u
  {
    var manager := match u.manager
                   case None => None
                   case Some(m) => Some(FromUser(m));
    var upn := LowerOrNull(u.userPrincipalName);
    ADUser(u.id, u.givenName, u.surname, u.displayName, upn, u.jobTitle, u.department,
           GraphUsers.FirstBusinessPhone(u), u.mobilePhone, upn, u.accountEnabled,
           match u.manager case None => None case Some(m) => m.id,
           manager)
  }

  /** `MemberwiseClone` with `ManagerId` and `Email` recomputed; `None` is the
      NullReferenceException that `UserPrincipalName.ToLower()` throws when the
      principal name is null. */
  function Clone(a: ADUser): (r: Option<ADUser>)
    ensures r.None? <==> a.userPrincipalName.None?
    ensures r.Some? ==> r.value.managerId == ManagerIdOf(a) && r.value.email == Some(ToLower(a.userPrincipalName.value))
    ensures r.Some? ==> r.value.(managerId := a.managerId, email := a.email) == a
  {
    match a.userPrincipalName
    case None => None
    case Some(upn) => Some(a.(managerId := ManagerIdOf(a), email := Some(ToLower(upn))))
  }

  /** Cloning a user that `FromUser` built changes nothing: its manager id is
      already its manager's id and its e-mail already lower case. */
  lemma CloneOfNormalised(a: ADUser)
    requires Normalised(a) && a.userPrincipalName.Some?
    ensures Clone(a) == Some(a)
  {
  }

  lemma CloneOfFromUser(u: GraphUsers.User)
    requires u.userPrincipalName.Some?
    ensures Clone(FromUser(u)) == Some(FromUser(u))
  {
    CloneOfNormalised(FromUser(u));
  }
}
