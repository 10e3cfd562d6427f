/** A stand-in for the Microsoft Graph SDK's `User`: only the properties the
    modelled code reads or writes. `manager` is the expanded manager, itself a
    user; `memberOf` holds the ids of the groups the user is a member of. */
module GraphUsers {
  import opened Wrappers

  datatype User = User(
    id: Option<string>,
    givenName: Option<string>,
    surname: Option<string>,
    displayName: Option<string>,
    userPrincipalName: Option<string>,
    jobTitle: Option<string>,
    department: Option<string>,
    businessPhones: Option<seq<Option<string>>>,
    mobilePhone: Option<string>,
    accountEnabled: Option<bool>,
    manager: Option<User>,
    aboutMe: Option<string>,
    officeLocation: Option<string>,
    streetAddress: Option<string>,
    postalCode: Option<string>,
    city: Option<string>,
    state: Option<string>,
    country: Option<string>,
    memberOf: seq<Option<string>>)

  /** `new User()`: no property set. */
  const EmptyUser := User(None, None, None, None, None, None, None, None, None, None, None,
                          None, None, None, None, None, None, None, [])

  /** `BusinessPhones?.FirstOrDefault()`. */
  function FirstBusinessPhone(u: User): (r: Option<string>)
    ensures (u.businessPhones.None? || u.businessPhones.value == []) ==> r.None?
    ensures u.businessPhones.Some? && u.businessPhones.value != [] ==> r == u.businessPhones.value[0]
  {
    if u.businessPhones.None? || u.businessPhones.value == [] then None else u.businessPhones.value[0]
  }

  /** The number of users on the manager chain, the user included. */
  function ChainLength(u: User): nat
    decreases u
  {
    match u.manager
    case None => 1
    case Some(m) => 1 + ChainLength(m)
  }
}
