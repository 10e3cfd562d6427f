/** The directory as `MicrosoftGraphService` reads and changes it. The
    directory state is, for every user (keyed by lower-case principal name), the
    principal name of the user's manager or null; Graph resolves principal names
    case-insensitively, so every lookup lower-cases its argument. The responses
    of read-only Graph calls are parameters. */
module MicrosoftGraph {
  import opened Wrappers
  import opened Strings
  import opened Collections
  import GraphUsers
  import opened ADUsers

  type Managers = map<string, Option<string>>

  /** The message of the exception Graph raises for an id it does not know. */
  const NotFound := "Resource does not exist"
  const AlreadyClaimed := "User has already been claimed"
  const UserIdRequired := "User ID is required"
  const NullReference := "Object reference not set to an instance of an object."

  /** The user `id` names, when the directory knows it. */
  predicate Known(m: Managers, id: Option<string>) {
    id.Some? && ToLower(id.value) in m
  }

  /** `AssignUserManager(userId, managerId, force)`. Unforced, it is the
      two-argument implementation: a user who already has a manager is refused.
      Forced, the claim check is skipped (the forced overload is not part of
      this model; this is its assumed behaviour). Either way the PUT fails for
      an unknown user or manager. */
  function AssignResult(m: Managers, userId: Option<string>, managerId: Option<string>, force: bool): (r: (Managers, Outcome))
    ensures r.1 != Ok ==> r.0 == m
    ensures r.1 == Ok <==> Known(m, userId) && Known(m, managerId) && (force || m[ToLower(userId.value)].None?)
    ensures r.1 == Ok ==> r.0 == m[ToLower(userId.value) := Some(ToLower(managerId.value))]
    ensures !force && Known(m, userId) && m[ToLower(userId.value)].Some? ==> r.1 == Failed(AlreadyClaimed)
  {
    if !Known(m, userId) then (m, Failed(NotFound))
    else if !force && m[ToLower(userId.value)].Some? then (m, Failed(AlreadyClaimed))
    else if !Known(m, managerId) then (m, Failed(NotFound))
    else (m[ToLower(userId.value) := Some(ToLower(managerId.value))], Ok)
  }

  /** One iteration of `AssignUsersManager`: a claimed user is skipped. */
  function ClaimResult(m: Managers, userId: Option<string>, managerId: Option<string>): (Managers, Outcome) {
    if !Known(m, userId) then (m, Failed(NotFound))
    else if m[ToLower(userId.value)].Some? then (m, Ok)
    else AssignResult(m, userId, managerId, false)
  }

  /** `AssignUsersManager`, run in list order, stopping at the first failure. */
  function ClaimAllResult(m: Managers, userIds: seq<Option<string>>, managerId: Option<string>): (Managers, Outcome)
    decreases |userIds|
  {
    if userIds == [] then (m, Ok)
    else
      var prev := ClaimAllResult(m, userIds[..|userIds| - 1], managerId);
      if prev.1 != Ok then prev else ClaimResult(prev.0, userIds[|userIds| - 1], managerId)
  }

  /** Once a bulk call has failed, the remaining users are not attempted. */
  lemma {:induction false} ClaimAllStops(m: Managers, userIds: seq<Option<string>>, k: nat, managerId: Option<string>)
    requires k <= |userIds| && ClaimAllResult(m, userIds[..k], managerId).1 != Ok
    ensures ClaimAllResult(m, userIds, managerId) == ClaimAllResult(m, userIds[..k], managerId)
    decreases |userIds| - k
  {
    if k < |userIds| {
      assert userIds[..k + 1][..k] == userIds[..k];
      ClaimAllStops(m, userIds, k + 1, managerId);
    } else {
      assert userIds[..k] == userIds;
    }
  }

  /** The user is one of the listed ones. */
  ghost predicate Listed(userIds: seq<Option<string>>, u: string) {
    exists i :: 0 <= i < |userIds| && userIds[i].Some? && ToLower(userIds[i].value) == u
  }

  /** Claiming in bulk never takes a user from a manager: every user keeps the
      manager it had, or had none, is listed, and now has the given manager. On
      success every listed user has a manager. */
  lemma {:induction false} ClaimAllEffect(m: Managers, userIds: seq<Option<string>>, managerId: Option<string>)
    ensures var r := ClaimAllResult(m, userIds, managerId);
      && r.0.Keys == m.Keys
      && (forall u :: u in m ==>
            r.0[u] == m[u]
            || (m[u].None? && Listed(userIds, u) && managerId.Some? && r.0[u] == Some(ToLower(managerId.value))))
      && (r.1 == Ok ==> forall i :: 0 <= i < |userIds| ==> Known(r.0, userIds[i]) && r.0[ToLower(userIds[i].value)].Some?)
    decreases |userIds|
  {
    if userIds != [] {
      var init := userIds[..|userIds| - 1];
      var last := userIds[|userIds| - 1];
      ClaimAllEffect(m, init, managerId);
      var prev := ClaimAllResult(m, init, managerId);
      assert forall u :: Listed(init, u) ==> Listed(userIds, u) by {
        forall u | Listed(init, u) ensures Listed(userIds, u) {
          var i :| 0 <= i < |init| && init[i].Some? && ToLower(init[i].value) == u;
          assert userIds[i] == init[i];
        }
      }
      if prev.1 == Ok && Known(prev.0, last) {
        assert Listed(userIds, ToLower(last.value)) by {
          assert userIds[|userIds| - 1] == last;
        }
      }
      assert forall i :: 0 <= i < |init| ==> userIds[i] == init[i];
    }
  }

  /** `UnassignUserManager`: the DELETE fails for an unknown user and otherwise
      leaves the user without a manager. */
  function UnassignResult(m: Managers, userId: Option<string>): (r: (Managers, Outcome))
    ensures r.1 == Ok <==> Known(m, userId)
    ensures r.1 == Ok ==> r.0 == m[ToLower(userId.value) := None]
    ensures r.1 != Ok ==> r.0 == m
  {
    if !Known(m, userId) then (m, Failed(NotFound))
    else (m[ToLower(userId.value) := None], Ok)
  }

  /** `UnassignUsersManager`, run in list order, stopping at the first failure. */
  function UnassignAllResult(m: Managers, userIds: seq<Option<string>>): (Managers, Outcome)
    decreases |userIds|
  {
    if userIds == [] then (m, Ok)
    else
      var prev := UnassignAllResult(m, userIds[..|userIds| - 1]);
      if prev.1 != Ok then prev else UnassignResult(prev.0, userIds[|userIds| - 1])
  }

  lemma {:induction false} UnassignAllStops(m: Managers, userIds: seq<Option<string>>, k: nat)
    requires k <= |userIds| && UnassignAllResult(m, userIds[..k]).1 != Ok
    ensures UnassignAllResult(m, userIds) == UnassignAllResult(m, userIds[..k])
    decreases |userIds| - k
  {
    if k < |userIds| {
      assert userIds[..k + 1][..k] == userIds[..k];
      UnassignAllStops(m, userIds, k + 1);
    } else {
      assert userIds[..k] == userIds;
    }
  }

  /** Unassigning in bulk clears the manager of listed users only, and on
      success of every listed user. */
  lemma {:induction false} UnassignAllEffect(m: Managers, userIds: seq<Option<string>>)
    ensures var r := UnassignAllResult(m, userIds);
      && r.0.Keys == m.Keys
      && (forall u :: u in m ==> r.0[u] == m[u] || (Listed(userIds, u) && r.0[u].None?))
      && (r.1 == Ok ==> forall i :: 0 <= i < |userIds| ==> Known(r.0, userIds[i]) && r.0[ToLower(userIds[i].value)].None?)
    decreases |userIds|
  {
    if userIds != [] {
      var init := userIds[..|userIds| - 1];
      var last := userIds[|userIds| - 1];
      UnassignAllEffect(m, init);
      var prev := UnassignAllResult(m, init);
      assert forall u :: Listed(init, u) ==> Listed(userIds, u) by {
        forall u | Listed(init, u) ensures Listed(userIds, u) {
          var i :| 0 <= i < |init| && init[i].Some? && ToLower(init[i].value) == u;
          assert userIds[i] == init[i];
        }
      }
      if prev.1 == Ok && Known(prev.0, last) {
        assert Listed(userIds, ToLower(last.value)) by {
          assert userIds[|userIds| - 1] == last;
        }
      }
      assert forall i :: 0 <= i < |init| ==> userIds[i] == init[i];
    }
  }

  class Directory {
    var managerOf: Managers

    /** Keys are lower-case principal names and every manager is a known user. */
    ghost predicate Valid()
      reads this
    {
      forall u :: u in managerOf ==>
        ToLower(u) == u && (managerOf[u].Some? ==> managerOf[u].value in managerOf)
    }

    /** What `GetUser(userId).Manager.Email` yields: the manager's lower-case
        principal name, null when the user has no manager, or the exception
        raised for a null or unknown id. */
    function ManagerEmailOf(userId: Option<string>): (r: Result<Option<string>>)
      reads this
      ensures r.Failure? <==> !Known(managerOf, userId)
      ensures r.Success? ==> r.value == managerOf[ToLower(userId.value)]
    {
      if !Known(managerOf, userId) then Failure(NotFound) else Success(managerOf[ToLower(userId.value)])
    }

    method AssignUserManager(userId: Option<string>, managerId: Option<string>, force: bool) returns (r: Outcome)
      requires Valid()
      modifies this
      ensures Valid()
      ensures (managerOf, r) == AssignResult(old(managerOf), userId, managerId, force)
    {
      if !Known(managerOf, userId) {
        return Failed(NotFound);
      }
      var u := ToLower(userId.value);
      if !force && managerOf[u].Some? {
        return Failed(AlreadyClaimed);
      }
      if !Known(managerOf, managerId) {
        return Failed(NotFound);
      }
      ToLowerIdempotent(userId.value);
      ToLowerIdempotent(managerId.value);
      managerOf := managerOf[u := Some(ToLower(managerId.value))];
      r := Ok;
    }

    method AssignUsersManager(userIds: seq<Option<string>>, managerId: Option<string>) returns (r: Outcome)
      requires Valid()
      modifies this
      ensures Valid()
      ensures (managerOf, r) == ClaimAllResult(old(managerOf), userIds, managerId)
    {
      var i := 0;
      while i < |userIds|
        invariant 0 <= i <= |userIds| && Valid()
        invariant (managerOf, Ok) == ClaimAllResult(old(managerOf), userIds[..i], managerId)
      {
        assert userIds[..i + 1][..i] == userIds[..i];
        var userId := userIds[i];
        if !Known(managerOf, userId) {
          ClaimAllStops(old(managerOf), userIds, i + 1, managerId);
          return Failed(NotFound);
        }
        if managerOf[ToLower(userId.value)].None? {
          if !Known(managerOf, managerId) {
            ClaimAllStops(old(managerOf), userIds, i + 1, managerId);
            return Failed(NotFound);
          }
          ToLowerIdempotent(userId.value);
          ToLowerIdempotent(managerId.value);
          managerOf := managerOf[ToLower(userId.value) := Some(ToLower(managerId.value))];
        }
        i := i + 1;
      }
      assert userIds[..i] == userIds;
      r := Ok;
    }

    method UnassignUserManager(userId: Option<string>) returns (r: Outcome)
      requires Valid()
      modifies this
      ensures Valid()
      ensures (managerOf, r) == UnassignResult(old(managerOf), userId)
    {
      if !Known(managerOf, userId) {
        return Failed(NotFound);
      }
      managerOf := managerOf[ToLower(userId.value) := None];
      r := Ok;
    }

    method UnassignUsersManager(userIds: seq<Option<string>>) returns (r: Outcome)
      requires Valid()
      modifies this
      ensures Valid()
      ensures (managerOf, r) == UnassignAllResult(old(managerOf), userIds)
    {
      var i := 0;
      while i < |userIds|
        invariant 0 <= i <= |userIds| && Valid()
        invariant (managerOf, Ok) == UnassignAllResult(old(managerOf), userIds[..i])
      {
        assert userIds[..i + 1][..i] == userIds[..i];
        r := UnassignUserManager(userIds[i]);
        if r != Ok {
          UnassignAllStops(old(managerOf), userIds, i + 1);
          return;
        }
        i := i + 1;
      }
      assert userIds[..i] == userIds;
      r := Ok;
    }
  }

  // ---- Read-only computations over Graph responses ----

  /** The number of users on a chain that may be empty. */
  function Length(chain: Option<ADUser>): nat {
    match chain
    case None => 0
    case Some(a) => ChainLength(a)
  }

  /** Every user on the chain has a principal name, so `Clone` succeeds on it. */
  ghost predicate Clonable(chain: Option<ADUser>)
    decreases Length(chain)
  {
    chain.Some? ==> chain.value.userPrincipalName.Some? && Clonable(chain.value.manager)
  }

  /** The users on a chain, nearest first, each cloned and detached from its
      manager; `None` when a clone throws. */
  function Flatten(chain: Option<ADUser>): (r: Option<seq<ADUser>>)
    ensures r.Some? <==> Clonable(chain)
    ensures r.Some? ==> |r.value| == Length(chain)
    decreases Length(chain)
  {
    match chain
    case None => Some([])
    case Some(a) =>
      match Clone(a)
      case None => None
      case Some(c) =>
        match Flatten(a.manager)
        case None => None
        case Some(rest) => Some([c.(manager := None)] + rest)
  }

  /** The flattened chain is a linked list by id: no entry carries a manager
      object, each names the next entry's id as its manager id, the last names
      none, and each e-mail is its lower-cased principal name. */
  lemma {:induction false} FlattenLinks(chain: Option<ADUser>)
    requires Clonable(chain)
    ensures var ms := Flatten(chain).value;
      && (forall i :: 0 <= i < |ms| ==> ms[i].manager.None?)
      && (forall i :: 0 <= i < |ms| - 1 ==> ms[i].managerId == ms[i + 1].id)
      && (|ms| > 0 ==> ms[|ms| - 1].managerId.None?)
      && (forall i :: 0 <= i < |ms| ==>
            ms[i].userPrincipalName.Some? && ms[i].email == Some(ToLower(ms[i].userPrincipalName.value)))
      && (chain.Some? ==> ms[0].id == chain.value.id)
    decreases Length(chain)
  {
    if chain.Some? {
      var a := chain.value;
      FlattenLinks(a.manager);
      var ms := Flatten(chain).value;
      var rest := Flatten(a.manager).value;
      assert ms == [ms[0]] + rest;
      assert forall i :: 1 <= i < |ms| ==> ms[i] == rest[i - 1];
    }
  }

  method GetUserManagers(userId: Option<string>, response: Result<ADUser>, includeUser: bool)
    returns (r: Result<seq<ADUser>>)
    ensures IsNullOrEmpty(userId) ==> r == Failure(UserIdRequired)
    ensures !IsNullOrEmpty(userId) && response.Failure? ==> r == Failure(response.message)
    ensures !IsNullOrEmpty(userId) && response.Success? ==>
      var chain := if includeUser then Some(response.value) else response.value.manager;
      (r.Success? <==> Clonable(chain)) && (r.Success? ==> Some(r.value) == Flatten(chain))
  {
    if IsNullOrEmpty(userId) {
      return Failure(UserIdRequired);
    }
    if response.Failure? {
      return Failure(response.message);
    }
    var start := if includeUser then Some(response.value) else response.value.manager;
    var chain := start;
    var managers: seq<ADUser> := [];
    assert Flatten(chain).Some? ==> managers + Flatten(chain).value == Flatten(chain).value;
    while chain.Some?
      invariant Flatten(chain).None? ==> Flatten(start).None?
      invariant Flatten(chain).Some? ==> Flatten(start) == Some(managers + Flatten(chain).value)
      decreases Length(chain)
    {
      var c := Clone(chain.value);
      if c.None? {
        return Failure(NullReference);
      }
      var next := chain.value.manager;
      if Flatten(next).Some? {
        assert Flatten(chain).value == [c.value.(manager := None)] + Flatten(next).value;
        assert managers + Flatten(chain).value == (managers + [c.value.(manager := None)]) + Flatten(next).value;
      }
      managers := managers + [c.value.(manager := None)];
      chain := next;
    }
    assert managers + [] == managers;
    r := Success(managers);
  }

  /** The chain `GetUserManagers` returns has one entry per manager above the
      user, plus the user first when `includeUser` is set. */
  lemma ManagersLength(u: ADUser)
    requires Clonable(Some(u))
    ensures |Flatten(Some(u)).value| == 1 + |Flatten(u.manager).value|
    ensures Flatten(Some(u)).value[1..] == Flatten(u.manager).value
  {
  }

  /** `GetUserDirectReports`: each report converted, its manager id stamped
      with the user's id. */
  function GetUserDirectReports(user: ADUser, reports: seq<GraphUsers.User>): (r: seq<ADUser>)
    ensures |r| == |reports|
    ensures forall i :: 0 <= i < |r| ==>
      r[i].managerId == user.id && r[i] == FromUser(reports[i]).(managerId := user.id)
  {
    seq(|reports|, i requires 0 <= i < |reports| => FromUser(reports[i]).(managerId := user.id))
  }

  /** `GetUserOrgChart`: the user's chain (user first) followed by the user's
      direct reports, or, for a user without reports, by the other reports of
      the user's manager (`managers[1]`), whose reports the caller fetched. */
  function GetUserOrgChart(userId: string, managers: seq<ADUser>, directReports: seq<ADUser>,
                           managerReports: seq<ADUser>): (r: seq<ADUser>)
    ensures |managers| <= |r| && r[..|managers|] == managers
    ensures |directReports| > 0 ==> r[|managers|..] == directReports
    ensures |directReports| == 0 && |managers| > 1 ==>
      r[|managers|..] == Filter(managerReports, (e: ADUser) => e.id != Some(userId))
    ensures |directReports| == 0 && |managers| <= 1 ==> r == managers
    ensures |directReports| == 0 ==> forall i :: |managers| <= i < |r| ==> r[i].id != Some(userId)
  {
    var siblings := if |directReports| == 0 && |managers| > 1
                    then Filter(managerReports, (e: ADUser) => e.id != Some(userId)) else [];
    if |directReports| > 0 then managers + directReports else managers + siblings
  }

  /** `u.MemberOf.Any(g => g.Id == groupId)`. */
  predicate InGroup(u: GraphUsers.User, groupId: Option<string>) {
    exists i :: 0 <= i < |u.memberOf| && u.memberOf[i] == groupId
  }

  /** `GetUsersWithoutManagers`: the users without a manager, in order; with a
      managers group configured, only those among `members` (the second user
      listing) that are not in the group. */
  function GetUsersWithoutManagers(users: seq<ADUser>, groupId: Option<string>, members: seq<GraphUsers.User>)
    : (r: seq<ADUser>)
    ensures |r| <= |users|
    ensures forall u :: u in r <==>
      (u in users && u.manager.None?
       && (IsNullOrEmpty(groupId) || exists x :: x in members && !InGroup(x, groupId) && x.id == u.id))
    ensures Subsequence(r, users)
    ensures forall u :: u in r ==> multiset(r)[u] == multiset(users)[u]
  {
    var noManager := (u: ADUser) => u.manager.None?;
    var withoutManagers := Filter(users, noManager);
    if IsNullOrEmpty(groupId) then
      FilterSubsequence(users, noManager);
      FilterCounts(users, noManager);
      withoutManagers
    else
      var outsideGroup := Filter(members, (x: GraphUsers.User) => !InGroup(x, groupId));
      var listed := (u: ADUser) => exists x :: x in outsideGroup && x.id == u.id;
      var both := (u: ADUser) => u.manager.None? && listed(u);
      FilterCompose(users, noManager, listed, both);
      FilterSubsequence(users, both);
      FilterCounts(users, both);
      Filter(withoutManagers, listed)
  }

  /** `GetUsersWithManagers`: exactly the users with a manager, in order,
      converted, with the manager object dropped and its id kept. */
  function GetUsersWithManagers(users: seq<GraphUsers.User>): (r: seq<ADUser>)
    ensures var withManager := Filter(users, (u: GraphUsers.User) => u.manager.Some?);
      && |r| == |withManager|
      && forall i :: 0 <= i < |r| ==>
           (r[i].manager.None? && r[i].managerId == withManager[i].manager.value.id
            && r[i] == FromUser(withManager[i]).(manager := None))
  {
    var withManager := Filter(users, (u: GraphUsers.User) => u.manager.Some?);
    seq(|withManager|, i requires 0 <= i < |withManager| => FromUser(withManager[i]).(manager := None))
  }
}
