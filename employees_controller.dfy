/** The manager-reassignment workflow of `EmployeesController`: submitting a
    request for oneself or on someone's behalf (singly or in a batch), and
    approving, declining and cancelling a stored request. Each endpoint ends in
    `Ok`, `Rejected` (HTTP 400) or `Failed` (an exception, HTTP 500). */
module Employees {
  import opened Wrappers
  import opened Strings
  import opened KeyValues
  import opened ApprovalItems
  import opened SharePoint
  import opened MicrosoftGraph
  import opened Collections

  const CannotReassignToSelf := "Employee cannot be reassigned to self"
  const PendingExists := "A pending request already exist for the specified employee"
  const CannotAssignToSelf := "Employee cannot be assigned to self"
  const CannotReassignToManager := "Employee cannot be reassigned to manager"
  const ListEmpty := "List is empty"
  const BatchCannotReassignToSelf := "One or more employee(s) in list cannot be reassigned to self"
  const BatchCannotAssignToSelf := "One or more employee(s) in list cannot be assigned to self"
  const BatchCannotReassignToManager := "One or more employee(s) in list cannot be reassigned to manager"
  const PendingExistFor := "Pending request(s) already exist for the employees: "
  const InvalidId := "Item id is invalid"
  const CommentRequired := "Comment is required"
  const CannotCancel := "Request cannot be canceled as it has been acted upon by the employee manager"

  function NoLongerManager(employeeName: Option<string>): string {
    "You're no longer the manager of " + Text(employeeName) + ". Kindly decline this request."
  }

  function MultiplePending(employeeName: Option<string>): string {
    "There are more than one pending request for " + Text(employeeName)
      + ". Kindly decline others so you can approve only one"
  }

  // ---- The rules the endpoints test ----

  /** `i.ManagerEmail.ToLower() == i.ToManagerEmail.ToLower()`. */
  function ReassignsToManager(i: ApprovalItem): Option<bool> {
    LowerEquals(i.managerEmail, i.toManagerEmail)
  }

  /** `i.RequestorEmail.ToLower() == i.ToManagerEmail.ToLower()`. */
  function AssignsToRequestor(i: ApprovalItem): Option<bool> {
    LowerEquals(i.requestorEmail, i.toManagerEmail)
  }

  /** `items.Any(rule)` for a rule that may throw: the first item on which the
      rule holds decides, unless an earlier one throws. */
  function AnyMatch(xs: seq<ApprovalItem>, rule: ApprovalItem -> Option<bool>): (r: Option<bool>)
    ensures r == Some(false) <==> forall i :: 0 <= i < |xs| ==> rule(xs[i]) == Some(false)
    ensures r == Some(true) <==>
      exists i :: 0 <= i < |xs| && rule(xs[i]) == Some(true) && forall j :: 0 <= j < i ==> rule(xs[j]) == Some(false)
    decreases |xs|
  {
    if xs == [] then Some(false)
    else
      match rule(xs[0])
      case None => None
      case Some(true) => Some(true)
      case Some(false) =>
        var rest := AnyMatch(xs[1..], rule);
        assert forall i :: 1 <= i < |xs| ==> xs[1..][i - 1] == xs[i];
        if rest == Some(true) then
          var k :| 0 <= k < |xs[1..]| && rule(xs[1..][k]) == Some(true)
                   && forall j :: 0 <= j < k ==> rule(xs[1..][j]) == Some(false);
          assert rule(xs[k + 1]) == Some(true) && forall j :: 0 <= j < k + 1 ==> rule(xs[j]) == Some(false);
          rest
        else rest
  }

  /** Batch-to-self items assigned directly: the employee has no manager. */
  predicate IsDirectSelf(i: ApprovalItem) {
    IsNullOrEmpty(i.managerEmail)
  }
  predicate NeedsApprovalSelf(i: ApprovalItem) {
    !IsDirectSelf(i)
  }

  /** Items on someone's behalf that go straight to the target manager's
      acceptance: the employee has no manager, or the requestor is the manager. */
  predicate IsDirectOther(i: ApprovalItem) {
    IsNullOrEmpty(i.managerEmail) || LowerEquals(i.requestorEmail, i.managerEmail) == Some(true)
  }
  predicate NeedsApprovalOther(i: ApprovalItem) {
    !IsDirectOther(i)
  }

  /** The direct and the approval-needing items together are as many as the batch. */
  lemma SplitLengths(items: seq<ApprovalItem>)
    ensures |Filter(items, IsDirectOther)| + |Filter(items, NeedsApprovalOther)| == |items|
  {
    FilterPartition(items, IsDirectOther, NeedsApprovalOther);
  }

  /** The type `AssignToOther` stores. */
  function OtherType(i: ApprovalItem): string {
    if IsDirectOther(i) then TypeAcceptance else TypeApproval
  }

  function MarkAll(xs: seq<ApprovalItem>, approvalType: string): (r: seq<ApprovalItem>)
    ensures |r| == |xs|
    ensures forall k :: 0 <= k < |r| ==> r[k] == MarkPending(xs[k], approvalType)
  {
    seq(|xs|, k requires 0 <= k < |xs| => MarkPending(xs[k], approvalType))
  }

  function EmployeeEmails(xs: seq<ApprovalItem>): (r: seq<Option<string>>)
    ensures |r| == |xs|
    ensures forall k :: 0 <= k < |r| ==> r[k] == xs[k].employeeEmail
  {
    seq(|xs|, k requires 0 <= k < |xs| => xs[k].employeeEmail)
  }

  /** The store holds a pending request for the employee. */
  ghost predicate HasPending(items: map<int, seq<KeyValue>>, employeeEmail: Option<string>) {
    exists id :: id in items && PendingFor(items[id], employeeEmail)
  }

  /** The batch endpoints' conflict scan: the employees, in input order, whose
      lower-cased e-mail has a pending request; `None` when an e-mail is null. */
  ghost function PendingConflicts(items: map<int, seq<KeyValue>>, xs: seq<ApprovalItem>): Option<seq<string>>
    decreases |xs|
  {
    if xs == [] then Some([])
    else
      var prev := PendingConflicts(items, xs[..|xs| - 1]);
      var e := xs[|xs| - 1].employeeEmail;
      if prev.None? || e.None? then None
      else if HasPending(items, Some(ToLower(e.value))) then Some(prev.value + [e.value])
      else prev
  }

  /** The scan fails iff some e-mail is null; otherwise it finds nothing iff
      no employee has a pending request, and everything it reports is an
      input employee with one. */
  lemma {:induction false} PendingConflictsSpec(items: map<int, seq<KeyValue>>, xs: seq<ApprovalItem>)
    ensures PendingConflicts(items, xs).None? <==> exists i :: 0 <= i < |xs| && xs[i].employeeEmail.None?
    ensures PendingConflicts(items, xs).Some? ==>
      var ps := PendingConflicts(items, xs).value;
      && |ps| <= |xs|
      && (ps == [] <==> forall i :: 0 <= i < |xs| ==> !HasPending(items, Some(ToLower(xs[i].employeeEmail.value))))
      && (forall k :: 0 <= k < |ps| ==>
            (exists i :: 0 <= i < |xs| && xs[i].employeeEmail == Some(ps[k])) && HasPending(items, Some(ToLower(ps[k]))))
    decreases |xs|
  {
    if xs != [] {
      var init := xs[..|xs| - 1];
      PendingConflictsSpec(items, init);
      assert forall i :: 0 <= i < |init| ==> init[i] == xs[i];
    }
  }

  /** The employee e-mails of a batch in which none is null. */
  function EmailValues(xs: seq<ApprovalItem>): (r: seq<string>)
    requires forall i :: 0 <= i < |xs| ==> xs[i].employeeEmail.Some?
    ensures |r| == |xs|
    ensures forall i :: 0 <= i < |r| ==> Some(r[i]) == xs[i].employeeEmail
  {
    seq(|xs|, k requires 0 <= k < |xs| => xs[k].employeeEmail.value)
  }

  /** The lower-cased e-mail has a pending request. */
  ghost predicate Conflicts(items: map<int, seq<KeyValue>>, e: string) {
    HasPending(items, Some(ToLower(e)))
  }

  /** `Conflicts` as the test the scan filters by. */
  ghost function HasConflict(items: map<int, seq<KeyValue>>): string -> bool {
    (e: string) => Conflicts(items, e)
  }

  /** With no null e-mail, the scan reports exactly the batch's e-mails that
      have a pending request, in input order and as often as they occur. */
  lemma PendingConflictsInOrder(items: map<int, seq<KeyValue>>, xs: seq<ApprovalItem>)
    requires forall i :: 0 <= i < |xs| ==> xs[i].employeeEmail.Some?
    ensures PendingConflicts(items, xs) == Some(Filter(EmailValues(xs), HasConflict(items)))
  {
    PendingConflictsBack(items, xs);
    FilterBackIsFilter(EmailValues(xs), HasConflict(items));
  }

  lemma {:induction false} PendingConflictsBack(items: map<int, seq<KeyValue>>, xs: seq<ApprovalItem>)
    requires forall i :: 0 <= i < |xs| ==> xs[i].employeeEmail.Some?
    ensures PendingConflicts(items, xs) == Some(FilterBack(EmailValues(xs), HasConflict(items)))
    decreases |xs|
  {
    if xs != [] {
      var init := xs[..|xs| - 1];
      var e := xs[|xs| - 1].employeeEmail.value;
      var c := HasConflict(items);
      var es := EmailValues(xs);
      var tail := if c(e) then [e] else [];
      assert forall i :: 0 <= i < |init| ==> init[i] == xs[i];
      PendingConflictsBack(items, init);
      var prev := FilterBack(EmailValues(init), c);
      calc {
        PendingConflicts(items, xs);
      == { assert xs[|xs| - 1].employeeEmail == Some(e); }
        if Conflicts(items, e) then Some(prev + [e]) else Some(prev);
      == { assert c(e) == Conflicts(items, e); assert prev + [] == prev; }
        Some(prev + tail);
      == { assert es[..|es| - 1] == EmailValues(init) && es[|es| - 1] == e; }
        Some(FilterBack(es, c));
      }
    }
  }

  /** No conflict is missed: every batch employee with a pending request is reported. */
  lemma PendingConflictsComplete(items: map<int, seq<KeyValue>>, xs: seq<ApprovalItem>)
    requires forall i :: 0 <= i < |xs| ==> xs[i].employeeEmail.Some?
    ensures PendingConflicts(items, xs).Some?
    ensures forall i :: (0 <= i < |xs| && HasPending(items, Some(ToLower(xs[i].employeeEmail.value)))
      ==> xs[i].employeeEmail.value in PendingConflicts(items, xs).value)
  {
    PendingConflictsInOrder(items, xs);
    var es := EmailValues(xs);
    forall i | 0 <= i < |xs| && HasPending(items, Some(ToLower(xs[i].employeeEmail.value)))
      ensures es[i] in Filter(es, HasConflict(items))
    {
      assert es[i] in es && HasConflict(items)(es[i]);
    }
  }

  // ---- The duplicate-pending invariant ----

  /** Adding a request for an employee without one keeps at most one pending
      request per employee. */
  lemma AddPreservesOnePending(items: map<int, seq<KeyValue>>, id: int, x: ApprovalItem)
    requires OnePendingPerEmployee(items) && id !in items && !HasPending(items, x.employeeEmail)
    ensures OnePendingPerEmployee(items[id := ToKeyValuePairs(x)])
  {
    RoundTrip(x, id);
    var f := ToKeyValuePairs(x);
    assert FirstValue(f, "employeeEmail") == x.employeeEmail;
  }

  /** Giving a request a non-pending status keeps the invariant. */
  lemma UpdatePreservesOnePending(items: map<int, seq<KeyValue>>, id: int, status: string,
                                  comment: Option<string>, reviewDate: string)
    requires OnePendingPerEmployee(items) && id in items && status != StatusPending
    ensures OnePendingPerEmployee(items[id := ApplyValues(items[id], UpdateValues(status, comment, reviewDate))])
  {
    UpdateEffect(items[id], id, status, comment, reviewDate);
  }

  /** Approving a pending Approval request on someone's behalf and adding its
      pending Acceptance copy keeps the invariant. */
  lemma ApproveCopyPreservesOnePending(items: map<int, seq<KeyValue>>, id: int, next: int,
                                       comment: Option<string>, reviewDate: string)
    requires OnePendingPerEmployee(items) && id in items && next !in items
    requires FirstValue(items[id], "approvalStatus") == Some(StatusPending)
    ensures var x := FromSPListItem(SPListItem(id, items[id]));
      OnePendingPerEmployee(Approve(items, id, comment, reviewDate)[next := ToKeyValuePairs(AcceptanceCopy(x))])
  {
    var x := FromSPListItem(SPListItem(id, items[id]));
    var updated := Approve(items, id, comment, reviewDate);
    UpdatePreservesOnePending(items, id, StatusApproved, comment, reviewDate);
    UpdateEffect(items[id], id, StatusApproved, comment, reviewDate);
    assert !HasPending(updated, x.employeeEmail) by {
      forall j | j in updated ensures !PendingFor(updated[j], x.employeeEmail) {
        if j != id {
          assert updated[j] == items[j];
        } else {
          assert FirstValue(updated[j], "approvalStatus") == Some(StatusApproved);
        }
      }
    }
    AddPreservesOnePending(updated, next, AcceptanceCopy(x));
  }

  /** A batch that names one employee twice passes the conflict scan on an
      empty list and then stores two pending requests for that employee. */
  lemma BatchDuplicateBreaksOnePending(x: ApprovalItem)
    requires x.employeeEmail.Some? && x.approvalStatus == Some(StatusPending)
    ensures PendingConflicts(map[], [x, x]) == Some([])
    ensures !OnePendingPerEmployee(map[1 := ToKeyValuePairs(x), 2 := ToKeyValuePairs(x)])
  {
    assert [x, x][..1] == [x] && [x][..0] == [];
    assert !HasPending(map[], Some(ToLower(x.employeeEmail.value)));
    assert PendingConflicts(map[], [x]) == Some([]);
    RoundTrip(x, 1);
    var f := ToKeyValuePairs(x);
    var m := map[1 := f, 2 := f];
    assert FirstValue(m[1], "approvalStatus") == Some(StatusPending);
    assert PendingFor(m[2], FirstValue(m[1], "employeeEmail"));
  }

  // ---- Item updates the approval endpoints make ----

  /** `string.IsNullOrEmpty(item.Comment) ? null : item.Comment`. */
  function ReviewComment(comment: Option<string>): (r: Option<string>)
    ensures IsNullOrEmpty(comment) ==> r.None?
    ensures !IsNullOrEmpty(comment) ==> r == comment
  {
    if IsNullOrEmpty(comment) then None else comment
  }

  /** The Acceptance request that approving on someone's behalf adds. */
  function AcceptanceCopy(x: ApprovalItem): ApprovalItem {
    x.(approvalStatus := Some(StatusPending), approvalType := Some(TypeAcceptance), comment := None, reviewDate := None)
  }

  /** The store after `UpdateApprovalItem(id, APPROVED, comment)`. */
  function Approve(items: map<int, seq<KeyValue>>, id: int, comment: Option<string>, reviewDate: string)
    : map<int, seq<KeyValue>>
    requires id in items
  {
    items[id := ApplyValues(items[id], UpdateValues(StatusApproved, comment, reviewDate))]
  }

  /** What approving the Approval item `x` stored under `id` does, given the
      employee's manager on record: the states before (`items`, `next`, `m`) and
      after (`items'`, `next'`, `m'`) and the response `r`. */
  ghost predicate ApprovalEffect(items: map<int, seq<KeyValue>>, next: int, m: Managers, id: int, x: ApprovalItem,
                                 manager: Option<string>, comment: Option<string>, reviewDate: string,
                                 items': map<int, seq<KeyValue>>, next': int, m': Managers, r: Outcome)
    requires id in items
  {
    var same := LowerEquals(manager, x.managerEmail);
    var multiple := TwoPendingFor(items, x.employeeEmail, x.managerEmail);
    var kept := items' == items && next' == next && m' == m;
    && (same.None? ==> r.Failed? && kept)
    && (same == Some(false) ==> r == Rejected(NoLongerManager(x.employeeName)) && kept)
    && (same == Some(true) && multiple ==> r == Rejected(MultiplePending(x.employeeName)) && kept)
    && (same == Some(true) && !multiple ==>
          ApprovalCompleted(items, next, m, id, x, comment, reviewDate, items', next', m', r))
  }

  /** The rest of an approval once both guards passed: a null e-mail fails; a
      request made by the target manager is carried out at once (the forced move,
      then the item marked approved); any other is approved and an Acceptance
      copy is stored for the target manager. */
  ghost predicate ApprovalCompleted(items: map<int, seq<KeyValue>>, next: int, m: Managers, id: int, x: ApprovalItem,
                                    comment: Option<string>, reviewDate: string,
                                    items': map<int, seq<KeyValue>>, next': int, m': Managers, r: Outcome)
    requires id in items
  {
    && (AssignsToRequestor(x).None? ==> r.Failed? && items' == items && next' == next && m' == m)
    && (AssignsToRequestor(x) == Some(true) ==>
          AcceptanceEffect(items, next, m, id, x, comment, reviewDate, items', next', m', r))
    && (AssignsToRequestor(x) == Some(false) ==>
          r == Ok && m' == m && next' == next + 1
          && items' == Approve(items, id, comment, reviewDate)[next := ToKeyValuePairs(AcceptanceCopy(x))])
  }

  /** What approving the Acceptance item `x` stored under `id` does: the forced
      move is made, and only once it succeeded is the item marked approved. */
  ghost predicate AcceptanceEffect(items: map<int, seq<KeyValue>>, next: int, m: Managers, id: int, x: ApprovalItem,
                                   comment: Option<string>, reviewDate: string,
                                   items': map<int, seq<KeyValue>>, next': int, m': Managers, r: Outcome)
    requires id in items
  {
    var a := AssignResult(m, x.employeeEmail, x.toManagerEmail, true);
    && m' == a.0 && next' == next
    && (a.1 != Ok ==> r == a.1 && items' == items)
    && (a.1 == Ok ==> r == Ok && items' == Approve(items, id, comment, reviewDate))
  }

  class EmployeesController {
    const store: ApprovalList
    const directory: Directory

    ghost predicate Valid()
      reads this, store, directory
    {
      store.Valid() && directory.Valid()
    }

    constructor (store: ApprovalList, directory: Directory)
      requires store.Valid() && directory.Valid()
      ensures this.store == store && this.directory == directory && Valid()
    {
      this.store := store;
      this.directory := directory;
    }

    /** The conflict scan of both batch endpoints, one store query per item. */
    method CollectPendingConflicts(xs: seq<ApprovalItem>) returns (r: Option<seq<string>>)
      requires Valid()
      ensures r == PendingConflicts(store.items, xs)
    {
      var pending: seq<string> := [];
      var i := 0;
      while i < |xs|
        invariant 0 <= i <= |xs|
        invariant PendingConflicts(store.items, xs[..i]) == Some(pending)
      {
        assert xs[..i + 1][..i] == xs[..i];
        var e := xs[i].employeeEmail;
        if e.None? {
          PendingConflictsSpec(store.items, xs);
          return None;
        }
        if store.IsEmployeePendingRequestExists(Some(ToLower(e.value))) {
          pending := pending + [e.value];
        }
        i := i + 1;
      }
      assert xs[..i] == xs;
      r := Some(pending);
    }

    method AssignToSelf(item: ApprovalItem) returns (r: Outcome)
      requires Valid()
      modifies store, directory
      ensures Valid()
      ensures ReassignsToManager(item).None? ==> r.Failed? && unchanged(store, directory)
      ensures ReassignsToManager(item) == Some(true) ==> r == Rejected(CannotReassignToSelf) && unchanged(store, directory)
      ensures ReassignsToManager(item) == Some(false) && HasPending(old(store.items), item.employeeEmail) ==>
        r == Rejected(PendingExists) && unchanged(store, directory)
      ensures (ReassignsToManager(item) == Some(false) && !HasPending(old(store.items), item.employeeEmail)
               && IsNullOrEmpty(item.managerEmail)) ==>
        (directory.managerOf, r) == AssignResult(old(directory.managerOf), item.employeeEmail, item.toManagerEmail, false)
        && unchanged(store)
      ensures (ReassignsToManager(item) == Some(false) && !HasPending(old(store.items), item.employeeEmail)
               && !IsNullOrEmpty(item.managerEmail)) ==>
        r == Ok && unchanged(directory) && store.nextId == old(store.nextId) + 1
        && store.items == old(store.items)[old(store.nextId) := ToKeyValuePairs(MarkPending(item, TypeApproval))]
      ensures OnePendingPerEmployee(old(store.items)) ==> OnePendingPerEmployee(store.items)
    {
      var sameManager := ReassignsToManager(item);
      if sameManager.None? {
        return Failed(NullReference);
      }
      if sameManager.value {
        return Rejected(CannotReassignToSelf);
      }
      if store.IsEmployeePendingRequestExists(item.employeeEmail) {
        return Rejected(PendingExists);
      }
      if IsNullOrEmpty(item.managerEmail) {
        r := directory.AssignUserManager(item.employeeEmail, item.toManagerEmail, false);
      } else {
        ghost var before := store.items;
        var x := MarkPending(item, TypeApproval);
        var id := store.AddApprovalItem(x);
        if OnePendingPerEmployee(before) {
          AddPreservesOnePending(before, id, x);
        }
        r := Ok;
      }
    }

    method BatchAssignToSelf(items: seq<ApprovalItem>) returns (r: Outcome)
      requires Valid()
      modifies store, directory
      ensures Valid()
      ensures |items| == 0 ==> r == Rejected(ListEmpty) && unchanged(store, directory)
      ensures |items| > 0 && AnyMatch(items, ReassignsToManager).None? ==> r.Failed? && unchanged(store, directory)
      ensures |items| > 0 && AnyMatch(items, ReassignsToManager) == Some(true) ==>
        r == Rejected(BatchCannotReassignToSelf) && unchanged(store, directory)
      ensures |items| > 0 && AnyMatch(items, ReassignsToManager) == Some(false) ==>
        var conflicts := PendingConflicts(old(store.items), items);
        && (conflicts.None? ==> r.Failed? && unchanged(store, directory))
        && (conflicts.Some? && conflicts.value != [] ==>
              r == Rejected(PendingExistFor + Join(", ", conflicts.value)) && unchanged(store, directory))
      ensures (|items| > 0 && AnyMatch(items, ReassignsToManager) == Some(false)
               && PendingConflicts(old(store.items), items) == Some([])) ==>
        var directs := Filter(items, IsDirectSelf);
        var approvals := Filter(items, NeedsApprovalSelf);
        var claim := if |directs| == 0 then (old(directory.managerOf), Ok)
                        else ClaimAllResult(old(directory.managerOf), EmployeeEmails(directs), directs[0].toManagerEmail);
        && directory.managerOf == claim.0
        && (claim.1 != Ok ==> r == claim.1 && unchanged(store))
        && (claim.1 == Ok ==>
              r == Ok && store.nextId == old(store.nextId) + |approvals|
              && Appended(old(store.items), old(store.nextId), store.items, MarkAll(approvals, TypeApproval)))
    {
      if |items| == 0 {
        return Rejected(ListEmpty);
      }
      var anySelf := AnyMatch(items, ReassignsToManager);
      if anySelf.None? {
        return Failed(NullReference);
      }
      if anySelf.value {
        return Rejected(BatchCannotReassignToSelf);
      }
      var conflicts := CollectPendingConflicts(items);
      if conflicts.None? {
        return Failed(NullReference);
      }
      if |conflicts.value| > 0 {
        return Rejected(PendingExistFor + Join(", ", conflicts.value));
      }
      var directs := Filter(items, IsDirectSelf);
      var approvals := Filter(items, NeedsApprovalSelf);
      if |directs| > 0 {
        r := directory.AssignUsersManager(EmployeeEmails(directs), directs[0].toManagerEmail);
        if r != Ok {
          return;
        }
      }
      if |approvals| > 0 {
        store.BatchAddApprovalItem(MarkAll(approvals, TypeApproval));
      }
      r := Ok;
    }

    method AssignToOther(item: ApprovalItem) returns (r: Outcome)
      requires Valid()
      modifies store, directory
      ensures Valid()
      ensures unchanged(directory)
      ensures AssignsToRequestor(item).None? ==> r.Failed? && unchanged(store)
      ensures AssignsToRequestor(item) == Some(true) ==> r == Rejected(CannotAssignToSelf) && unchanged(store)
      ensures AssignsToRequestor(item) == Some(false) && ReassignsToManager(item).None? ==> r.Failed? && unchanged(store)
      ensures AssignsToRequestor(item) == Some(false) && ReassignsToManager(item) == Some(true) ==>
        r == Rejected(CannotReassignToManager) && unchanged(store)
      ensures AssignsToRequestor(item) == Some(false) && ReassignsToManager(item) == Some(false) ==>
        && (HasPending(old(store.items), item.employeeEmail) ==> r == Rejected(PendingExists) && unchanged(store))
        && (!HasPending(old(store.items), item.employeeEmail) ==>
              r == Ok && store.nextId == old(store.nextId) + 1
              && store.items == old(store.items)[old(store.nextId) := ToKeyValuePairs(MarkPending(item, OtherType(item)))])
      ensures OnePendingPerEmployee(old(store.items)) ==> OnePendingPerEmployee(store.items)
    {
      var toRequestor := AssignsToRequestor(item);
      if toRequestor.None? {
        return Failed(NullReference);
      }
      if toRequestor.value {
        return Rejected(CannotAssignToSelf);
      }
      var toManager := ReassignsToManager(item);
      if toManager.None? {
        return Failed(NullReference);
      }
      if toManager.value {
        return Rejected(CannotReassignToManager);
      }
      if store.IsEmployeePendingRequestExists(item.employeeEmail) {
        return Rejected(PendingExists);
      }
      ghost var before := store.items;
      var x;
      if IsNullOrEmpty(item.managerEmail) {
        x := MarkPending(item, TypeAcceptance);
      } else if LowerEquals(item.requestorEmail, item.managerEmail) == Some(true) {
        x := MarkPending(item, TypeAcceptance);
      } else {
        x := MarkPending(item, TypeApproval);
      }
      var id := store.AddApprovalItem(x);
      if OnePendingPerEmployee(before) {
        AddPreservesOnePending(before, id, x);
      }
      r := Ok;
    }

    method BatchAssignToOthers(items: seq<ApprovalItem>) returns (r: Outcome)
      requires Valid()
      modifies store
      ensures Valid()
      ensures |items| == 0 ==> r == Rejected(ListEmpty) && unchanged(store)
      ensures |items| > 0 && AnyMatch(items, AssignsToRequestor).None? ==> r.Failed? && unchanged(store)
      ensures |items| > 0 && AnyMatch(items, AssignsToRequestor) == Some(true) ==>
        r == Rejected(BatchCannotAssignToSelf) && unchanged(store)
      ensures |items| > 0 && AnyMatch(items, AssignsToRequestor) == Some(false) ==>
        var toManager := AnyMatch(items, ReassignsToManager);
        && (toManager.None? ==> r.Failed? && unchanged(store))
        && (toManager == Some(true) ==> r == Rejected(BatchCannotReassignToManager) && unchanged(store))
      ensures (|items| > 0 && AnyMatch(items, AssignsToRequestor) == Some(false)
               && AnyMatch(items, ReassignsToManager) == Some(false)) ==>
        var conflicts := PendingConflicts(old(store.items), items);
        && (conflicts.None? ==> r.Failed? && unchanged(store))
        && (conflicts.Some? && conflicts.value != [] ==>
              r == Rejected(PendingExistFor + Join(", ", conflicts.value)) && unchanged(store))
        && (conflicts == Some([]) ==>
              r == Ok && store.nextId == old(store.nextId) + |items|
              && Appended(old(store.items), old(store.nextId), store.items,
                          MarkAll(Filter(items, IsDirectOther), TypeAcceptance)
                          + MarkAll(Filter(items, NeedsApprovalOther), TypeApproval)))
    {
      if |items| == 0 {
        return Rejected(ListEmpty);
      }
      var anyRequestor := AnyMatch(items, AssignsToRequestor);
      if anyRequestor.None? {
        return Failed(NullReference);
      }
      if anyRequestor.value {
        return Rejected(BatchCannotAssignToSelf);
      }
      var anyManager := AnyMatch(items, ReassignsToManager);
      if anyManager.None? {
        return Failed(NullReference);
      }
      if anyManager.value {
        return Rejected(BatchCannotReassignToManager);
      }
      var conflicts := CollectPendingConflicts(items);
      if conflicts.None? {
        return Failed(NullReference);
      }
      if |conflicts.value| > 0 {
        return Rejected(PendingExistFor + Join(", ", conflicts.value));
      }
      StoreSplit(items);
      r := Ok;
    }

    /** The writes of `BatchAssignToOthers` once validation passed: the direct
        items as Acceptance requests, then the rest as Approval requests. */
    method StoreSplit(items: seq<ApprovalItem>)
      requires Valid()
      modifies store
      ensures Valid()
      ensures store.nextId == old(store.nextId) + |items|
      ensures Appended(old(store.items), old(store.nextId), store.items,
                       MarkAll(Filter(items, IsDirectOther), TypeAcceptance)
                       + MarkAll(Filter(items, NeedsApprovalOther), TypeApproval))
    {
      var directs := MarkAll(Filter(items, IsDirectOther), TypeAcceptance);
      var approvals := MarkAll(Filter(items, NeedsApprovalOther), TypeApproval);
      SplitLengths(items);
      AddBoth(directs, approvals);
    }

    /** Two `BatchAddApprovalItem` calls, each skipped for an empty list. */
    method AddBoth(xs: seq<ApprovalItem>, ys: seq<ApprovalItem>)
      requires Valid()
      modifies store
      ensures Valid()
      ensures store.nextId == old(store.nextId) + |xs| + |ys|
      ensures Appended(old(store.items), old(store.nextId), store.items, xs + ys)
    {
      ghost var before := store.items;
      ghost var next := store.nextId;
      AddNonEmpty(xs);
      ghost var mid := store.items;
      AddNonEmpty(ys);
      AppendedConcat(before, next, mid, store.items, xs, ys);
    }

    /** One `BatchAddApprovalItem` call, skipped for an empty list. */
    method AddNonEmpty(xs: seq<ApprovalItem>)
      requires Valid()
      modifies store
      ensures Valid()
      ensures store.nextId == old(store.nextId) + |xs|
      ensures Appended(old(store.items), old(store.nextId), store.items, xs)
    {
      if |xs| > 0 {
        store.BatchAddApprovalItem(xs);
      }
    }

    method ApproveItem(item: ApprovalItem, reviewDate: string) returns (r: Outcome)
      requires Valid()
      modifies store, directory
      ensures Valid()
      ensures item.id !in old(store.items) ==> r == Rejected(InvalidId) && unchanged(store, directory)
      ensures item.id in old(store.items) ==>
        var x := Stored(old(store.items), item.id);
        var manager := old(directory.ManagerEmailOf(LowerOrNull(x.employeeEmail)));
        var comment := ReviewComment(item.comment);
        && (manager.Failure? ==> r.Failed? && unchanged(store, directory))
        && (manager.Success? && x.approvalType == Some(TypeApproval) ==>
              ApprovalEffect(old(store.items), old(store.nextId), old(directory.managerOf), item.id, x, manager.value,
                             comment, reviewDate, store.items, store.nextId, directory.managerOf, r))
        && (manager.Success? && x.approvalType == Some(TypeAcceptance) ==>
              AcceptanceEffect(old(store.items), old(store.nextId), old(directory.managerOf), item.id, x,
                               comment, reviewDate, store.items, store.nextId, directory.managerOf, r))
        && (manager.Success? && x.approvalType != Some(TypeApproval) && x.approvalType != Some(TypeAcceptance) ==>
              r == Ok && unchanged(store, directory))
      ensures (OnePendingPerEmployee(old(store.items)) && item.id in old(store.items)
               && FirstValue(old(store.items)[item.id], "approvalStatus") == Some(StatusPending))
              ==> OnePendingPerEmployee(store.items)
    {
      var fetched := store.GetApprovalItem(item.id);
      if fetched.None? {
        return Rejected(InvalidId);
      }
      var x := fetched.value;
      var comment := ReviewComment(item.comment);
      var manager := directory.ManagerEmailOf(LowerOrNull(x.employeeEmail));
      if manager.Failure? {
        return Failed(manager.message);
      }
      if x.approvalType == Some(TypeApproval) {
        r := ApproveRequest(item.id, x, manager.value, comment, reviewDate);
      } else if x.approvalType == Some(TypeAcceptance) {
        r := AcceptTransfer(item.id, x, comment, reviewDate);
      } else {
        r := Ok;
      }
    }

    /** The approval of an Approval item by the manager on record: the manager
        must still be the employee's, and the item must be the only pending one
        for the pair; then either the move is made at once (the target manager
        made the request) or an Acceptance copy is stored for the target. */
    method ApproveRequest(id: int, x: ApprovalItem, manager: Option<string>, comment: Option<string>, reviewDate: string)
      returns (r: Outcome)
      requires Valid() && id in store.items && x == Stored(store.items, id)
      modifies store, directory
      ensures Valid()
      ensures ApprovalEffect(old(store.items), old(store.nextId), old(directory.managerOf), id, x, manager,
                             comment, reviewDate, store.items, store.nextId, directory.managerOf, r)
      ensures (OnePendingPerEmployee(old(store.items))
               && FirstValue(old(store.items)[id], "approvalStatus") == Some(StatusPending))
              ==> OnePendingPerEmployee(store.items)
    {
      var same := LowerEquals(manager, x.managerEmail);
      if same.None? {
        return Failed(NullReference);
      }
      if !same.value {
        return Rejected(NoLongerManager(x.employeeName));
      }
      if store.IsManagerHasMultiplePendingRequestForEmployee(x.employeeEmail, x.managerEmail) {
        return Rejected(MultiplePending(x.employeeName));
      }
      r := CompleteApproval(id, x, comment, reviewDate);
    }

    /** The approval once the manager and duplicate guards passed. */
    method CompleteApproval(id: int, x: ApprovalItem, comment: Option<string>, reviewDate: string) returns (r: Outcome)
      requires Valid() && id in store.items && x == Stored(store.items, id)
      modifies store, directory
      ensures Valid()
      ensures ApprovalCompleted(old(store.items), old(store.nextId), old(directory.managerOf), id, x,
                                comment, reviewDate, store.items, store.nextId, directory.managerOf, r)
      ensures (OnePendingPerEmployee(old(store.items))
               && FirstValue(old(store.items)[id], "approvalStatus") == Some(StatusPending))
              ==> OnePendingPerEmployee(store.items)
    {
      var toSelf := AssignsToRequestor(x);
      if toSelf.None? {
        return Failed(NullReference);
      }
      if toSelf.value {
        r := AcceptTransfer(id, x, comment, reviewDate);
      } else {
        ghost var before := store.items;
        r := store.UpdateApprovalItem(id, StatusApproved, comment, reviewDate);
        var copy := store.AddApprovalItem(AcceptanceCopy(x));
        if OnePendingPerEmployee(before) && FirstValue(before[id], "approvalStatus") == Some(StatusPending) {
          ApproveCopyPreservesOnePending(before, id, copy, comment, reviewDate);
        }
      }
    }

    /** The approval of an Acceptance item by the target manager: the forced move,
        then, once it succeeded, the item marked approved. */
    method AcceptTransfer(id: int, x: ApprovalItem, comment: Option<string>, reviewDate: string) returns (r: Outcome)
      requires Valid() && id in store.items && x == Stored(store.items, id)
      modifies store, directory
      ensures Valid()
      ensures AcceptanceEffect(old(store.items), old(store.nextId), old(directory.managerOf), id, x,
                               comment, reviewDate, store.items, store.nextId, directory.managerOf, r)
      ensures (OnePendingPerEmployee(old(store.items))
               && FirstValue(old(store.items)[id], "approvalStatus") == Some(StatusPending))
              ==> OnePendingPerEmployee(store.items)
    {
      ghost var before := store.items;
      r := directory.AssignUserManager(x.employeeEmail, x.toManagerEmail, true);
      if r != Ok {
        return;
      }
      r := store.UpdateApprovalItem(id, StatusApproved, comment, reviewDate);
      if OnePendingPerEmployee(before) && FirstValue(before[id], "approvalStatus") == Some(StatusPending) {
        UpdatePreservesOnePending(before, id, StatusApproved, comment, reviewDate);
      }
    }

    method DeclineItem(item: ApprovalItem, reviewDate: string) returns (r: Outcome)
      requires Valid()
      modifies store
      ensures Valid()
      ensures item.id !in old(store.items) ==> r == Rejected(InvalidId) && unchanged(store)
      ensures item.id in old(store.items) && IsNullOrEmpty(item.comment) ==> r == Rejected(CommentRequired) && unchanged(store)
      ensures item.id in old(store.items) && !IsNullOrEmpty(item.comment) ==>
        r == Ok && store.nextId == old(store.nextId)
        && store.items == old(store.items)[item.id := ApplyValues(old(store.items)[item.id],
                                                                 UpdateValues(StatusDeclined, item.comment, reviewDate))]
        && Stored(store.items, item.id) == Stored(old(store.items), item.id)
             .(approvalStatus := Some(StatusDeclined), reviewDate := Some(reviewDate), comment := item.comment)
      ensures OnePendingPerEmployee(old(store.items)) ==> OnePendingPerEmployee(store.items)
    {
      var fetched := store.GetApprovalItem(item.id);
      if fetched.None? {
        return Rejected(InvalidId);
      }
      if IsNullOrEmpty(item.comment) {
        return Rejected(CommentRequired);
      }
      ghost var before := store.items;
      r := store.UpdateApprovalItem(item.id, StatusDeclined, item.comment, reviewDate);
      UpdateEffect(before[item.id], item.id, StatusDeclined, item.comment, reviewDate);
      if OnePendingPerEmployee(before) {
        UpdatePreservesOnePending(before, item.id, StatusDeclined, item.comment, reviewDate);
      }
    }

    method CancelItem(item: ApprovalItem) returns (r: Outcome)
      requires Valid()
      modifies store
      ensures Valid()
      ensures item.id !in old(store.items) ==> r == Rejected(InvalidId) && unchanged(store)
      ensures item.id in old(store.items) && Stored(old(store.items), item.id).approvalStatus != Some(StatusPending) ==>
        r == Rejected(CannotCancel) && unchanged(store)
      ensures item.id in old(store.items) && Stored(old(store.items), item.id).approvalStatus == Some(StatusPending) ==>
        r == Ok && store.items == old(store.items) - {item.id} && store.nextId == old(store.nextId)
      ensures OnePendingPerEmployee(old(store.items)) ==> OnePendingPerEmployee(store.items)
    {
      var fetched := store.GetApprovalItem(item.id);
      if fetched.None? {
        return Rejected(InvalidId);
      }
      if fetched.value.approvalStatus != Some(StatusPending) {
        return Rejected(CannotCancel);
      }
      r := store.DeleteApprovalItem(item.id);
    }
  }
}
