/** The background reconciliation (`AzureADPollingService`): on every timer
    tick it reads the pending Approval items whose directory update is
    complete and marks each one APPROVED once the directory shows the
    employee's manager as the requested one. */
module AzureADPolling {
  import opened Wrappers
  import opened Strings
  import opened KeyValues
  import opened ApprovalItems
  import opened SharePoint
  import opened MicrosoftGraph

  /** The counter is reset once it exceeds this value. */
  const ResetThreshold := 1000000000

  /** The task number of the next run: the counter, reset when above the
      threshold, plus one; from a non-negative counter it stays in
      1..ResetThreshold + 1, so the 64-bit counter never overflows. */
  function NextCount(executionCount: int): (r: int)
    ensures r <= ResetThreshold + 1
    ensures executionCount >= 0 ==> r >= 1
    ensures executionCount <= ResetThreshold ==> r == executionCount + 1
    ensures executionCount > ResetThreshold ==> r == 1
  {
    if executionCount > ResetThreshold then 1 else executionCount + 1
  }

  /** The stored item after the service marks it approved on the given day;
      the comment is not touched. */
  function Approved(x: ApprovalItem, reviewDate: string): ApprovalItem {
    x.(approvalStatus := Some(StatusApproved), reviewDate := Some(reviewDate))
  }

  /** The directory shows the row's employee reporting to the requested new manager. */
  predicate RowMatches(m: Managers, row: ApprovalItem) {
    Known(m, row.employeeEmail)
    && LowerEquals(m[ToLower(row.employeeEmail.value)], row.toManagerEmail) == Some(true)
  }

  /** The row can be processed without an exception: the employee is in the
      directory, has a manager, the row names a new manager, and a matching
      row is still in the list. */
  predicate RowChecks(m: Managers, items: map<int, seq<KeyValue>>, row: ApprovalItem) {
    Known(m, row.employeeEmail)
    && LowerEquals(m[ToLower(row.employeeEmail.value)], row.toManagerEmail).Some?
    && (RowMatches(m, row) ==> row.id in items)
  }

  /** One iteration of the loop over the rows. */
  function RowResult(m: Managers, items: map<int, seq<KeyValue>>, row: ApprovalItem, today: string)
    : (r: (map<int, seq<KeyValue>>, Outcome))
    ensures r.0.Keys == items.Keys
    ensures r.1 == Ok <==> RowChecks(m, items, row)
    ensures r.1 == Ok || r.1.Failed?
    ensures r.1 != Ok ==> r.0 == items
    ensures (r.1 == Ok && RowMatches(m, row)) ==> Stored(r.0, row.id) == Approved(Stored(items, row.id), today)
    ensures forall id :: (id in items && (id != row.id || !RowMatches(m, row))) ==> r.0[id] == items[id]
  {
    if !Known(m, row.employeeEmail) then (items, Failed(NotFound))
    else
      var same := LowerEquals(m[ToLower(row.employeeEmail.value)], row.toManagerEmail);
      if same.None? then (items, Failed(NullReference))
      else if !same.value then (items, Ok)
      else if row.id !in items then (items, Failed(ItemMissing))
      else
        UpdateEffect(items[row.id], row.id, StatusApproved, None, today);
        (items[row.id := ApplyValues(items[row.id], UpdateValues(StatusApproved, None, today))], Ok)
  }

  /** The list after one pass over `rows`, in order; an exception ends the pass. */
  function ReconcileResult(m: Managers, items: map<int, seq<KeyValue>>, rows: seq<ApprovalItem>, today: string)
    : (map<int, seq<KeyValue>>, Outcome)
    decreases |rows|
  {
    if rows == [] then (items, Ok)
    else
      var prev := ReconcileResult(m, items, rows[..|rows| - 1], today);
      if prev.1 != Ok then prev
      else RowResult(m, prev.0, rows[|rows| - 1], today)
  }

  /** Once a row has failed, the rest of the pass changes nothing. */
  lemma {:induction false} ReconcileStops(m: Managers, items: map<int, seq<KeyValue>>, rows: seq<ApprovalItem>,
                                          k: nat, today: string)
    requires k <= |rows| && ReconcileResult(m, items, rows[..k], today).1 != Ok
    ensures ReconcileResult(m, items, rows, today) == ReconcileResult(m, items, rows[..k], today)
    decreases |rows| - k
  {
    if k < |rows| {
      assert rows[..k + 1][..k] == rows[..k];
      ReconcileStops(m, items, rows, k + 1, today);
    } else {
      assert rows[..k] == rows;
    }
  }

  /** Some row with this id matches the directory. */
  ghost predicate MatchedRow(m: Managers, rows: seq<ApprovalItem>, id: int) {
    exists i :: 0 <= i < |rows| && rows[i].id == id && RowMatches(m, rows[i])
  }

  /** A pass creates and deletes nothing; an item either stays as it was or is
      approved because a row with its id matched; the pass succeeds exactly when
      every row can be processed, and then every matching row's item is approved. */
  lemma {:induction false} ReconcileEffect(m: Managers, items: map<int, seq<KeyValue>>, rows: seq<ApprovalItem>,
                                           today: string)
    ensures var r := ReconcileResult(m, items, rows, today);
      && r.0.Keys == items.Keys
      && (r.1 == Ok || r.1.Failed?)
      && (forall id :: id in items ==>
            (Stored(r.0, id) == Stored(items, id)
             || (Stored(r.0, id) == Approved(Stored(items, id), today) && MatchedRow(m, rows, id))))
      && (r.1 == Ok <==> forall i :: 0 <= i < |rows| ==> RowChecks(m, items, rows[i]))
      && (r.1 == Ok ==> forall i :: (0 <= i < |rows| && RowMatches(m, rows[i])) ==>
            Stored(r.0, rows[i].id) == Approved(Stored(items, rows[i].id), today))
    decreases |rows|
  {
    if rows != [] {
      var n := |rows|;
      var init := rows[..n - 1];
      var last := rows[n - 1];
      ReconcileEffect(m, items, init, today);
      var prev := ReconcileResult(m, items, init, today);
      assert forall i :: 0 <= i < n - 1 ==> init[i] == rows[i];
      forall id | MatchedRow(m, init, id) ensures MatchedRow(m, rows, id) {
        var i :| 0 <= i < |init| && init[i].id == id && RowMatches(m, init[i]);
        assert rows[i] == init[i];
      }
      if prev.1 == Ok {
        var step := RowResult(m, prev.0, last, today);
        assert RowChecks(m, prev.0, last) == RowChecks(m, items, last);
        forall id | id in items
          ensures Stored(step.0, id) == Stored(items, id)
                  || (Stored(step.0, id) == Approved(Stored(items, id), today) && MatchedRow(m, rows, id))
        {
          if id == last.id && RowMatches(m, last) && step.1 == Ok {
            assert rows[n - 1].id == id;
          } else {
            assert step.0[id] == prev.0[id];
          }
        }
      }
    }
  }

  /** For the rows the service reads (pending, distinct ids), a successful pass
      approves exactly the rows whose manager change the directory shows. */
  lemma ReconcileApproves(m: Managers, items: map<int, seq<KeyValue>>, rows: seq<ApprovalItem>, today: string)
    requires forall i :: 0 <= i < |rows| ==>
      rows[i].id in items && Stored(items, rows[i].id).approvalStatus == Some(StatusPending)
    requires forall i, j :: 0 <= i < j < |rows| ==> rows[i].id != rows[j].id
    requires ReconcileResult(m, items, rows, today).1 == Ok
    ensures var r := ReconcileResult(m, items, rows, today);
      forall i :: 0 <= i < |rows| ==> (rows[i].id in r.0
        && (Stored(r.0, rows[i].id).approvalStatus == Some(StatusApproved) <==> RowMatches(m, rows[i])))
  {
    ReconcileEffect(m, items, rows, today);
    forall i | 0 <= i < |rows| && !RowMatches(m, rows[i])
      ensures !MatchedRow(m, rows, rows[i].id)
    {
      assert forall j :: 0 <= j < |rows| && rows[j].id == rows[i].id ==> j == i;
    }
  }

  /** `ReconcileApproves` for the rows the service reads from the list. */
  lemma PassApproves(store: ApprovalList, m: Managers, today: string)
    requires store.Valid()
    ensures var rows := store.GetApprovalPendingItemLocalADSyncCompleted();
      var r := ReconcileResult(m, store.items, rows, today);
      r.1 == Ok ==> forall i :: 0 <= i < |rows| ==> (rows[i].id in r.0
        && (Stored(r.0, rows[i].id).approvalStatus == Some(StatusApproved) <==> RowMatches(m, rows[i])))
  {
    var rows := store.GetApprovalPendingItemLocalADSyncCompleted();
    if ReconcileResult(m, store.items, rows, today).1 == Ok {
      assert forall i, j :: 0 <= i < j < |rows| ==> rows[i].id != rows[j].id;
      ReconcileApproves(m, store.items, rows, today);
    }
  }

  class AzureADPollingService {
    var executionCount: int
    const updateAzureAD: bool
    const store: ApprovalList
    const directory: Directory

    ghost predicate Valid()
      reads this, store, directory
    {
      store.Valid() && directory.Valid() && 0 <= executionCount <= ResetThreshold + 1
    }

    constructor (updateAzureAD: bool, store: ApprovalList, directory: Directory)
      requires store.Valid() && directory.Valid()
      ensures Valid() && executionCount == 0
      ensures this.updateAzureAD == updateAzureAD && this.store == store && this.directory == directory
    {
      executionCount := 0;
      this.updateAzureAD := updateAzureAD;
      this.store := store;
      this.directory := directory;
    }

    /** One timer tick. When the application updates the directory itself the
        tick does nothing; otherwise it numbers the run and makes one pass over
        the pending, directory-synchronised Approval items. An exception ends the
        pass and is only logged; the outcome reports it. */
    method DoWork(today: string) returns (r: Outcome)
      requires Valid()
      modifies this, store
      ensures Valid()
      ensures updateAzureAD ==> r == Ok && unchanged(this, store)
      ensures !updateAzureAD ==>
        var rows := old(store.GetApprovalPendingItemLocalADSyncCompleted());
        && executionCount == NextCount(old(executionCount))
        && store.nextId == old(store.nextId)
        && (store.items, r) == ReconcileResult(directory.managerOf, old(store.items), rows, today)
        && (r == Ok ==> forall i :: 0 <= i < |rows| ==> (rows[i].id in store.items
              && (Stored(store.items, rows[i].id).approvalStatus == Some(StatusApproved)
                  <==> RowMatches(directory.managerOf, rows[i]))))
    {
      if updateAzureAD {
        return Ok;
      }
      if executionCount > ResetThreshold {
        executionCount := 0;
      }
      executionCount := executionCount + 1;
      var rows := store.GetApprovalPendingItemLocalADSyncCompleted();
      PassApproves(store, directory.managerOf, today);
      r := ReconcileRows(rows, today);
    }

    /** The loop over the rows, in order; it stops at the first exception. */
    method ReconcileRows(rows: seq<ApprovalItem>, today: string) returns (r: Outcome)
      requires Valid()
      modifies store
      ensures Valid() && store.nextId == old(store.nextId)
      ensures (store.items, r) == ReconcileResult(directory.managerOf, old(store.items), rows, today)
    {
      ghost var items0 := store.items;
      r := Ok;
      var i := 0;
      while i < |rows|
        invariant 0 <= i <= |rows|
        invariant store.Valid() && store.nextId == old(store.nextId)
        invariant r == Ok
        invariant (store.items, r) == ReconcileResult(directory.managerOf, items0, rows[..i], today)
      {
        assert rows[..i + 1][..i] == rows[..i];
        r := ProcessRow(rows[i], today);
        if r != Ok {
          ReconcileStops(directory.managerOf, items0, rows, i + 1, today);
          return;
        }
        i := i + 1;
      }
      assert rows[..|rows|] == rows;
    }

    /** One row: look the employee up, compare the manager with the requested
        one, and approve the item when they agree. */
    method ProcessRow(row: ApprovalItem, today: string) returns (r: Outcome)
      requires Valid()
      modifies store
      ensures Valid() && store.nextId == old(store.nextId)
      ensures (store.items, r) == RowResult(directory.managerOf, old(store.items), row, today)
    {
      var data := directory.ManagerEmailOf(row.employeeEmail);
      if data.Failure? {
        return Failed(data.message);
      }
      var same := LowerEquals(data.value, row.toManagerEmail);
      if same.None? {
        return Failed(NullReference);
      }
      if same.value {
        r := store.UpdateApprovalItem(row.id, StatusApproved, None, today);
      } else {
        r := Ok;
      }
    }
  }
}
