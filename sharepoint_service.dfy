/** The approval list kept in SharePoint, as `SharePointService` uses it: items
    are stored as the raw field values written to the list, keyed by the id the
    list assigns. SharePoint ids increase with creation, so "newest first" is
    "highest id first". Searches match field values exactly. */
module SharePoint {
  import opened Wrappers
  import opened Strings
  import opened KeyValues
  import opened ApprovalItems

  /** The page length and result cap of every search. */
  const PageLength := 1000

  /** What the list manager reports for an update or delete of an unknown id. */
  const ItemMissing := "Item does not exist"

  /** The item as the store holds it. */
  function Stored(items: map<int, seq<KeyValue>>, id: int): ApprovalItem
    requires id in items
  {
    FromSPListItem(SPListItem(id, items[id]))
  }

  /** An item matches a search when every search key reads the searched value. */
  predicate MatchesAll(f: seq<KeyValue>, params: seq<KeyValue>) {
    forall p :: p in params ==> FirstValue(f, p.key) == p.value
  }

  /** The ids in 1..n of the items that match, highest (newest) first. */
  function MatchingIds(items: map<int, seq<KeyValue>>, n: int, params: seq<KeyValue>): (r: seq<int>)
    ensures forall i :: 0 <= i < |r| ==> 1 <= r[i] <= n && r[i] in items && MatchesAll(items[r[i]], params)
    ensures forall i, j :: 0 <= i < j < |r| ==> r[i] > r[j]
    ensures forall id :: 1 <= id <= n && id in items && MatchesAll(items[id], params) ==> id in r
    decreases n
  {
    if n < 1 then []
    else (if n in items && MatchesAll(items[n], params) then [n] else []) + MatchingIds(items, n - 1, params)
  }

  function Take<T>(s: seq<T>, n: nat): (r: seq<T>)
    ensures |r| <= n && (|s| <= n ==> r == s)
    ensures |r| == if |s| <= n then |s| else n
    ensures forall i :: 0 <= i < |r| ==> r[i] == s[i]
  {
    if |s| <= n then s else s[..n]
  }

  /** `ApprovalItem.FromSPListItem` over each listed id. */
  function ToApprovalItems(items: map<int, seq<KeyValue>>, ids: seq<int>): (r: seq<ApprovalItem>)
    requires forall i :: 0 <= i < |ids| ==> ids[i] in items
    ensures |r| == |ids|
    ensures forall i :: 0 <= i < |r| ==> r[i] == FromSPListItem(SPListItem(ids[i], items[ids[i]]))
  {
    seq(|ids|, i requires 0 <= i < |ids| => FromSPListItem(SPListItem(ids[i], items[ids[i]])))
  }

  /** The parameters of the three typed pending searches: the approval type,
      one further field, and the PENDING status. */
  function PendingParams(approvalType: string, key: string, value: Option<string>): seq<KeyValue> {
    [KeyValue("approvalType", Some(approvalType)), KeyValue(key, value),
     KeyValue("approvalStatus", Some(StatusPending))]
  }
  function EmployeePendingParams(employeeEmail: Option<string>): seq<KeyValue> {
    [KeyValue("employeeEmail", employeeEmail), KeyValue("approvalStatus", Some(StatusPending))]
  }
  function EmployeeManagerPendingParams(employeeEmail: Option<string>, managerEmail: Option<string>): seq<KeyValue> {
    [KeyValue("employeeEmail", employeeEmail), KeyValue("managerEmail", managerEmail),
     KeyValue("approvalStatus", Some(StatusPending))]
  }

  /** Every item a typed pending search lists has that type, the searched
      field value and the PENDING status. */
  lemma PendingListing(l: seq<ApprovalItem>, items: map<int, seq<KeyValue>>,
                       approvalType: string, key: string, value: Option<string>)
    requires forall i :: 0 <= i < |l| ==> (l[i].id in items
      && l[i] == FromSPListItem(SPListItem(l[i].id, items[l[i].id]))
      && MatchesAll(items[l[i].id], PendingParams(approvalType, key, value)))
    ensures forall i :: 0 <= i < |l| ==> (l[i].approvalType == Some(approvalType)
      && l[i].approvalStatus == Some(StatusPending) && FirstValue(items[l[i].id], key) == value)
  {
    var ps := PendingParams(approvalType, key, value);
    assert ps[0] in ps && ps[1] in ps && ps[2] in ps;
    forall i | 0 <= i < |l|
      ensures l[i].approvalType == Some(approvalType) && l[i].approvalStatus == Some(StatusPending)
        && FirstValue(items[l[i].id], key) == value
    {
      var f := items[l[i].id];
      assert FirstValue(f, ps[0].key) == ps[0].value;
      assert FirstValue(f, ps[1].key) == ps[1].value;
      assert FirstValue(f, ps[2].key) == ps[2].value;
    }
  }

  /** A stored item is pending, has the given type and the given field value. */
  ghost predicate PendingWith(f: seq<KeyValue>, approvalType: string, key: string, value: Option<string>) {
    FirstValue(f, "approvalType") == Some(approvalType) && FirstValue(f, key) == value
    && FirstValue(f, "approvalStatus") == Some(StatusPending)
  }

  lemma PendingMatches(items: map<int, seq<KeyValue>>, approvalType: string, key: string, value: Option<string>)
    ensures forall id :: id in items ==>
      (MatchesAll(items[id], PendingParams(approvalType, key, value)) <==> PendingWith(items[id], approvalType, key, value))
  {
    var ps := PendingParams(approvalType, key, value);
    assert ps[0] in ps && ps[1] in ps && ps[2] in ps;
  }

  /** The item is listed, or the listing is a full page of newer items. */
  ghost predicate ListedOrCut(r: seq<ApprovalItem>, id: int) {
    (exists i :: 0 <= i < |r| && r[i].id == id)
    || (|r| == PageLength && forall i :: 0 <= i < |r| ==> r[i].id > id)
  }

  lemma EmployeePendingMatch(f: seq<KeyValue>, employeeEmail: Option<string>)
    ensures MatchesAll(f, EmployeePendingParams(employeeEmail)) <==> PendingFor(f, employeeEmail)
  {
    var ps := EmployeePendingParams(employeeEmail);
    assert ps[0] in ps && ps[1] in ps;
  }

  lemma EmployeeManagerPendingMatch(f: seq<KeyValue>, employeeEmail: Option<string>, managerEmail: Option<string>)
    ensures MatchesAll(f, EmployeeManagerPendingParams(employeeEmail, managerEmail))
      <==> PendingFor(f, employeeEmail) && FirstValue(f, "managerEmail") == managerEmail
  {
    var ps := EmployeeManagerPendingParams(employeeEmail, managerEmail);
    assert ps[0] in ps && ps[1] in ps && ps[2] in ps;
  }

  /** A stored item is pending and belongs to the given employee. */
  ghost predicate PendingFor(f: seq<KeyValue>, employeeEmail: Option<string>) {
    FirstValue(f, "employeeEmail") == employeeEmail && FirstValue(f, "approvalStatus") == Some(StatusPending)
  }

  /** A stored item is pending and carries both this employee and this manager. */
  ghost predicate PendingForManager(f: seq<KeyValue>, employeeEmail: Option<string>, managerEmail: Option<string>) {
    PendingFor(f, employeeEmail) && FirstValue(f, "managerEmail") == managerEmail
  }

  /** Two distinct pending items carry both this employee and this manager. */
  ghost predicate TwoPendingFor(items: map<int, seq<KeyValue>>, employeeEmail: Option<string>, managerEmail: Option<string>) {
    exists a, b :: (a in items && b in items && a != b
      && PendingForManager(items[a], employeeEmail, managerEmail)
      && PendingForManager(items[b], employeeEmail, managerEmail))
  }

  /** Over ids `1..n`, the descending search finds two or more items exactly
      when two distinct items match. */
  lemma TwoMatches(items: map<int, seq<KeyValue>>, n: int, employeeEmail: Option<string>, managerEmail: Option<string>)
    requires forall id :: id in items ==> 1 <= id <= n
    ensures |MatchingIds(items, n, EmployeeManagerPendingParams(employeeEmail, managerEmail))| > 1
      <==> TwoPendingFor(items, employeeEmail, managerEmail)
  {
    var params := EmployeeManagerPendingParams(employeeEmail, managerEmail);
    var ids := MatchingIds(items, n, params);
    forall id | id in items
      ensures MatchesAll(items[id], params) <==> PendingForManager(items[id], employeeEmail, managerEmail)
    {
      EmployeeManagerPendingMatch(items[id], employeeEmail, managerEmail);
    }
    if |ids| > 1 {
      assert ids[0] != ids[1] && ids[0] in items && ids[1] in items;
      assert PendingForManager(items[ids[0]], employeeEmail, managerEmail);
      assert PendingForManager(items[ids[1]], employeeEmail, managerEmail);
    } else {
      forall a, b | (a in items && b in items
        && PendingForManager(items[a], employeeEmail, managerEmail)
        && PendingForManager(items[b], employeeEmail, managerEmail))
        ensures a == b
      {
        assert a in ids && b in ids;
      }
    }
  }

  /** The duplicate-pending guard's intent: no employee has two pending items. */
  ghost predicate OnePendingPerEmployee(items: map<int, seq<KeyValue>>) {
    forall a, b :: a in items && b in items && a != b && FirstValue(items[a], "approvalStatus") == Some(StatusPending)
      ==> !PendingFor(items[b], FirstValue(items[a], "employeeEmail"))
  }

  /** The fields `UpdateApprovalItem` sends: status and review date always, the
      comment only when it is neither null nor empty. */
  function UpdateValues(approvalStatus: string, comment: Option<string>, reviewDate: string): seq<KeyValue> {
    [KeyValue("approvalStatus", Some(approvalStatus)), KeyValue("reviewDate", Some(reviewDate))]
      + (if IsNullOrEmpty(comment) then [] else [KeyValue("comment", comment)])
  }

  lemma SetStatusView(f: seq<KeyValue>, id: int, v: Option<string>)
    ensures FromSPListItem(SPListItem(id, SetField(f, "approvalStatus", v)))
      == FromSPListItem(SPListItem(id, f)).(approvalStatus := v)
  {
    SetFieldOther(f, "approvalStatus", v, "approvalType");
    SetFieldOther(f, "approvalStatus", v, "employeeEmail");
    SetFieldOther(f, "approvalStatus", v, "employeeName");
    SetFieldOther(f, "approvalStatus", v, "employeeJobTitle");
    SetFieldOther(f, "approvalStatus", v, "employeeDepartment");
    SetFieldOther(f, "approvalStatus", v, "managerEmail");
    SetFieldOther(f, "approvalStatus", v, "managerName");
    SetFieldOther(f, "approvalStatus", v, "toManager");
    SetFieldOther(f, "approvalStatus", v, "toManagerName");
    SetFieldOther(f, "approvalStatus", v, "requestorEmail");
    SetFieldOther(f, "approvalStatus", v, "requestorName");
    SetFieldOther(f, "approvalStatus", v, "localADSyncStatus");
    SetFieldOther(f, "approvalStatus", v, "comment");
    SetFieldOther(f, "approvalStatus", v, "reviewDate");
    SetFieldOther(f, "approvalStatus", v, "Created");
    SetFieldOther(f, "approvalStatus", v, "Modified");
  }

  lemma SetReviewDateView(f: seq<KeyValue>, id: int, v: Option<string>)
    ensures FromSPListItem(SPListItem(id, SetField(f, "reviewDate", v)))
      == FromSPListItem(SPListItem(id, f)).(reviewDate := v)
  {
    SetFieldOther(f, "reviewDate", v, "approvalType");
    SetFieldOther(f, "reviewDate", v, "employeeEmail");
    SetFieldOther(f, "reviewDate", v, "employeeName");
    SetFieldOther(f, "reviewDate", v, "employeeJobTitle");
    SetFieldOther(f, "reviewDate", v, "employeeDepartment");
    SetFieldOther(f, "reviewDate", v, "managerEmail");
    SetFieldOther(f, "reviewDate", v, "managerName");
    SetFieldOther(f, "reviewDate", v, "toManager");
    SetFieldOther(f, "reviewDate", v, "toManagerName");
    SetFieldOther(f, "reviewDate", v, "requestorEmail");
    SetFieldOther(f, "reviewDate", v, "requestorName");
    SetFieldOther(f, "reviewDate", v, "approvalStatus");
    SetFieldOther(f, "reviewDate", v, "localADSyncStatus");
    SetFieldOther(f, "reviewDate", v, "comment");
    SetFieldOther(f, "reviewDate", v, "Created");
    SetFieldOther(f, "reviewDate", v, "Modified");
  }

  lemma SetCommentView(f: seq<KeyValue>, id: int, v: Option<string>)
    ensures FromSPListItem(SPListItem(id, SetField(f, "comment", v)))
      == FromSPListItem(SPListItem(id, f)).(comment := v)
  {
    SetFieldOther(f, "comment", v, "approvalType");
    SetFieldOther(f, "comment", v, "employeeEmail");
    SetFieldOther(f, "comment", v, "employeeName");
    SetFieldOther(f, "comment", v, "employeeJobTitle");
    SetFieldOther(f, "comment", v, "employeeDepartment");
    SetFieldOther(f, "comment", v, "managerEmail");
    SetFieldOther(f, "comment", v, "managerName");
    SetFieldOther(f, "comment", v, "toManager");
    SetFieldOther(f, "comment", v, "toManagerName");
    SetFieldOther(f, "comment", v, "requestorEmail");
    SetFieldOther(f, "comment", v, "requestorName");
    SetFieldOther(f, "comment", v, "approvalStatus");
    SetFieldOther(f, "comment", v, "localADSyncStatus");
    SetFieldOther(f, "comment", v, "reviewDate");
    SetFieldOther(f, "comment", v, "Created");
    SetFieldOther(f, "comment", v, "Modified");
  }

  /** Seen as an `ApprovalItem`, an update overwrites the status and the review
      date, overwrites the comment only when one is given, and keeps every other
      property. */
  lemma UpdateEffect(f: seq<KeyValue>, id: int, approvalStatus: string, comment: Option<string>, reviewDate: string)
    ensures var before := FromSPListItem(SPListItem(id, f));
      FromSPListItem(SPListItem(id, ApplyValues(f, UpdateValues(approvalStatus, comment, reviewDate))))
      == before.(approvalStatus := Some(approvalStatus), reviewDate := Some(reviewDate),
                 comment := if IsNullOrEmpty(comment) then before.comment else comment)
  {
    var vs := UpdateValues(approvalStatus, comment, reviewDate);
    var s1 := SetField(f, "approvalStatus", Some(approvalStatus));
    var s2 := SetField(s1, "reviewDate", Some(reviewDate));
    assert vs[..1][..0] == [] && vs[..2][..1] == vs[..1];
    assert ApplyValues(f, vs[..1]) == s1;
    assert ApplyValues(f, vs[..2]) == s2;
    SetStatusView(f, id, Some(approvalStatus));
    SetReviewDateView(s1, id, Some(reviewDate));
    if IsNullOrEmpty(comment) {
      assert vs == vs[..2];
    } else {
      assert vs[..|vs| - 1] == vs[..2];
      assert ApplyValues(f, vs) == SetField(s2, "comment", comment);
      SetCommentView(s2, id, comment);
    }
  }

  /** The sync query's key is never written by this service: an item added
      through `ToKeyValuePairs`, and then updated any number of times, reads
      null under `LocalADSyncStatus`, so the sync query never lists it. */
  lemma {:induction false} WrittenItemsNotSyncCompleted(x: ApprovalItem, updates: seq<(string, Option<string>, string)>)
    ensures FirstValue(Updated(ToKeyValuePairs(x), updates), "LocalADSyncStatus").None?
    ensures !PendingWith(Updated(ToKeyValuePairs(x), updates), TypeApproval, "LocalADSyncStatus", Some("Completed"))
    decreases |updates|
  {
    var kvs := ToKeyValuePairs(x);
    if updates == [] {
      assert forall i :: 0 <= i < |kvs| ==> kvs[i].key != "LocalADSyncStatus" by {
        forall i | 0 <= i < |kvs| ensures kvs[i].key != "LocalADSyncStatus" {
          assert kvs[i].key == MappedKeys[i];
          assert MappedKeys[i][0] != 'L';
        }
      }
      FirstValueMissing(kvs, "LocalADSyncStatus");
    } else {
      var u := updates[|updates| - 1];
      var rest := updates[..|updates| - 1];
      WrittenItemsNotSyncCompleted(x, rest);
      var vs := UpdateValues(u.0, u.1, u.2);
      ApplyValuesLookup(Updated(kvs, rest), vs, "LocalADSyncStatus");
      assert !HasKey(vs, "LocalADSyncStatus") by {
        forall i | 0 <= i < |vs| ensures vs[i].key != "LocalADSyncStatus" {
          assert vs[i].key[0] != 'L';
        }
      }
    }
  }

  /** The fields after a sequence of `UpdateApprovalItem` calls, each given as
      (status, comment, review date). */
  function Updated(f: seq<KeyValue>, updates: seq<(string, Option<string>, string)>): seq<KeyValue>
    decreases |updates|
  {
    if updates == [] then f
    else
      var u := updates[|updates| - 1];
      ApplyValues(Updated(f, updates[..|updates| - 1]), UpdateValues(u.0, u.1, u.2))
  }

  /** `after` is `before` with one new item per element of `xs`, stored under
      consecutive ids from `next` on, in order. */
  ghost predicate Appended(before: map<int, seq<KeyValue>>, next: int, after: map<int, seq<KeyValue>>, xs: seq<ApprovalItem>) {
    && (forall id :: id in after <==> id in before || next <= id < next + |xs|)
    && (forall id :: id in before ==> after[id] == before[id])
    && (forall k :: 0 <= k < |xs| ==> after[next + k] == ToKeyValuePairs(xs[k]))
  }

  /** Two batch additions in a row add the concatenation. */
  lemma AppendedConcat(b: map<int, seq<KeyValue>>, next: int, mid: map<int, seq<KeyValue>>,
                       after: map<int, seq<KeyValue>>, xs: seq<ApprovalItem>, ys: seq<ApprovalItem>)
    requires forall id :: id in b ==> id < next
    requires Appended(b, next, mid, xs) && Appended(mid, next + |xs|, after, ys)
    ensures Appended(b, next, after, xs + ys)
  {
    forall k | 0 <= k < |xs + ys| ensures after[next + k] == ToKeyValuePairs((xs + ys)[k]) {
      if k < |xs| {
        assert next + k in mid;
      } else {
        assert after[next + |xs| + (k - |xs|)] == ToKeyValuePairs(ys[k - |xs|]);
      }
    }
  }

  /** What `GetApprovalItem` hands the controller, in C# terms. */
  datatype Fetched = Item(value: ApprovalItem) | Null | Thrown

  /** As written, `GetApprovalItem` passes the list manager's answer straight to
      `FromSPListItem`, which dereferences it and always builds an object: for an
      unknown id it throws (in the list manager or on the null it returns), and
      it never yields the null the controllers test for. */
  function GetApprovalItemAsWritten(items: map<int, seq<KeyValue>>, id: int): (r: Fetched)
    ensures r != Null
    ensures r.Thrown? <==> id !in items
  {
    if id in items then Item(FromSPListItem(SPListItem(id, items[id]))) else Thrown
  }

  class ApprovalList {
    var items: map<int, seq<KeyValue>>
    var nextId: int

    ghost predicate Valid()
      reads this
    {
      nextId >= 1 && forall id :: id in items ==> 1 <= id < nextId
    }

    constructor ()
      ensures Valid() && items == map[] && nextId == 1
    {
      items := map[];
      nextId := 1;
    }

    /** The ids a search lists: at most one page, newest first, and every
        matching item is either listed or older than everything listed. */
    function SearchIds(params: seq<KeyValue>): (ids: seq<int>)
      reads this
      ensures |ids| <= PageLength
      ensures forall i :: 0 <= i < |ids| ==> ids[i] in items && MatchesAll(items[ids[i]], params)
      ensures forall i, j :: 0 <= i < j < |ids| ==> ids[i] > ids[j]
      ensures forall id :: 1 <= id < nextId && id in items && MatchesAll(items[id], params) ==>
        id in ids || (|ids| == PageLength && forall i :: 0 <= i < |ids| ==> ids[i] > id)
    {
      var all := MatchingIds(items, nextId - 1, params);
      var ids := Take(all, PageLength);
      assert forall id :: id in all ==> id in ids || (|ids| == PageLength && forall i :: 0 <= i < |ids| ==> ids[i] > id) by {
        forall id | id in all
          ensures id in ids || (|ids| == PageLength && forall i :: 0 <= i < |ids| ==> ids[i] > id)
        {
          var k :| 0 <= k < |all| && all[k] == id;
          if k < |ids| {
            assert ids[k] == id;
          }
        }
      }
      ids
    }

    /** The listed items, as `ApprovalItem`s, in the order of `SearchIds`. */
    function Search(params: seq<KeyValue>): (r: seq<ApprovalItem>)
      reads this
      ensures |r| == |SearchIds(params)|
      ensures forall i :: 0 <= i < |r| ==> (r[i].id == SearchIds(params)[i]
        && r[i] == FromSPListItem(SPListItem(r[i].id, items[r[i].id])))
    {
      ToApprovalItems(items, SearchIds(params))
    }

    /** Pending Approval items the given user requested, newest first. */
    function GetInitiatedPendingApprovalItems(requestorEmail: Option<string>): (r: seq<ApprovalItem>)
      requires Valid()
      reads this
      ensures |r| <= PageLength
      ensures forall i :: 0 <= i < |r| ==> (r[i].id in items && r[i] == Stored(items, r[i].id)
        && r[i].approvalType == Some(TypeApproval) && r[i].requestorEmail == requestorEmail
        && r[i].approvalStatus == Some(StatusPending))
      ensures forall i, j :: 0 <= i < j < |r| ==> r[i].id > r[j].id
      ensures forall id :: id in items && PendingWith(items[id], TypeApproval, "requestorEmail", requestorEmail) ==> ListedOrCut(r, id)
    {
      PendingMatches(items, TypeApproval, "requestorEmail", requestorEmail);
      var r := Search(PendingParams(TypeApproval, "requestorEmail", requestorEmail));
      PendingListing(r, items, TypeApproval, "requestorEmail", requestorEmail);
      r
    }

    /** Pending Approval items awaiting the given current manager, newest first. */
    function GetApprovalItemsPendingAction(managerEmail: Option<string>): (r: seq<ApprovalItem>)
      requires Valid()
      reads this
      ensures |r| <= PageLength
      ensures forall i :: 0 <= i < |r| ==> (r[i].id in items && r[i] == Stored(items, r[i].id)
        && r[i].approvalType == Some(TypeApproval) && r[i].managerEmail == managerEmail
        && r[i].approvalStatus == Some(StatusPending))
      ensures forall i, j :: 0 <= i < j < |r| ==> r[i].id > r[j].id
      ensures forall id :: id in items && PendingWith(items[id], TypeApproval, "managerEmail", managerEmail) ==> ListedOrCut(r, id)
    {
      PendingMatches(items, TypeApproval, "managerEmail", managerEmail);
      var r := Search(PendingParams(TypeApproval, "managerEmail", managerEmail));
      PendingListing(r, items, TypeApproval, "managerEmail", managerEmail);
      r
    }

    /** Pending Acceptance items awaiting the given target manager, newest first. */
    function GetApprovalItemsPendingAcceptance(toManagerEmail: Option<string>): (r: seq<ApprovalItem>)
      requires Valid()
      reads this
      ensures |r| <= PageLength
      ensures forall i :: 0 <= i < |r| ==> (r[i].id in items && r[i] == Stored(items, r[i].id)
        && r[i].approvalType == Some(TypeAcceptance) && r[i].toManagerEmail == toManagerEmail
        && r[i].approvalStatus == Some(StatusPending))
      ensures forall i, j :: 0 <= i < j < |r| ==> r[i].id > r[j].id
      ensures forall id :: id in items && PendingWith(items[id], TypeAcceptance, "toManager", toManagerEmail) ==> ListedOrCut(r, id)
    {
      PendingMatches(items, TypeAcceptance, "toManager", toManagerEmail);
      var r := Search(PendingParams(TypeAcceptance, "toManager", toManagerEmail));
      PendingListing(r, items, TypeAcceptance, "toManager", toManagerEmail);
      r
    }

    /** Pending Approval items whose `LocalADSyncStatus` field reads "Completed",
        newest first. */
    function GetApprovalPendingItemLocalADSyncCompleted(): (r: seq<ApprovalItem>)
      requires Valid()
      reads this
      ensures |r| <= PageLength
      ensures forall i :: 0 <= i < |r| ==> (r[i].id in items && r[i] == Stored(items, r[i].id)
        && r[i].approvalType == Some(TypeApproval) && r[i].approvalStatus == Some(StatusPending)
        && FirstValue(items[r[i].id], "LocalADSyncStatus") == Some("Completed"))
      ensures forall i, j :: 0 <= i < j < |r| ==> r[i].id > r[j].id
      ensures forall id :: (id in items && PendingWith(items[id], TypeApproval, "LocalADSyncStatus", Some("Completed"))
        ==> ListedOrCut(r, id))
    {
      PendingMatches(items, TypeApproval, "LocalADSyncStatus", Some("Completed"));
      var r := Search(PendingParams(TypeApproval, "LocalADSyncStatus", Some("Completed")));
      PendingListing(r, items, TypeApproval, "LocalADSyncStatus", Some("Completed"));
      r
    }

    /** True iff some item of the employee is pending, whatever its type. */
    function IsEmployeePendingRequestExists(employeeEmail: Option<string>): (b: bool)
      requires Valid()
      reads this
      ensures b <==> exists id :: id in items && PendingFor(items[id], employeeEmail)
    {
      var ids := MatchingIds(items, nextId - 1, EmployeePendingParams(employeeEmail));
      assert forall id :: id in items ==>
        (MatchesAll(items[id], EmployeePendingParams(employeeEmail)) <==> PendingFor(items[id], employeeEmail)) by {
        forall id | id in items {
          EmployeePendingMatch(items[id], employeeEmail);
        }
      }
      if |ids| > 0 then
        assert PendingFor(items[ids[0]], employeeEmail);
        true
      else
        assert forall id :: (id in items && PendingFor(items[id], employeeEmail) ==> id in ids);
        false
    }

    /** True iff two or more pending items carry both this employee and this manager. */
    function IsManagerHasMultiplePendingRequestForEmployee(employeeEmail: Option<string>, managerEmail: Option<string>): (b: bool)
      requires Valid()
      reads this
      ensures b <==> TwoPendingFor(items, employeeEmail, managerEmail)
    {
      TwoMatches(items, nextId - 1, employeeEmail, managerEmail);
      |MatchingIds(items, nextId - 1, EmployeeManagerPendingParams(employeeEmail, managerEmail))| > 1
    }

    /** The corrected lookup: the item stored under the id, or null. */
    function GetApprovalItem(id: int): (r: Option<ApprovalItem>)
      reads this
      ensures r.None? <==> id !in items
      ensures r.Some? ==> r.value == FromSPListItem(SPListItem(id, items[id])) && r.value.id == id
    {
      if id in items then Some(FromSPListItem(SPListItem(id, items[id]))) else None
    }

    /** Stores the item's key/value pairs under the next id. */
    method AddApprovalItem(item: ApprovalItem) returns (id: int)
      requires Valid()
      modifies this
      ensures Valid()
      ensures id == old(nextId) && id !in old(items) && nextId == old(nextId) + 1
      ensures items == old(items)[id := ToKeyValuePairs(item)]
    {
      id := nextId;
      items := items[id := ToKeyValuePairs(item)];
      nextId := nextId + 1;
    }

    /** Stores one item per input, in input order, under consecutive ids. */
    method BatchAddApprovalItem(xs: seq<ApprovalItem>)
      requires Valid()
      modifies this
      ensures Valid()
      ensures nextId == old(nextId) + |xs|
      ensures Appended(old(items), old(nextId), items, xs)
    {
      var i := 0;
      while i < |xs|
        invariant 0 <= i <= |xs|
        invariant Valid()
        invariant nextId == old(nextId) + i
        invariant forall id :: id in items <==> id in old(items) || old(nextId) <= id < old(nextId) + i
        invariant forall id :: id in old(items) ==> items[id] == old(items)[id]
        invariant forall k :: 0 <= k < i ==> items[old(nextId) + k] == ToKeyValuePairs(xs[k])
      {
        var id := AddApprovalItem(xs[i]);
        i := i + 1;
      }
    }

    /** Sets the status and the review date, and the comment when one is given;
        an id the list does not hold makes the list manager throw. */
    method UpdateApprovalItem(id: int, approvalStatus: string, comment: Option<string>, reviewDate: string)
      returns (r: Outcome)
      requires Valid()
      modifies this
      ensures Valid() && nextId == old(nextId)
      ensures id in old(items) ==> (r == Ok
        && items == old(items)[id := ApplyValues(old(items)[id], UpdateValues(approvalStatus, comment, reviewDate))])
      ensures id !in old(items) ==> r == Failed(ItemMissing) && items == old(items)
    {
      var values: seq<KeyValue> := [];
      values := values + [KeyValue("approvalStatus", Some(approvalStatus))];
      values := values + [KeyValue("reviewDate", Some(reviewDate))];
      if !IsNullOrEmpty(comment) {
        values := values + [KeyValue("comment", comment)];
      }
      assert values == UpdateValues(approvalStatus, comment, reviewDate);
      if id !in items {
        return Failed(ItemMissing);
      }
      items := items[id := ApplyValues(items[id], values)];
      r := Ok;
    }

    /** Removes exactly the given item; an unknown id makes the list manager throw. */
    method DeleteApprovalItem(id: int) returns (r: Outcome)
      requires Valid()
      modifies this
      ensures Valid() && nextId == old(nextId)
      ensures id in old(items) ==> r == Ok && items == old(items) - {id}
      ensures id !in old(items) ==> r == Failed(ItemMissing) && items == old(items)
    {
      if id !in items {
        return Failed(ItemMissing);
      }
      items := items - {id};
      r := Ok;
    }
  }
}
