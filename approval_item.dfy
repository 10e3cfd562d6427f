/** The approval-list record (`ApprovalItem`) and its mapping to and from the
    key/value field list the SharePoint list stores. */
module ApprovalItems {
  import opened Wrappers
  import opened KeyValues

  /** `ApprovalTypes` and `ApprovalStatus` enum members, as their `ToString()`. */
  const TypeApproval := "Approval"
  const TypeAcceptance := "Acceptance"
  const StatusPending := "PENDING"
  const StatusApproved := "APPROVED"
  const StatusDeclined := "DECLINED"

  /** Every string property may be null. `created`/`modified` are kept as the
      opaque text the list holds; the date re-formatting is not modelled. */
  datatype ApprovalItem = ApprovalItem(
    id: int,
    approvalType: Option<string>,
    employeeEmail: Option<string>,
    employeeName: Option<string>,
    employeeJobTitle: Option<string>,
    employeeDepartment: Option<string>,
    managerEmail: Option<string>,
    managerName: Option<string>,
    toManagerEmail: Option<string>,
    toManagerName: Option<string>,
    requestorEmail: Option<string>,
    requestorName: Option<string>,
    approvalStatus: Option<string>,
    localADSyncStatus: Option<string>,
    comment: Option<string>,
    reviewDate: Option<string>,
    created: Option<string>,
    modified: Option<string>)

  /** `new ApprovalItem()`: the type defaults to Approval, everything else is unset. */
  function NewApprovalItem(): (r: ApprovalItem)
    ensures r.approvalType == Some(TypeApproval)
    ensures r.id == 0 && r.approvalStatus.None? && r.employeeEmail.None? && r.comment.None?
    ensures r.employeeName.None? && r.employeeJobTitle.None? && r.employeeDepartment.None?
    ensures r.managerEmail.None? && r.managerName.None? && r.toManagerEmail.None? && r.toManagerName.None?
    ensures r.requestorEmail.None? && r.requestorName.None? && r.localADSyncStatus.None?
    ensures r.reviewDate.None? && r.created.None? && r.modified.None?
  {
    ApprovalItem(0, Some(TypeApproval), None, None, None, None, None, None, None, None,
                 None, None, None, None, None, None, None, None)
  }

  /** The keys `ToKeyValuePairs` writes, in order. */
  const MappedKeys: seq<string> := [
    "approvalType", "employeeEmail", "employeeName", "employeeJobTitle", "employeeDepartment",
    "managerEmail", "managerName", "requestorEmail", "requestorName", "toManager",
    "toManagerName", "approvalStatus", "localADSyncStatus"]

  function ToKeyValuePairs(x: ApprovalItem): (r: seq<KeyValue>)
    ensures |r| == 13 && DistinctKeys(r)
    ensures forall i :: 0 <= i < |r| ==> r[i].key == MappedKeys[i]
    ensures !HasKey(r, "Id") && !HasKey(r, "comment") && !HasKey(r, "reviewDate")
    ensures !HasKey(r, "Created") && !HasKey(r, "Modified")
  {
    [ KeyValue("approvalType", x.approvalType),
      KeyValue("employeeEmail", x.employeeEmail),
      KeyValue("employeeName", x.employeeName),
      KeyValue("employeeJobTitle", x.employeeJobTitle),
      KeyValue("employeeDepartment", x.employeeDepartment),
      KeyValue("managerEmail", x.managerEmail),
      KeyValue("managerName", x.managerName),
      KeyValue("requestorEmail", x.requestorEmail),
      KeyValue("requestorName", x.requestorName),
      KeyValue("toManager", x.toManagerEmail),
      KeyValue("toManagerName", x.toManagerName),
      KeyValue("approvalStatus", x.approvalStatus),
      KeyValue("localADSyncStatus", x.localADSyncStatus) ]
  }

  /** Reads every property from the first field with its key; the id is the
      list item's own. */
  function FromSPListItem(item: SPListItem): ApprovalItem {
    var f := item.fieldValues;
    ApprovalItem(
      item.id,
      FirstValue(f, "approvalType"),
      FirstValue(f, "employeeEmail"),
      FirstValue(f, "employeeName"),
      FirstValue(f, "employeeJobTitle"),
      FirstValue(f, "employeeDepartment"),
      FirstValue(f, "managerEmail"),
      FirstValue(f, "managerName"),
      FirstValue(f, "toManager"),
      FirstValue(f, "toManagerName"),
      FirstValue(f, "requestorEmail"),
      FirstValue(f, "requestorName"),
      FirstValue(f, "approvalStatus"),
      FirstValue(f, "localADSyncStatus"),
      FirstValue(f, "comment"),
      FirstValue(f, "reviewDate"),
      FirstValue(f, "Created"),
      FirstValue(f, "Modified"))
  }

  /** Reading back what `ToKeyValuePairs` wrote recovers all 13 mapped
      properties; the id is the list item's, and the unmapped properties read
      as null. */
  lemma RoundTrip(x: ApprovalItem, id: int)
    ensures FromSPListItem(SPListItem(id, ToKeyValuePairs(x)))
            == x.(id := id, comment := None, reviewDate := None, created := None, modified := None)
  {
    var kvs := ToKeyValuePairs(x);
    FirstValueAt(kvs, 0); FirstValueAt(kvs, 1); FirstValueAt(kvs, 2); FirstValueAt(kvs, 3);
    FirstValueAt(kvs, 4); FirstValueAt(kvs, 5); FirstValueAt(kvs, 6); FirstValueAt(kvs, 7);
    FirstValueAt(kvs, 8); FirstValueAt(kvs, 9); FirstValueAt(kvs, 10); FirstValueAt(kvs, 11);
    FirstValueAt(kvs, 12);
    FirstValueMissing(kvs, "comment");
    FirstValueMissing(kvs, "reviewDate");
    FirstValueMissing(kvs, "Created");
    FirstValueMissing(kvs, "Modified");
  }

  /** The controllers' `item.ApprovalStatus = PENDING; item.ApprovalType = t;`. */
  function MarkPending(x: ApprovalItem, approvalType: string): ApprovalItem {
    x.(approvalStatus := Some(StatusPending), approvalType := Some(approvalType))
  }
}
