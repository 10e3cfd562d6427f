/** `ProfileApprovalItem`: a pending profile change, its key/value mapping and
    its conversions to and from `Profile`. */
module ProfileApprovalItems {
  import opened Wrappers
  import opened KeyValues
  import opened Profiles
  import ApprovalItems

  datatype ProfileApprovalItem = ProfileApprovalItem(
    id: int,
    streetAddress: Option<string>,
    stateProvince: Option<string>,
    countryRegion: Option<string>,
    office: Option<string>,
    city: Option<string>,
    zipPostalCode: Option<string>,
    officePhone: Option<string>,
    mobilePhone: Option<string>,
    photo: Option<string>,
    aboutMe: Option<string>,
    approvalStatus: Option<string>,
    managerEmail: Option<string>,
    managerName: Option<string>,
    employeeEmail: Option<string>,
    employeeName: Option<string>,
    comment: Option<string>,
    reviewDate: Option<string>,
    created: Option<string>,
    modified: Option<string>)

  /** `new ProfileApprovalItem()`. */
  const Empty := ProfileApprovalItem(0, None, None, None, None, None, None, None, None, None,
                                     None, None, None, None, None, None, None, None, None, None)

  const MappedKeys: seq<string> := [
    "streetAddress", "stateProvince", "countryRegion", "office", "city", "zipPostalCode",
    "officePhone", "mobilePhone", "photo", "aboutMe", "approvalStatus", "managerEmail",
    "managerName", "employeeEmail", "employeeName"]

  function ToKeyValuePairs(x: ProfileApprovalItem): (r: seq<KeyValue>)
    ensures |r| == 15 && DistinctKeys(r)
    ensures forall i :: 0 <= i < |r| ==> r[i].key == MappedKeys[i]
    ensures !HasKey(r, "comment") && !HasKey(r, "reviewDate")
  {
    [ KeyValue("streetAddress", x.streetAddress),
      KeyValue("stateProvince", x.stateProvince),
      KeyValue("countryRegion", x.countryRegion),
      KeyValue("office", x.office),
      KeyValue("city", x.city),
      KeyValue("zipPostalCode", x.zipPostalCode),
      KeyValue("officePhone", x.officePhone),
      KeyValue("mobilePhone", x.mobilePhone),
      KeyValue("photo", x.photo),
      KeyValue("aboutMe", x.aboutMe),
      KeyValue("approvalStatus", x.approvalStatus),
      KeyValue("managerEmail", x.managerEmail),
      KeyValue("managerName", x.managerName),
      KeyValue("employeeEmail", x.employeeEmail),
      KeyValue("employeeName", x.employeeName) ]
  }

  function FromSPListItem(item: SPListItem): ProfileApprovalItem {
    var f := item.fieldValues;
    ProfileApprovalItem(
      item.id,
      FirstValue(f, "streetAddress"),
      FirstValue(f, "stateProvince"),
      FirstValue(f, "countryRegion"),
      FirstValue(f, "office"),
      FirstValue(f, "city"),
      FirstValue(f, "zipPostalCode"),
      FirstValue(f, "officePhone"),
      FirstValue(f, "mobilePhone"),
      FirstValue(f, "photo"),
      FirstValue(f, "aboutMe"),
      FirstValue(f, "approvalStatus"),
      FirstValue(f, "managerEmail"),
      FirstValue(f, "managerName"),
      FirstValue(f, "employeeEmail"),
      FirstValue(f, "employeeName"),
      FirstValue(f, "comment"),
      FirstValue(f, "reviewDate"),
      FirstValue(f, "Created"),
      FirstValue(f, "Modified"))
  }

  /** Reading back what `ToKeyValuePairs` wrote recovers all 15 mapped fields. */
  lemma RoundTrip(x: ProfileApprovalItem, id: int)
    ensures FromSPListItem(SPListItem(id, ToKeyValuePairs(x)))
            == x.(id := id, comment := None, reviewDate := None, created := None, modified := None)
  {
    var kvs := ToKeyValuePairs(x);
    FirstValueAt(kvs, 0); FirstValueAt(kvs, 1); FirstValueAt(kvs, 2); FirstValueAt(kvs, 3);
    FirstValueAt(kvs, 4); FirstValueAt(kvs, 5); FirstValueAt(kvs, 6); FirstValueAt(kvs, 7);
    FirstValueAt(kvs, 8); FirstValueAt(kvs, 9); FirstValueAt(kvs, 10); FirstValueAt(kvs, 11);
    FirstValueAt(kvs, 12); FirstValueAt(kvs, 13); FirstValueAt(kvs, 14);
    FirstValueMissing(kvs, "comment");
    FirstValueMissing(kvs, "reviewDate");
    FirstValueMissing(kvs, "Created");
    FirstValueMissing(kvs, "Modified");
  }

  function ToProfile(x: ProfileApprovalItem): Profile {
    Profile(x.aboutMe, x.officePhone, x.mobilePhone, x.office, x.streetAddress,
            x.zipPostalCode, x.city, x.stateProvince, x.countryRegion, x.photo)
  }

  /** A new pending change built from a profile; employee, manager, comment and
      id stay at their defaults. */
  function FromProfile(p: Profile): (r: ProfileApprovalItem)
    ensures r.approvalStatus == Some(ApprovalItems.StatusPending)
    ensures r.id == 0 && r.employeeEmail.None? && r.employeeName.None? && r.managerEmail.None?
    ensures r.managerName.None? && r.comment.None? && r.reviewDate.None?
  {
    Empty.(aboutMe := p.aboutMe, photo := p.base64Photo, officePhone := p.businessPhone,
           city := p.city, countryRegion := p.country, mobilePhone := p.mobilePhone,
           office := p.office, zipPostalCode := p.postalCode, stateProvince := p.state,
           streetAddress := p.street, approvalStatus := Some(ApprovalItems.StatusPending))
  }

  /** A profile survives the trip through a pending change unaltered. */
  lemma ProfileRoundTrip(p: Profile)
    ensures ToProfile(FromProfile(p)) == p
  {
  }

  /** A pending change survives the trip through a profile on its ten profile
      fields; the rest is reset to a fresh pending change. */
  lemma ItemRoundTrip(x: ProfileApprovalItem)
    ensures FromProfile(ToProfile(x))
            == Empty.(streetAddress := x.streetAddress, stateProvince := x.stateProvince,
                      countryRegion := x.countryRegion, office := x.office, city := x.city,
                      zipPostalCode := x.zipPostalCode, officePhone := x.officePhone,
                      mobilePhone := x.mobilePhone, photo := x.photo, aboutMe := x.aboutMe,
                      approvalStatus := Some(ApprovalItems.StatusPending))
  {
  }
}
