/** The field values a SharePoint list item carries: an ordered list of
    key/value pairs, as `IEnumerable<KeyValuePair<string, string>>`. */
module KeyValues {
  import opened Wrappers

  datatype KeyValue = KeyValue(key: string, value: Option<string>)

  /** A list item as the list manager returns it: its own id and its fields. */
  datatype SPListItem = SPListItem(id: int, fieldValues: seq<KeyValue>)

  predicate HasKey(kvs: seq<KeyValue>, key: string) {
    exists i :: 0 <= i < |kvs| && kvs[i].key == key
  }

  predicate DistinctKeys(kvs: seq<KeyValue>) {
    forall i, j :: 0 <= i < j < |kvs| ==> kvs[i].key != kvs[j].key
  }

  /** `kvs.FirstOrDefault(x => x.Key == key).Value`: the value of the first pair
      with that key, or null (the value of the default pair) when there is none. */
  function FirstValue(kvs: seq<KeyValue>, key: string): Option<string> {
    if kvs == [] then None
    else if kvs[0].key == key then kvs[0].value
    else FirstValue(kvs[1..], key)
  }

  /** A key that no pair carries reads as null. */
  lemma {:induction false} FirstValueMissing(kvs: seq<KeyValue>, key: string)
    requires !HasKey(kvs, key)
    ensures FirstValue(kvs, key).None?
  {
    if kvs != [] {
      assert forall i :: 1 <= i < |kvs| ==> kvs[1..][i - 1] == kvs[i];
      FirstValueMissing(kvs[1..], key);
    }
  }

  /** The value of the first pair with the key is the one read back. */
  lemma {:induction false} FirstValueFirst(kvs: seq<KeyValue>, i: int)
    requires 0 <= i < |kvs|
    requires forall j :: 0 <= j < i ==> kvs[j].key != kvs[i].key
    ensures FirstValue(kvs, kvs[i].key) == kvs[i].value
  {
    if i > 0 {
      assert forall j :: 1 <= j < |kvs| ==> kvs[1..][j - 1] == kvs[j];
      FirstValueFirst(kvs[1..], i - 1);
    }
  }

  /** In a list whose keys are distinct, the value under a key is the one stored there. */
  lemma FirstValueAt(kvs: seq<KeyValue>, i: int)
    requires DistinctKeys(kvs) && 0 <= i < |kvs|
    ensures FirstValue(kvs, kvs[i].key) == kvs[i].value
  {
    FirstValueFirst(kvs, i);
  }

  /** The list item's fields after the store writes `value` under `key`: the
      first pair with that key takes the new value, or the pair is appended. */
  function SetField(kvs: seq<KeyValue>, key: string, value: Option<string>): (r: seq<KeyValue>)
    ensures FirstValue(r, key) == value
  {
    if kvs == [] then [KeyValue(key, value)]
    else if kvs[0].key == key then [KeyValue(key, value)] + kvs[1..]
    else
      var rest := SetField(kvs[1..], key, value);
      var r := [kvs[0]] + rest;
      assert r[1..] == rest;
      r
  }

  /** Writing one key leaves the value under every other key as it was. */
  lemma {:induction false} SetFieldOther(kvs: seq<KeyValue>, key: string, value: Option<string>, k: string)
    requires k != key
    ensures FirstValue(SetField(kvs, key, value), k) == FirstValue(kvs, k)
  {
    if kvs != [] && kvs[0].key != key {
      SetFieldOther(kvs[1..], key, value, k);
    }
  }

  /** The fields after an update request carrying `values`, applied in order. */
  function ApplyValues(kvs: seq<KeyValue>, values: seq<KeyValue>): seq<KeyValue>
    decreases |values|
  {
    if values == [] then kvs
    else
      var last := values[|values| - 1];
      SetField(ApplyValues(kvs, values[..|values| - 1]), last.key, last.value)
  }

  /** An update writes each key it names (the last value given wins) and keeps
      every other field as it was. */
  lemma {:induction false} ApplyValuesLookup(kvs: seq<KeyValue>, values: seq<KeyValue>, key: string)
    ensures FirstValue(ApplyValues(kvs, values), key)
            == if HasKey(values, key) then LastValue(values, key) else FirstValue(kvs, key)
    decreases |values|
  {
    if values != [] {
      var n := |values|;
      var init := values[..n - 1];
      var last := values[n - 1];
      assert ApplyValues(kvs, values) == SetField(ApplyValues(kvs, init), last.key, last.value);
      if last.key == key {
        assert HasKey(values, key);
      } else {
        SetFieldOther(ApplyValues(kvs, init), last.key, last.value, key);
        ApplyValuesLookup(kvs, init, key);
        assert LastValue(values, key) == LastValue(init, key);
        assert forall i :: 0 <= i < |init| ==> init[i] == values[i];
        assert HasKey(values, key) ==> HasKey(init, key);
        assert HasKey(init, key) ==> HasKey(values, key);
      }
    }
  }

  /** The value of the last pair with that key. */
  function LastValue(kvs: seq<KeyValue>, key: string): Option<string>
    decreases |kvs|
  {
    if kvs == [] then None
    else if kvs[|kvs| - 1].key == key then kvs[|kvs| - 1].value
    else LastValue(kvs[..|kvs| - 1], key)
  }
}
