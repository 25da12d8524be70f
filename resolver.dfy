/** The field resolver: the name table built by SetFieldNames and the
    choice of a source index for one field. */
module FieldResolver {
  import opened Types

  /** The map SetFieldNames builds: each listed name is entered with its
      index, in list order, so a repeated name keeps its last index. An
      empty list gives the empty table, i.e. positional mode. */
  function NameTable(names: seq<string>): map<string, nat>
    decreases |names|
  {
    if |names| == 0 then map[]
    else
      var last := |names| - 1;
      NameTable(names[..last])[names[last] := last]
  }

  /** The table holds exactly the listed names, and each maps to the index
      of its LAST occurrence. */
  lemma {:induction false} NameTableLastOccurrence(names: seq<string>)
    ensures NameTable(names).Keys == set n | n in names
    ensures forall n | n in NameTable(names) :: NameTable(names)[n] < |names| && names[NameTable(names)[n]] == n
    ensures forall n, j | n in NameTable(names) && NameTable(names)[n] < j < |names| :: names[j] != n
    decreases |names|
  {
    if |names| > 0 {
      var last := |names| - 1;
      var p := names[..last];
      NameTableLastOccurrence(p);
      assert names == p + [names[last]];
    }
  }

  /** The table's size is the number of DISTINCT names, which is what the
      engine's up-front length check compares with the item count. */
  lemma NameTableSize(names: seq<string>)
    ensures |NameTable(names)| == |set n | n in names|
  {
    NameTableLastOccurrence(names);
    assert NameTable(names).Keys == set n | n in names;
  }

  /** GetSliceIndexForField. With a non-empty table the alias is looked up
      and its index must lie inside the items; with no table the field's
      declaration position is used, and running past the items yields
      ErrIndexDoesNotExist, a signal distinct from the table errors. */
  function GetSliceIndexForField(fieldNames: map<string, nat>, fieldName: string,
                                 fieldIndex: nat, lenSlice: nat): (r: Result<nat>)
    ensures r.Ok? ==> r.value < lenSlice
    ensures |fieldNames| == 0 ==>
      && (r.Ok? <==> fieldIndex < lenSlice)
      && (r.Ok? ==> r.value == fieldIndex)
      && (r.Err? ==> r.error == IndexDoesNotExist)
    ensures |fieldNames| > 0 ==>
      && (r.Ok? <==> fieldName in fieldNames && fieldNames[fieldName] < lenSlice)
      && (r.Ok? ==> r.value == fieldNames[fieldName])
      && (r.Err? ==> r.error.ConfigError?)
  {
    if |fieldNames| > 0 then
      if fieldName !in fieldNames then Err(ConfigError(NameNotInTable(fieldName)))
      else
        var v := fieldNames[fieldName];
        if v > lenSlice - 1 then Err(ConfigError(IndexOutOfItems(fieldName, v)))
        else Ok(v)
    else if lenSlice < fieldIndex + 1 then Err(IndexDoesNotExist)
    else Ok(fieldIndex)
  }

  /** Resolution through a table built from a name list: a name resolves
      exactly when it is listed and its last position lies inside the items,
      and it then resolves to that last position. */
  lemma ResolveThroughNames(names: seq<string>, fieldName: string, fieldIndex: nat, lenSlice: nat)
    requires |names| > 0
    ensures var r := GetSliceIndexForField(NameTable(names), fieldName, fieldIndex, lenSlice);
      && (r.Ok? ==> fieldName in names && r.value < lenSlice && r.value < |names| && names[r.value] == fieldName
                    && forall j | r.value < j < |names| :: names[j] != fieldName)
      && (fieldName !in names ==> r == Err(ConfigError(NameNotInTable(fieldName))))
  {
    NameTableLastOccurrence(names);
    assert names[0] in NameTable(names);
  }
}
