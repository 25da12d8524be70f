/** A converter for `sql.NullInt64` fields that keeps the scanned wrapper
    in its own Value field (not registered by the engine's constructor). */
module SqlNullInt64Converter {
  import opened Types

  /** What Set does with the selected token: the empty token is a no-op;
      otherwise the token is scanned into a sql.NullInt64 and on success
      that wrapper is written, on failure nothing is. The items are never
      changed. */
  function Outcome(items: seq<string>, index: nat, lib: Library): (r: SetResult)
    requires index < |items|
    ensures r.items == items
    ensures items[index] == "" ==> r == SetResult(None, items, None)
    ensures items[index] != "" ==>
      (r.err.None? <==> lib.scan(NullInt64, items[index]).Some?) &&
      (r.err.None? ==> r.dest == Some(Sql(NullInt64, lib.scan(NullInt64, items[index]).value))) &&
      (r.err.Some? ==> r.err == Some(Parse(items[index])) && r.dest.None?)
  {
    var token := items[index];
    if token == "" then SetResult(None, items, None)
    else
      match lib.scan(NullInt64, token)
      case Some(n) => SetResult(None, items, Some(Sql(NullInt64, n)))
      case None => SetResult(Some(Parse(token)), items, None)
  }

  class ConvertSqlNullInt64 {
    /** Scanned into in place; it persists from one call to the next. */
    var value: Nullable

    constructor ()
      ensures value == NullInt64Zero
    {
      value := NullInt64Zero;
    }

    method Set(p: ConvertValueParams, lib: Library) returns (err: Option<Error>)
      requires p.InBounds()
      modifies this, p.record
      ensures var r := Outcome(p.items[..], p.index, lib);
        && err == r.err
        && p.record[..] == Written(old(p.record[..]), p.field, r.dest)
      ensures err.None? && p.items[p.index] != "" ==> p.record[p.field] == Sql(NullInt64, value)
      ensures p.items[p.index] == "" ==> value == old(value)
      ensures err.Some? ==> value == old(value).(valid := true)
    {
      if p.items[p.index] == "" {
        return None;
      }
      var scanned := lib.scan(NullInt64, p.items[p.index]);
      if scanned.None? {
        // NullInt64.Scan sets Valid before the conversion that fails, and
        // the failed conversion leaves Int64 as it was.
        value := value.(valid := true);
        return Some(Parse(p.items[p.index]));
      }
      value := scanned.value;
      p.record[p.field] := Sql(NullInt64, value);
      return None;
    }
  }
}
