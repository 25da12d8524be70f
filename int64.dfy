/** The built-in converter for `int64` fields. */
module Int64Converter {
  import opened Types
  import opened GoStrconv

  /** What Set does with the selected token: parse it as a base-10 int64;
      on success write it, otherwise fail naming the token. There is no
      special case for the empty token. The items are never changed. */
  function Outcome(items: seq<string>, index: nat): (r: SetResult)
    requires index < |items|
    ensures r.items == items
    ensures r.err.None? <==> ParseInt(items[index]).Some?
    ensures r.err.None? ==> r.dest == Some(IntV(ParseInt(items[index]).value))
    ensures r.err.Some? ==> r.err == Some(Parse(items[index])) && r.dest.None?
  {
    var token := items[index];
    match ParseInt(token)
    case Some(v) => SetResult(None, items, Some(IntV(v)))
    case None => SetResult(Some(Parse(token)), items, None)
  }

  class ConvertInt64 {
    var value: int

    constructor ()
      ensures value == 0
    {
      value := 0;
    }

    /** Reads Items[Index] at call time, so a rewrite made by a wrapping
        converter just before is what gets parsed. */
    method Set(p: ConvertValueParams) returns (err: Option<Error>)
      requires p.InBounds()
      modifies this, p.record
      ensures var r := Outcome(p.items[..], p.index);
        && err == r.err
        && p.record[..] == Written(old(p.record[..]), p.field, r.dest)
      ensures err.None? ==> Some(value) == ParseInt(p.items[p.index])
      ensures err.Some? ==> value == old(value)
    {
      var v := ParseInt(p.items[p.index]);
      if v.None? {
        return Some(Parse(p.items[p.index]));
      }
      value := v.value;
      p.record[p.field] := IntV(value);
      return None;
    }
  }
}
