/** The built-in converter for `int` fields (Go's int is 64 bits wide here,
    so int(v) of a parsed int64 keeps its value). */
module IntConverter {
  import opened Types
  import opened GoStrconv

  /** What Set does with the selected token: parse it as a base-10 int64
      and write int(v); an empty or malformed token fails naming the token.
      The items are never changed. */
  function Outcome(items: seq<string>, index: nat): (r: SetResult)
    requires index < |items|
    ensures r.items == items
    ensures r.err.None? <==> ParseInt(items[index]).Some?
    ensures r.err.None? ==> r.dest == Some(IntV(ParseInt(items[index]).value))
    ensures r.err.Some? ==> r.err == Some(Parse(items[index])) && r.dest.None?
  {
    var token := items[index];
    match ParseInt(token)
    case Some(v) => SetResult(None, items, Some(IntV(v)))
    case None => SetResult(Some(Parse(token)), items, None)
  }

  class ConvertInt {
    var value: int

    constructor ()
      ensures value == 0
    {
      value := 0;
    }

    method Set(p: ConvertValueParams) returns (err: Option<Error>)
      requires p.InBounds()
      modifies this, p.record
      ensures var r := Outcome(p.items[..], p.index);
        && err == r.err
        && p.record[..] == Written(old(p.record[..]), p.field, r.dest)
      ensures err.None? ==> Some(value) == ParseInt(p.items[p.index])
      ensures err.Some? ==> value == old(value)
    {
      var v := ParseInt(p.items[p.index]);
      if v.None? {
        return Some(Parse(p.items[p.index]));
      }
      value := v.value;
      p.record[p.field] := IntV(value);
      return None;
    }
  }
}
