/** The built-in converter for `*int64` fields. */
module NullInt64Converter {
  import opened Types
  import opened GoStrconv

  /** What Set does with the selected token: the empty token is a no-op;
      otherwise a base-10 int64 becomes a pointer to that value, and a
      malformed token fails naming the token. The items are never changed. */
  function Outcome(items: seq<string>, index: nat): (r: SetResult)
    requires index < |items|
    ensures r.items == items
    ensures items[index] == "" ==> r == SetResult(None, items, None)
    ensures items[index] != "" ==>
      (r.err.None? <==> ParseInt(items[index]).Some?) &&
      (r.err.None? ==> r.dest == Some(IntPtr(ParseInt(items[index]).value))) &&
      (r.err.Some? ==> r.err == Some(Parse(items[index])) && r.dest.None?)
  {
    var token := items[index];
    if token == "" then SetResult(None, items, None)
    else
      match ParseInt(token)
      case Some(v) => SetResult(None, items, Some(IntPtr(v)))
      case None => SetResult(Some(Parse(token)), items, None)
  }

  class ConvertNullInt64 {
    /** The last pointer handed out (None is nil). */
    var value: Option<int>

    constructor ()
      ensures value == None
    {
      value := None;
    }

    method Set(p: ConvertValueParams) returns (err: Option<Error>)
      requires p.InBounds()
      modifies this, p.record
      ensures var r := Outcome(p.items[..], p.index);
        && err == r.err
        && p.record[..] == Written(old(p.record[..]), p.field, r.dest)
      ensures err.None? && p.items[p.index] != "" ==>
        value == ParseInt(p.items[p.index]) && p.record[p.field] == IntPtr(value.value)
      ensures err.Some? || p.items[p.index] == "" ==> value == old(value)
    {
      if p.items[p.index] == "" {
        return None;
      }
      var v := ParseInt(p.items[p.index]);
      if v.None? {
        return Some(Parse(p.items[p.index]));
      }
      value := v;
      p.record[p.field] := IntPtr(value.value);
      return None;
    }
  }
}
