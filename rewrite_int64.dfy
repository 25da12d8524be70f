/** The override converter of the package's test suite (Int64Test): for one
    field name it rewrites the selected item in place, then delegates to the
    int64 converter. */
module RewriteConverter {
  import opened Types
  import opened GoStrconv
  import Int64Converter

  /** The items the delegate sees: rewritten only for the targeted field. */
  function Rewritten(target: string, replacement: string, items: seq<string>, index: nat,
                     fieldName: string): (r: seq<string>)
    requires index < |items|
    ensures |r| == |items|
    ensures fieldName == target ==> r == items[index := replacement]
    ensures fieldName != target ==> r == items
  {
    if fieldName == target then items[index := replacement] else items
  }

  /** What Set does: the int64 converter applied to the rewritten items;
      the rewrite stays in the caller's buffer even when parsing fails. */
  function Outcome(target: string, replacement: string, items: seq<string>, index: nat,
                   fieldName: string): (r: SetResult)
    requires index < |items|
    ensures fieldName == target ==>
      && r.items == items[index := replacement]
      && (r.err.None? <==> ParseInt(replacement).Some?)
      && (r.err.None? ==> r.dest == Some(IntV(ParseInt(replacement).value)))
    ensures fieldName != target ==> r == Int64Converter.Outcome(items, index)
  {
    Int64Converter.Outcome(Rewritten(target, replacement, items, index, fieldName), index)
  }

  class RewriteThenInt64 {
    const target: string
    const replacement: string

    constructor (target: string, replacement: string)
      ensures this.target == target && this.replacement == replacement
    {
      this.target := target;
      this.replacement := replacement;
    }

    method Set(p: ConvertValueParams) returns (err: Option<Error>)
      requires p.InBounds()
      modifies p.items, p.record
      ensures var r := Outcome(target, replacement, old(p.items[..]), p.index, p.fieldName);
        && err == r.err
        && p.items[..] == r.items
        && p.record[..] == Written(old(p.record[..]), p.field, r.dest)
    {
      if p.fieldName == target {
        p.items[p.index] := replacement;
      }
      var d := new Int64Converter.ConvertInt64();
      err := d.Set(p);
    }
  }
}
