/** The converter capability and the registry that maps a type key to a
    converter. The Go interface becomes a closed datatype over references
    to the converter objects, so one instance can sit under several keys. */
module Converter {
  import opened Types
  import opened GoStrconv
  import Int64Converter
  import IntConverter
  import NullInt64Converter
  import SqlNullInt64Converter
  import SqlValueConverter
  import RewriteConverter

  datatype ConverterRef =
    | Int64C(Int64Converter.ConvertInt64)
    | IntC(IntConverter.ConvertInt)
    | NullInt64C(NullInt64Converter.ConvertNullInt64)
    | SqlNullInt64C(SqlNullInt64Converter.ConvertSqlNullInt64)
    | SqlValueC(sqlValue: SqlValueConverter.ConvertSqlValue)
    | RewriteC(rewrite: RewriteConverter.RewriteThenInt64)
  {
    /** The object behind the reference. */
    function Obj(): object {
      match this
      case Int64C(c) => c
      case IntC(c) => c
      case NullInt64C(c) => c
      case SqlNullInt64C(c) => c
      case SqlValueC(c) => c
      case RewriteC(c) => c
    }
  }

  /** What calling Set on a converter does, for every kind. */
  function Convert(ref: ConverterRef, items: seq<string>, index: nat, tags: seq<string>,
                   fieldName: string, fieldType: string, lib: Library): (r: SetResult)
    requires index < |items|
    ensures |r.items| == |items|
    ensures forall j | 0 <= j < |items| && j != index :: r.items[j] == items[j]
    ensures r.err.Some? ==> r.dest.None?
    ensures (ref.Int64C? || ref.IntC? || ref.NullInt64C? || ref.SqlNullInt64C?) ==> r.items == items
    ensures items[index] == "" && (ref.NullInt64C? || ref.SqlNullInt64C? || ref.SqlValueC?) ==>
      r == SetResult(None, items, None)
  {
    match ref
    case Int64C(_) => Int64Converter.Outcome(items, index)
    case IntC(_) => IntConverter.Outcome(items, index)
    case NullInt64C(_) => NullInt64Converter.Outcome(items, index)
    case SqlNullInt64C(_) => SqlNullInt64Converter.Outcome(items, index, lib)
    case SqlValueC(c) => SqlValueConverter.Outcome(c.params, items, index, tags, fieldType, lib)
    case RewriteC(c) => RewriteConverter.Outcome(c.target, c.replacement, items, index, fieldName)
  }

  /** The integer converters accept exactly what strconv.FormatInt prints
      for an int64, and write that number back. */
  lemma IntegerConvertersRoundTrip(ref: ConverterRef, items: seq<string>, index: nat, n: int,
                                   tags: seq<string>, fieldName: string, fieldType: string, lib: Library)
    requires ref.Int64C? || ref.IntC? || ref.NullInt64C?
    requires index < |items| && items[index] == FormatInt(n)
    requires MinInt64 <= n <= MaxInt64
    ensures var r := Convert(ref, items, index, tags, fieldName, fieldType, lib);
      r.err.None? && r.items == items && r.dest == Some(if ref.NullInt64C? then IntPtr(n) else IntV(n))
  {
    ParseFormatInt(n);
    assert items[index] != "" by {
      assert ParseInt(items[index]).Some?;
    }
  }

  /** Invoke a converter: the interface method call Converter.Set. */
  method Set(ref: ConverterRef, p: ConvertValueParams, lib: Library) returns (err: Option<Error>)
    requires p.InBounds()
    modifies ref.Obj(), p.items, p.record
    ensures var r := Convert(ref, old(p.items[..]), p.index, p.tags, p.fieldName, p.fieldType, lib);
      && err == r.err
      && p.items[..] == r.items
      && p.record[..] == Written(old(p.record[..]), p.field, r.dest)
  {
    match ref
    case Int64C(c) => err := c.Set(p);
    case IntC(c) => err := c.Set(p);
    case NullInt64C(c) => err := c.Set(p);
    case SqlNullInt64C(c) => err := c.Set(p, lib);
    case SqlValueC(c) => err := c.Set(p, lib);
    case RewriteC(c) => err := c.Set(p);
  }

  /** The registry. The Go map starts out nil; a nil map and an empty map
      answer every lookup the same way. */
  class Converters {
    var converters: map<string, ConverterRef>

    constructor ()
      ensures converters == map[]
    {
      converters := map[];
    }

    /** Every converter object the registry holds. */
    ghost function Objects(): set<object>
      reads this
    {
      set k | k in converters :: converters[k].Obj()
    }

    /** Last write wins; every other key keeps its binding. */
    method SetConverter(name: string, converter: ConverterRef)
      modifies this
      ensures converters == old(converters)[name := converter]
      ensures forall k | k != name :: (k in converters <==> k in old(converters))
      ensures forall k | k != name && k in converters :: converters[k] == old(converters)[k]
    {
      converters := converters[name := converter];
    }

    /** A lookup; it changes nothing, and a miss is ErrConverterDoesNotExist. */
    method GetConverter(name: string) returns (r: Result<ConverterRef>)
      ensures name in converters <==> r.Ok?
      ensures r.Ok? ==> r.value == converters[name]
      ensures r.Err? ==> r.error == ConverterDoesNotExist
    {
      if name in converters {
        return Ok(converters[name]);
      }
      return Err(ConverterDoesNotExist);
    }
  }
}
