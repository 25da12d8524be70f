/** The shared converter the engine registers for every database/sql
    nullable wrapper type; it dispatches on the declared type key. */
module SqlValueConverter {
  import opened Types
  import opened GoStrings

  /** The eight type keys this converter handles. */
  const SqlKeys: set<string> :=
    {"sql.NullInt64", "sql.NullFloat64", "sql.NullString", "sql.NullInt32",
     "sql.NullInt16", "sql.NullByte", "sql.NullBool", "sql.NullTime"}

  /** The Go type name of each wrapper kind. */
  function KeyOf(kind: SqlKind): (key: string)
    ensures key in SqlKeys
  {
    match kind
    case NullInt64 => "sql.NullInt64"
    case NullFloat64 => "sql.NullFloat64"
    case NullString => "sql.NullString"
    case NullInt32 => "sql.NullInt32"
    case NullInt16 => "sql.NullInt16"
    case NullByte => "sql.NullByte"
    case NullBool => "sql.NullBool"
    case NullTime => "sql.NullTime"
  }

  /** The switch maps each kind's key back to that kind. */
  lemma {:induction false} KeyOfSelectsKind(kind: SqlKind)
    ensures SqlKindOf(KeyOf(kind)) == Some(kind)
  {
  }

  /** The switch of Set: exactly the eight keys are recognised, each as the
      kind it names. */
  function SqlKindOf(typeKey: string): (k: Option<SqlKind>)
    ensures k.Some? <==> typeKey in SqlKeys
    ensures k.Some? ==> KeyOf(k.value) == typeKey
  {
    if typeKey == "sql.NullInt64" then Some(NullInt64)
    else if typeKey == "sql.NullFloat64" then Some(NullFloat64)
    else if typeKey == "sql.NullString" then Some(NullString)
    else if typeKey == "sql.NullInt32" then Some(NullInt32)
    else if typeKey == "sql.NullInt16" then Some(NullInt16)
    else if typeKey == "sql.NullByte" then Some(NullByte)
    else if typeKey == "sql.NullBool" then Some(NullBool)
    else if typeKey == "sql.NullTime" then Some(NullTime)
    else None
  }

  /** The token a sql.NullFloat64 scan sees: with the comma option, the
      first ',' becomes '.'. */
  function FloatToken(params: Params, token: string): string {
    if params.replaceCommaToDot then ReplaceFirst(token, ',', '.') else token
  }

  /** What Set does: the empty token is a no-op; an unknown type key fails;
      sql.NullTime parses the token with the chosen layout and writes a
      valid wrapper; sql.NullFloat64 may first rewrite the selected item in
      place; every other kind scans the token. A failed parse or scan writes
      nothing. No item other than the selected one ever changes. */
  function Outcome(params: Params, items: seq<string>, index: nat, tags: seq<string>,
                   fieldType: string, lib: Library): (r: SetResult)
    requires index < |items|
    ensures |r.items| == |items|
    ensures forall j | 0 <= j < |items| && j != index :: r.items[j] == items[j]
    ensures items[index] == "" ==> r == SetResult(None, items, None)
    ensures r.err.Some? ==> r.dest.None?
    ensures items[index] != "" && SqlKindOf(fieldType).None? ==>
      r == SetResult(Some(FieldTypeUnknown(fieldType)), items, None)
    ensures items[index] != "" && fieldType == "sql.NullTime" ==>
      r.items == items &&
      match lib.parseTime(TimeLayout(tags), items[index])
      case Some(t) => r.err.None? && r.dest == Some(Sql(NullTime, Nullable(TimeS(t), true)))
      case None => r.err == Some(Parse(items[index]))
    ensures items[index] != "" && fieldType == "sql.NullFloat64" ==>
      r.items == items[index := FloatToken(params, items[index])] &&
      (r.err.None? <==> lib.scan(NullFloat64, r.items[index]).Some?)
    ensures r.items != items ==>
      fieldType == "sql.NullFloat64" && params.replaceCommaToDot && ',' in items[index]
  {
    var token := items[index];
    if token == "" then SetResult(None, items, None)
    else
      match SqlKindOf(fieldType)
      case None => SetResult(Some(FieldTypeUnknown(fieldType)), items, None)
      case Some(NullTime) =>
        (match lib.parseTime(TimeLayout(tags), token)
         case None => SetResult(Some(Parse(token)), items, None)
         case Some(t) => SetResult(None, items, Some(Sql(NullTime, Nullable(TimeS(t), true)))))
      case Some(NullFloat64) => Scanned(NullFloat64, items[index := FloatToken(params, token)], index, lib)
      case Some(kind) => Scanned(kind, items, index, lib)
  }

  /** The seven kinds other than sql.NullTime go through Scan: the call
      succeeds exactly when Scan accepts the (possibly rewritten) token, and
      then writes the wrapper Scan produced. */
  lemma ScannedKinds(params: Params, items: seq<string>, index: nat, tags: seq<string>,
                     fieldType: string, lib: Library, kind: SqlKind)
    requires index < |items| && items[index] != ""
    requires SqlKindOf(fieldType) == Some(kind) && kind != NullTime
    ensures var r := Outcome(params, items, index, tags, fieldType, lib);
      && (kind != NullFloat64 ==> r.items == items)
      && (r.err.None? <==> lib.scan(kind, r.items[index]).Some?)
      && (r.err.None? ==> r.dest == Some(Sql(kind, lib.scan(kind, r.items[index]).value)))
      && (r.err.Some? ==> r.err == Some(Parse(r.items[index])))
  {
  }

  /** Scan the selected item into a wrapper of the given kind. */
  function Scanned(kind: SqlKind, items: seq<string>, index: nat, lib: Library): SetResult
    requires index < |items|
  {
    match lib.scan(kind, items[index])
    case None => SetResult(Some(Parse(items[index])), items, None)
    case Some(n) => SetResult(None, items, Some(Sql(kind, n)))
  }

  class ConvertSqlValue {
    /** Declared by the source and never used by Set. */
    var value: Nullable
    /** The configuration copy taken when the engine was built; the engine's
        own copy can change later without this one following. */
    const params: Params

    constructor (params: Params)
      ensures this.params == params && value == NullInt64Zero
    {
      this.params := params;
      value := NullInt64Zero;
    }

    method Set(p: ConvertValueParams, lib: Library) returns (err: Option<Error>)
      requires p.InBounds()
      modifies p.items, p.record
      ensures var r := Outcome(params, old(p.items[..]), p.index, p.tags, p.fieldType, lib);
        && err == r.err
        && p.items[..] == r.items
        && p.record[..] == Written(old(p.record[..]), p.field, r.dest)
    {
      if p.items[p.index] == "" {
        return None;
      }
      var kind := SqlKindOf(p.fieldType);
      if kind.None? {
        return Some(FieldTypeUnknown(p.fieldType));
      }
      if kind.value == NullTime {
        var t := lib.parseTime(TimeLayout(p.tags), p.items[p.index]);
        if t.None? {
          return Some(Parse(p.items[p.index]));
        }
        p.record[p.field] := Sql(NullTime, Nullable(TimeS(t.value), true));
        return None;
      }
      if kind.value == NullFloat64 && params.replaceCommaToDot {
        p.items[p.index] := ReplaceFirst(p.items[p.index], ',', '.');
      }
      var n := lib.scan(kind.value, p.items[p.index]);
      if n.None? {
        return Some(Parse(p.items[p.index]));
      }
      p.record[p.field] := Sql(kind.value, n.value);
      return None;
    }
  }
}
