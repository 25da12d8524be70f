/** The record assembler. The reflective walk over the fields of the Go
    type parameter T becomes an explicit descriptor table; the new T
    becomes an array of values, one per descriptor, all Zero at first. */
module Engine {
  import opened Types
  import opened GoStrings
  import opened GoStrconv
  import opened TagParser
  import opened FieldResolver
  import opened Converter
  import Int64Converter
  import IntConverter
  import NullInt64Converter
  import SqlValueConverter

  /** One struct field as reflection sees it: its Go name, the value of its
      `ss` tag ("" when absent), the string of its type, and whether it is
      exported (CanSet). */
  datatype FieldDesc = FieldDesc(name: string, tag: string, typeKey: string, settable: bool)

  /** Everything a conversion reads besides the items. */
  datatype Env = Env(
    fieldNames: map<string, nat>,
    returnErrIndexDoesNotExist: bool,
    replaceCommaToDot: bool,
    registry: map<string, ConverterRef>,
    lib: Library)

  /** The effect of one loop iteration: go on, or return the error. The
      items are the caller's buffer, so their state matters in both cases. */
  datatype Step = Continue(items: seq<string>, record: seq<Value>) | Abort(err: Error, items: seq<string>)

  /** The effect of a whole call. On failure no record comes back. */
  datatype Conversion = Built(items: seq<string>, record: seq<Value>) | Failed(err: Error, items: seq<string>)

  /** The name a field is looked up by: its first tag, or its own name. */
  function Alias(f: FieldDesc, tags: seq<string>): string {
    if |tags| > 0 && tags[0] != "" then tags[0] else f.name
  }

  predicate IsPointerType(typeKey: string) {
    |typeKey| > 0 && typeKey[0] == '*'
  }

  predicate OmitEmpty(tags: seq<string>) {
    |tags| > 1 && tags[1] == "omitempty"
  }

  /** The type keys the built-in switch handles when no converter is registered. */
  const FallbackKeys: set<string> :=
    {"*int", "string", "*string", "float64", "*float64", "time.Time", "*time.Time"}

  /** The index a field reads, when it gets as far as its empty-token checks:
      its tags parse, its alias is not "-", it resolves, and it is settable. */
  function Resolved(f: FieldDesc, i: nat, n: nat, env: Env): Option<nat> {
    match Tags(f.tag)
    case None => None
    case Some(tags) =>
      if Alias(f, tags) == "-" || !f.settable then None
      else
        match GetSliceIndexForField(env.fieldNames, Alias(f, tags), i, n)
        case Err(_) => None
        case Ok(idx) => Some(idx)
  }

  /** A field the loop can pass without writing it: its alias is "-", it is
      not settable, or (positional mode) it lies past the items. */
  predicate NeverWritten(f: FieldDesc, i: nat, n: nat, env: Env) {
    Tags(f.tag).Some? &&
    (Alias(f, Tags(f.tag).value) == "-" || !f.settable || (|env.fieldNames| == 0 && i >= n))
  }

  /** The closed switch used for a type key with no registered converter. */
  function Fallback(typeKey: string, tags: seq<string>, idx: nat, i: nat,
                    items: seq<string>, record: seq<Value>, env: Env): (s: Step)
    requires idx < |items| && i < |record|
    ensures |s.items| == |items|
    ensures forall j | 0 <= j < |items| && j != idx :: s.items[j] == items[j]
    ensures s.items != items ==> env.replaceCommaToDot && (typeKey == "float64" || typeKey == "*float64")
    ensures s.Continue? ==> |s.record| == |record| && forall j | 0 <= j < |record| && j != i :: s.record[j] == record[j]
    ensures typeKey !in FallbackKeys ==> s == Abort(TypeNotImplemented(typeKey), items)
    ensures typeKey == "string" ==> s == Continue(items, record[i := Str(items[idx])])
  {
    var token := items[idx];
    if typeKey == "*int" then
      match ParseInt(token)
      case None => Abort(Parse(token), items)
      case Some(v) => Continue(items, record[i := IntPtr(v)])
    else if typeKey == "string" then Continue(items, record[i := Str(token)])
    else if typeKey == "*string" then Continue(items, record[i := StrPtr(token)])
    else if typeKey == "float64" || typeKey == "*float64" then
      var items' := if env.replaceCommaToDot then items[idx := ReplaceFirst(token, ',', '.')] else items;
      match env.lib.parseFloat(items'[idx])
      case None => Abort(Parse(items'[idx]), items')
      case Some(x) => Continue(items', record[i := if typeKey == "float64" then Float(x) else FloatPtr(x)])
    else if typeKey == "time.Time" || typeKey == "*time.Time" then
      match env.lib.parseTime(TimeLayout(tags), token)
      case None => Abort(Parse(token), items)
      case Some(t) => Continue(items, record[i := if typeKey == "time.Time" then Time(t) else TimePtr(t)])
    else Abort(TypeNotImplemented(typeKey), items)
  }

  /** What each case of the built-in switch writes: the comma rewrite of
      the float cases happens exactly when the flag is set, and both time
      cases parse with the layout the tags choose. */
  lemma FallbackCases(typeKey: string, tags: seq<string>, idx: nat, i: nat,
                      items: seq<string>, record: seq<Value>, env: Env)
    requires idx < |items| && i < |record|
    ensures var s := Fallback(typeKey, tags, idx, i, items, record, env);
      && (typeKey == "*string" ==> s == Continue(items, record[i := StrPtr(items[idx])]))
      && (typeKey == "*int" ==>
            match ParseInt(items[idx])
            case Some(v) => s == Continue(items, record[i := IntPtr(v)])
            case None => s == Abort(Parse(items[idx]), items))
      && (typeKey == "float64" || typeKey == "*float64" ==>
            && s.items == (if env.replaceCommaToDot then items[idx := ReplaceFirst(items[idx], ',', '.')] else items)
            && match env.lib.parseFloat(s.items[idx])
               case Some(x) => s == Continue(s.items, record[i := if typeKey == "float64" then Float(x) else FloatPtr(x)])
               case None => s == Abort(Parse(s.items[idx]), s.items))
      && (typeKey == "time.Time" || typeKey == "*time.Time" ==>
            match env.lib.parseTime(TimeLayout(tags), items[idx])
            case Some(t) => s == Continue(items, record[i := if typeKey == "time.Time" then Time(t) else TimePtr(t)])
            case None => s == Abort(Parse(items[idx]), items))
  {
  }

  /** The built-in time.Time case and the sql.NullTime converter choose the
      layout the same way: for the same tags and token, one succeeds exactly
      when the other does, and both hold the same instant. */
  lemma TimeCasesAgree(tags: seq<string>, idx: nat, i: nat, items: seq<string>, record: seq<Value>,
                       env: Env, params: Params)
    requires idx < |items| && i < |record| && items[idx] != ""
    ensures var s := Fallback("time.Time", tags, idx, i, items, record, env);
      var r := SqlValueConverter.Outcome(params, items, idx, tags, "sql.NullTime", env.lib);
      && (s.Continue? <==> r.err.None?)
      && (s.Continue? ==> s.record[i].Time? && r.dest == Some(Sql(NullTime, Nullable(TimeS(s.record[i].t), true))))
  {
    FallbackCases("time.Time", tags, idx, i, items, record, env);
  }

  /** Registry first; the fallback switch only for an unregistered key. */
  function Dispatch(f: FieldDesc, tags: seq<string>, alias: string, idx: nat, i: nat,
                    items: seq<string>, record: seq<Value>, env: Env): (s: Step)
    requires idx < |items| && i < |record|
    ensures |s.items| == |items|
    ensures forall j | 0 <= j < |items| && j != idx :: s.items[j] == items[j]
    ensures s.Continue? ==> |s.record| == |record| && forall j | 0 <= j < |record| && j != i :: s.record[j] == record[j]
    ensures f.typeKey in env.registry ==>
      var r := Convert(env.registry[f.typeKey], items, idx, tags, alias, f.typeKey, env.lib);
      s == if r.err.Some? then Abort(r.err.value, r.items) else Continue(r.items, Written(record, i, r.dest))
    ensures f.typeKey !in env.registry ==> s == Fallback(f.typeKey, tags, idx, i, items, record, env)
  {
    if f.typeKey in env.registry then
      var r := Convert(env.registry[f.typeKey], items, idx, tags, alias, f.typeKey, env.lib);
      if r.err.Some? then Abort(r.err.value, r.items) else Continue(r.items, Written(record, i, r.dest))
    else Fallback(f.typeKey, tags, idx, i, items, record, env)
  }

  /** One iteration of the field loop of ToStruct, for field i. */
  function FieldStep(f: FieldDesc, i: nat, items: seq<string>, record: seq<Value>, env: Env): (s: Step)
    requires i < |record|
    ensures |s.items| == |items|
    ensures s.Continue? ==> |s.record| == |record| && forall j | 0 <= j < |record| && j != i :: s.record[j] == record[j]
    ensures Tags(f.tag).None? ==> s == Abort(IndexOutOfRange, items)
    ensures Tags(f.tag).Some? && Alias(f, Tags(f.tag).value) == "-" ==> s == Continue(items, record)
    ensures NeverWritten(f, i, |items|, env) && s.Continue? ==> s == Continue(items, record)
    ensures Resolved(f, i, |items|, env).None? ==> s.items == items
    ensures Resolved(f, i, |items|, env).Some? ==>
      var idx := Resolved(f, i, |items|, env).value;
      && idx < |items|
      && (forall j | 0 <= j < |items| && j != idx :: s.items[j] == items[j])
      && (items[idx] == "" && (IsPointerType(f.typeKey) || OmitEmpty(Tags(f.tag).value)) ==>
            s == Continue(items, record))
  {
    match Tags(f.tag)
    case None => Abort(IndexOutOfRange, items)
    case Some(tags) =>
      var alias := Alias(f, tags);
      if alias == "-" then Continue(items, record)
      else
        match GetSliceIndexForField(env.fieldNames, alias, i, |items|)
        case Err(e) =>
          if e == IndexDoesNotExist && !env.returnErrIndexDoesNotExist then Continue(items, record)
          else Abort(e, items)
        case Ok(idx) =>
          if !f.settable then Continue(items, record)
          else if IsPointerType(f.typeKey) && items[idx] == "" then Continue(items, record)
          else if OmitEmpty(tags) && items[idx] == "" then Continue(items, record)
          else Dispatch(f, tags, alias, idx, i, items, record, env)
  }

  /** A field whose alias does not resolve: a table-mode error always ends
      the call; a positional field past the items ends it only when
      ReturnErrIndexDoesNotExist is set, and is skipped otherwise. */
  lemma ResolutionErrorPolicy(f: FieldDesc, i: nat, items: seq<string>, record: seq<Value>, env: Env)
    requires i < |record|
    requires Tags(f.tag).Some? && Alias(f, Tags(f.tag).value) != "-"
    requires GetSliceIndexForField(env.fieldNames, Alias(f, Tags(f.tag).value), i, |items|).Err?
    ensures var e := GetSliceIndexForField(env.fieldNames, Alias(f, Tags(f.tag).value), i, |items|).error;
      && (|env.fieldNames| > 0 ==> FieldStep(f, i, items, record, env) == Abort(e, items))
      && (|env.fieldNames| == 0 ==> e == IndexDoesNotExist)
      && (|env.fieldNames| == 0 ==>
            FieldStep(f, i, items, record, env)
              == if env.returnErrIndexDoesNotExist then Abort(e, items) else Continue(items, record))
  {
  }

  /** The field loop from field i on. */
  function Assemble(fields: seq<FieldDesc>, i: nat, items: seq<string>, record: seq<Value>, env: Env): (o: Conversion)
    requires i <= |fields| == |record|
    ensures |o.items| == |items|
    ensures o.Built? ==> |o.record| == |record| && forall k | 0 <= k < i :: o.record[k] == record[k]
    decreases |fields| - i
  {
    if i == |fields| then Built(items, record)
    else
      match FieldStep(fields[i], i, items, record, env)
      case Abort(e, items') => Failed(e, items')
      case Continue(items', record') => Assemble(fields, i + 1, items', record', env)
  }

  function Zeros(n: nat): (r: seq<Value>)
    ensures |r| == n && forall k | 0 <= k < n :: r[k] == Zero
  {
    seq(n, _ => Zero)
  }

  /** ToStruct: with a non-empty name table holding fewer names than there
      are items, the call fails before any field is looked at; otherwise the
      field loop runs over a record of zero values. */
  function ToStructSpec(fields: seq<FieldDesc>, items: seq<string>, env: Env): (o: Conversion)
    ensures 0 < |env.fieldNames| < |items| ==> o == Failed(ConfigError(ItemsExceedFieldNames), items)
    ensures o.Built? ==> |o.record| == |fields|
    ensures |o.items| == |items|
  {
    if |env.fieldNames| > 0 && |env.fieldNames| < |items| then Failed(ConfigError(ItemsExceedFieldNames), items)
    else Assemble(fields, 0, items, Zeros(|fields|), env)
  }

  /** One turn of the field loop. */
  lemma AssembleStep(fields: seq<FieldDesc>, i: nat, items: seq<string>, record: seq<Value>, env: Env)
    requires i < |fields| == |record|
    ensures var s := FieldStep(fields[i], i, items, record, env);
      Assemble(fields, i, items, record, env) ==
        if s.Abort? then Failed(s.err, s.items) else Assemble(fields, i + 1, s.items, s.record, env)
  {
  }

  /** A field the loop passes without writing keeps the value it had. */
  lemma {:induction false} AssembleKeepsUnwritten(fields: seq<FieldDesc>, i: nat, items: seq<string>,
                                                 record: seq<Value>, env: Env, k: nat)
    requires i <= k < |fields| == |record|
    requires NeverWritten(fields[k], k, |items|, env)
    requires Assemble(fields, i, items, record, env).Built?
    ensures Assemble(fields, i, items, record, env).record[k] == record[k]
    decreases |fields| - i
  {
    var s := FieldStep(fields[i], i, items, record, env);
    if i < k {
      AssembleKeepsUnwritten(fields, i + 1, s.items, s.record, env, k);
    }
  }

  /** In a successful conversion a field tagged "-", an unexported field, or
      (positional mode, no error requested) a field past the items is Zero. */
  lemma UnwrittenFieldsStayZero(fields: seq<FieldDesc>, items: seq<string>, env: Env, k: nat)
    requires k < |fields| && NeverWritten(fields[k], k, |items|, env)
    requires ToStructSpec(fields, items, env).Built?
    ensures ToStructSpec(fields, items, env).record[k] == Zero
  {
    AssembleKeepsUnwritten(fields, 0, items, Zeros(|fields|), env, k);
  }

  /** With ReturnErrIndexDoesNotExist set, a positional field past the items
      (not tagged "-") makes the whole call fail. */
  lemma {:induction false} AssembleFailsPastItems(fields: seq<FieldDesc>, i: nat, items: seq<string>,
                                                 record: seq<Value>, env: Env, k: nat)
    requires i <= k < |fields| == |record|
    requires |env.fieldNames| == 0 && env.returnErrIndexDoesNotExist && k >= |items|
    requires Tags(fields[k].tag).Some? && Alias(fields[k], Tags(fields[k].tag).value) != "-"
    ensures Assemble(fields, i, items, record, env).Failed?
    decreases |fields| - i
  {
    var s := FieldStep(fields[i], i, items, record, env);
    if i == k {
      ResolutionErrorPolicy(fields[i], i, items, record, env);
    } else if s.Continue? {
      AssembleFailsPastItems(fields, i + 1, s.items, s.record, env, k);
    }
  }

  /** In table mode a field whose alias is not in the table, or maps past
      the items, makes the whole call fail: the loop never skips it. */
  lemma {:induction false} AssembleFailsOnTableError(fields: seq<FieldDesc>, i: nat, items: seq<string>,
                                                    record: seq<Value>, env: Env, k: nat)
    requires i <= k < |fields| == |record|
    requires |env.fieldNames| > 0
    requires Tags(fields[k].tag).Some? && Alias(fields[k], Tags(fields[k].tag).value) != "-"
    requires GetSliceIndexForField(env.fieldNames, Alias(fields[k], Tags(fields[k].tag).value), k, |items|).Err?
    ensures Assemble(fields, i, items, record, env).Failed?
    decreases |fields| - i
  {
    var s := FieldStep(fields[i], i, items, record, env);
    if i == k {
      ResolutionErrorPolicy(fields[i], i, items, record, env);
    } else if s.Continue? {
      AssembleFailsOnTableError(fields, i + 1, s.items, s.record, env, k);
    }
  }

  lemma TableErrorIsFatal(fields: seq<FieldDesc>, items: seq<string>, env: Env, k: nat)
    requires k < |fields| && |env.fieldNames| > 0
    requires Tags(fields[k].tag).Some? && Alias(fields[k], Tags(fields[k].tag).value) != "-"
    requires GetSliceIndexForField(env.fieldNames, Alias(fields[k], Tags(fields[k].tag).value), k, |items|).Err?
    ensures ToStructSpec(fields, items, env).Failed?
  {
    if |env.fieldNames| >= |items| {
      AssembleFailsOnTableError(fields, 0, items, Zeros(|fields|), env, k);
    }
  }

  lemma MissingIndexIsFatalWhenRequested(fields: seq<FieldDesc>, items: seq<string>, env: Env, k: nat)
    requires k < |fields| && |items| <= k
    requires |env.fieldNames| == 0 && env.returnErrIndexDoesNotExist
    requires Tags(fields[k].tag).Some? && Alias(fields[k], Tags(fields[k].tag).value) != "-"
    ensures ToStructSpec(fields, items, env).Failed?
  {
    AssembleFailsPastItems(fields, 0, items, Zeros(|fields|), env, k);
  }

  /** The empty-token skip is only for pointer and omitempty fields: any
      other resolved, settable field hands its empty token to the registry
      or the switch like any other token. */
  lemma EmptyTokenIsConverted(f: FieldDesc, i: nat, items: seq<string>, record: seq<Value>, env: Env)
    requires i < |record|
    requires Resolved(f, i, |items|, env).Some?
    requires var idx := Resolved(f, i, |items|, env).value;
      idx < |items| && items[idx] == ""
    requires !IsPointerType(f.typeKey) && !OmitEmpty(Tags(f.tag).value)
    ensures var idx := Resolved(f, i, |items|, env).value;
      var tags := Tags(f.tag).value;
      FieldStep(f, i, items, record, env) == Dispatch(f, tags, Alias(f, tags), idx, i, items, record, env)
  {
  }

  /** A registered converter takes precedence over the built-in switch, even
      for a key the switch handles and even for an empty token the field does
      not skip. */
  lemma RegisteredConverterWins(f: FieldDesc, i: nat, items: seq<string>, record: seq<Value>,
                                env: Env, ref: ConverterRef)
    requires i < |record|
    requires Resolved(f, i, |items|, env).Some?
    requires var idx := Resolved(f, i, |items|, env).value;
      idx < |items| && !(items[idx] == "" && (IsPointerType(f.typeKey) || OmitEmpty(Tags(f.tag).value)))
    ensures var env' := env.(registry := env.registry[f.typeKey := ref]);
      var idx := Resolved(f, i, |items|, env).value;
      var tags := Tags(f.tag).value;
      var r := Convert(ref, items, idx, tags, Alias(f, tags), f.typeKey, env.lib);
      FieldStep(f, i, items, record, env') ==
        if r.err.Some? then Abort(r.err.value, r.items) else Continue(r.items, Written(record, i, r.dest))
  {
  }

  /** A key neither registered nor handled by the switch fails the call,
      whatever token the field reads, unless the field skips an empty one. */
  lemma UnsupportedTypeFails(f: FieldDesc, i: nat, items: seq<string>, record: seq<Value>, env: Env)
    requires i < |record|
    requires Resolved(f, i, |items|, env).Some?
    requires var idx := Resolved(f, i, |items|, env).value;
      idx < |items| && !(items[idx] == "" && (IsPointerType(f.typeKey) || OmitEmpty(Tags(f.tag).value)))
    requires f.typeKey !in env.registry && f.typeKey !in FallbackKeys
    ensures FieldStep(f, i, items, record, env) == Abort(TypeNotImplemented(f.typeKey), items)
  {
  }

  /** The sql wrapper converter reads the comma flag from the Params it was
      built with, so the engine's own flag has no say over its fields. */
  lemma SqlConverterIgnoresEngineFlag(f: FieldDesc, tags: seq<string>, alias: string, idx: nat, i: nat,
                                      items: seq<string>, record: seq<Value>, env: Env, flag: bool)
    requires idx < |items| && i < |record|
    requires f.typeKey in env.registry && env.registry[f.typeKey].SqlValueC?
    ensures Dispatch(f, tags, alias, idx, i, items, record, env.(replaceCommaToDot := flag))
         == Dispatch(f, tags, alias, idx, i, items, record, env)
  {
  }

  /** The registry New installs: int64, *int64 and int get their own
      converters, and the eight sql.Null* keys share one wrapper converter
      holding the engine's Params. */
  predicate BuiltinRegistry(m: map<string, ConverterRef>, params: Params) {
    && m.Keys == SqlValueConverter.SqlKeys + {"int64", "*int64", "int"}
    && m["int64"].Int64C?
    && m["*int64"].NullInt64C?
    && m["int"].IntC?
    && m["sql.NullInt64"].SqlValueC? && m["sql.NullInt64"].sqlValue.params == params
    && forall k | k in SqlValueConverter.SqlKeys :: m[k] == m["sql.NullInt64"]
  }

  function BuiltinMap(c64: ConverterRef, cNull: ConverterRef, cInt: ConverterRef, sql: ConverterRef)
    : map<string, ConverterRef>
  {
    map["int64" := c64, "*int64" := cNull, "int" := cInt,
        "sql.NullInt64" := sql, "sql.NullFloat64" := sql, "sql.NullString" := sql,
        "sql.NullInt32" := sql, "sql.NullInt16" := sql, "sql.NullByte" := sql,
        "sql.NullBool" := sql, "sql.NullTime" := sql]
  }

  lemma BuiltinMapIsBuiltin(c64: ConverterRef, cNull: ConverterRef, cInt: ConverterRef,
                            sql: ConverterRef, params: Params)
    requires c64.Int64C? && cNull.NullInt64C? && cInt.IntC?
    requires sql.SqlValueC? && sql.sqlValue.params == params
    ensures BuiltinRegistry(BuiltinMap(c64, cNull, cInt, sql), params)
  {
  }

  method NewRegistry(params: Params) returns (reg: Converters)
    ensures fresh(reg) && BuiltinRegistry(reg.converters, params)
  {
    reg := new Converters();
    var c64 := new Int64Converter.ConvertInt64();
    var cNull := new NullInt64Converter.ConvertNullInt64();
    var cInt := new IntConverter.ConvertInt();
    var cSql := new SqlValueConverter.ConvertSqlValue(params);
    var sql := SqlValueC(cSql);
    reg.SetConverter("int64", Int64C(c64));
    reg.SetConverter("*int64", NullInt64C(cNull));
    reg.SetConverter("int", IntC(cInt));
    reg.SetConverter("sql.NullInt64", sql);
    reg.SetConverter("sql.NullFloat64", sql);
    reg.SetConverter("sql.NullString", sql);
    reg.SetConverter("sql.NullInt32", sql);
    reg.SetConverter("sql.NullInt16", sql);
    reg.SetConverter("sql.NullByte", sql);
    reg.SetConverter("sql.NullBool", sql);
    reg.SetConverter("sql.NullTime", sql);
    assert reg.converters == BuiltinMap(Int64C(c64), NullInt64C(cNull), IntC(cInt), sql);
    BuiltinMapIsBuiltin(Int64C(c64), NullInt64C(cNull), IntC(cInt), sql, params);
  }

  /** The engine, SliceToStruct[T], for one descriptor table. */
  class SliceToStruct {
    const fields: seq<FieldDesc>
    /** The embedded Params, the engine's own copy. */
    var params: Params
    /** The name table; empty (nil) means positional mode. */
    var fieldNames: map<string, nat>
    const converters: Converters

    /** New: seed a fresh registry with the eleven built-in keys (the eight
        sql keys share one converter, which keeps the Params it was given),
        then install the name table from params.fieldNames. */
    constructor New(fields: seq<FieldDesc>, params: Params)
      ensures this.fields == fields && this.params == params
      ensures fieldNames == NameTable(params.fieldNames)
      ensures fresh(converters)
      ensures BuiltinRegistry(converters.converters, params)
    {
      var reg := NewRegistry(params);
      this.fields := fields;
      this.params := params;
      this.fieldNames := map[];
      this.converters := reg;
      new;
      SetFieldNames(params.fieldNames);
    }

    /** Register or override a converter; last write wins. */
    method SetConverter(name: string, converter: ConverterRef)
      modifies converters
      ensures converters.converters == old(converters.converters)[name := converter]
    {
      converters.SetConverter(name, converter);
    }

    /** Replace the name table; params.fieldNames is left as it was. */
    method SetFieldNames(names: seq<string>)
      modifies this`fieldNames
      ensures fieldNames == NameTable(names)
    {
      if |names| == 0 {
        fieldNames := map[];
        return;
      }
      var m: map<string, nat> := map[];
      for i := 0 to |names|
        invariant m == NameTable(names[..i])
      {
        assert names[..i + 1][..i] == names[..i];
        m := m[names[i] := i];
      }
      assert names[..|names|] == names;
      fieldNames := m;
    }

    function EnvOf(lib: Library): Env
      reads this, converters
    {
      Env(fieldNames, params.returnErrIndexDoesNotExist, params.replaceCommaToDot, converters.converters, lib)
    }

    /** ToStruct: convert one row. Converters may rewrite the caller's items;
        on any error no record is returned. */
    method ToStruct(items: array<string>, lib: Library) returns (rec: array?<Value>, err: Option<Error>)
      modifies items, converters.Objects()
      ensures rec == null <==> err.Some?
      ensures var out := ToStructSpec(fields, old(items[..]), old(EnvOf(lib)));
        && (out.Built? ==> rec != null && fresh(rec) && rec[..] == out.record && items[..] == out.items)
        && (out.Failed? ==> err == Some(out.err) && items[..] == out.items)
    {
      if |fieldNames| > 0 && |fieldNames| < items.Length {
        return null, Some(ConfigError(ItemsExceedFieldNames));
      }
      var record := new Value[|fields|](_ => Zero);
      assert record[..] == Zeros(|fields|);
      err := ConvertFields(items, record, lib);
      if err.Some? {
        return null, err;
      }
      return record, None;
    }

    /** The field loop of ToStruct, writing into the new record. */
    method ConvertFields(items: array<string>, record: array<Value>, lib: Library) returns (err: Option<Error>)
      requires record.Length == |fields| && record !in converters.Objects()
      modifies items, record, converters.Objects()
      ensures var out := Assemble(fields, 0, old(items[..]), old(record[..]), old(EnvOf(lib)));
        && (out.Built? ==> err.None? && record[..] == out.record && items[..] == out.items)
        && (out.Failed? ==> err == Some(out.err) && items[..] == out.items)
    {
      ghost var env := EnvOf(lib);
      ghost var out := Assemble(fields, 0, items[..], record[..], env);
      ghost var objects := converters.Objects();
      var i := 0;
      while i < |fields|
        invariant 0 <= i <= |fields|
        invariant env == EnvOf(lib) && converters.Objects() == objects
        invariant Assemble(fields, i, items[..], record[..], env) == out
      {
        ghost var it, rc := items[..], record[..];
        err := ConvertField(i, items, record, lib);
        AssembleStep(fields, i, it, rc, env);
        if err.Some? {
          return;
        }
        i := i + 1;
      }
      return None;
    }

    /** One iteration of the field loop. */
    method ConvertField(i: nat, items: array<string>, record: array<Value>, lib: Library) returns (err: Option<Error>)
      requires i < |fields| == record.Length
      requires record !in converters.Objects()
      modifies items, record, converters.Objects()
      ensures EnvOf(lib) == old(EnvOf(lib)) && converters.Objects() == old(converters.Objects())
      ensures var s := FieldStep(fields[i], i, old(items[..]), old(record[..]), old(EnvOf(lib)));
        && items[..] == s.items
        && (s.Abort? <==> err.Some?)
        && (s.Abort? ==> err == Some(s.err))
        && (s.Continue? ==> record[..] == s.record)
    {
      var f := fields[i];
      var tags := GetTags(f.tag);
      if tags.None? {
        return Some(IndexOutOfRange);
      }
      var sliceFieldName := f.name;
      if |tags.value| > 0 && tags.value[0] != "" {
        sliceFieldName := tags.value[0];
      }
      if sliceFieldName == "-" {
        return None;
      }
      var fieldIndex := GetSliceIndexForField(fieldNames, sliceFieldName, i, items.Length);
      if fieldIndex.Err? {
        if fieldIndex.error == IndexDoesNotExist && !params.returnErrIndexDoesNotExist {
          return None;
        }
        return Some(fieldIndex.error);
      }
      var idx := fieldIndex.value;
      if !f.settable {
        return None;
      }
      if IsPointerType(f.typeKey) && items[idx] == "" {
        return None;
      }
      if OmitEmpty(tags.value) && items[idx] == "" {
        return None;
      }
      err := DispatchField(f, tags.value, sliceFieldName, idx, i, items, record, lib);
    }

    /** The registered converter for the field's type key, or the built-in
        switch when there is none. */
    method DispatchField(f: FieldDesc, tags: seq<string>, alias: string, idx: nat, i: nat,
                         items: array<string>, record: array<Value>, lib: Library) returns (err: Option<Error>)
      requires idx < items.Length && i < record.Length
      requires record !in converters.Objects()
      modifies items, record, converters.Objects()
      ensures EnvOf(lib) == old(EnvOf(lib)) && converters.Objects() == old(converters.Objects())
      ensures var s := Dispatch(f, tags, alias, idx, i, old(items[..]), old(record[..]), old(EnvOf(lib)));
        && items[..] == s.items
        && (s.Abort? <==> err.Some?)
        && (s.Abort? ==> err == Some(s.err))
        && (s.Continue? ==> record[..] == s.record)
    {
      var converter := converters.GetConverter(f.typeKey);
      if converter.Ok? {
        assert converter.value.Obj() in converters.Objects();
        err := Converter.Set(converter.value, ConvertValueParams(items, idx, record, i, tags, alias, f.typeKey), lib);
        return err;
      }
      err := ConvertBuiltin(f.typeKey, tags, idx, i, items, record, lib);
    }

    /** The built-in switch for a type key with no registered converter. */
    method ConvertBuiltin(typeKey: string, tags: seq<string>, idx: nat, i: nat,
                          items: array<string>, record: array<Value>, lib: Library) returns (err: Option<Error>)
      requires idx < items.Length && i < record.Length
      modifies items, record
      ensures var s := Fallback(typeKey, tags, idx, i, old(items[..]), old(record[..]), EnvOf(lib));
        && items[..] == s.items
        && (s.Abort? <==> err.Some?)
        && (s.Abort? ==> err == Some(s.err))
        && (s.Continue? ==> record[..] == s.record)
    {
      var token := items[idx];
      if typeKey == "*int" {
        var v := ParseInt(token);
        if v.None? {
          return Some(Parse(token));
        }
        record[i] := IntPtr(v.value);
      } else if typeKey == "string" {
        record[i] := Str(token);
      } else if typeKey == "*string" {
        record[i] := StrPtr(token);
      } else if typeKey == "float64" || typeKey == "*float64" {
        if params.replaceCommaToDot {
          items[idx] := ReplaceFirst(items[idx], ',', '.');
        }
        var x := lib.parseFloat(items[idx]);
        if x.None? {
          return Some(Parse(items[idx]));
        }
        record[i] := if typeKey == "float64" then Float(x.value) else FloatPtr(x.value);
      } else if typeKey == "time.Time" || typeKey == "*time.Time" {
        var t := lib.parseTime(TimeLayout(tags), token);
        if t.None? {
          return Some(Parse(token));
        }
        record[i] := if typeKey == "time.Time" then Time(t.value) else TimePtr(t.value);
      } else {
        return Some(TypeNotImplemented(typeKey));
      }
      return None;
    }
  }
}
