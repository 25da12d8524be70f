/** The package's own test cases, stated over the model: tag parsing,
    positional and table resolution, the skip rules, a converter override
    and the sql.NullTime layout. */
module Scenarios {
  import opened Types
  import opened GoStrings
  import opened GoStrconv
  import opened TagParser
  import opened FieldResolver
  import opened Converter
  import opened Engine
  import RewriteConverter

  // ---- getTags ----

  lemma NoHash(s: string)
    requires |s| > 0 && s[|s| - 1] != '#'
    ensures !Escaped(s)
  {
    HasHashSuffix(s);
  }

  lemma Hash(s: string)
    requires |s| > 0 && s[|s| - 1] == '#'
    ensures Escaped(s)
  {
    HasHashSuffix(s);
  }

  /** Three plain pieces come back as they are. */
  lemma TagsPlain()
    ensures Tags("test,test1,dddd323") == Some(["test", "test1", "dddd323"])
  {
    SplitOf(["test", "test1", "dddd323"], "test,test1,dddd323");
    UnescapePlain();
  }

  lemma UnescapePlain()
    ensures Unescape(["test", "test1", "dddd323"]) == Some(["test", "test1", "dddd323"])
  {
    var ps := ["test", "test1", "dddd323"];
    NoHash("test"); NoHash("test1"); NoHash("dddd323");
    UnescapeNoEscape(ps);
  }

  lemma TagsSingle()
    ensures Tags("test") == Some(["test"])
  {
    SplitJoin(["test"]);
    NoHash("test");
    UnescapeNoEscape(["test"]);
  }

  /** An escaped first piece absorbs the second; the third stays. */
  lemma TagsEscapedFirst()
    ensures Tags("test#,test1,dddd323") == Some(["test,test1", "dddd323"])
  {
    SplitOf(["test#", "test1", "dddd323"], "test#,test1,dddd323");
    UnescapeEscapedFirst();
  }

  lemma UnescapeEscapedFirst()
    ensures Unescape(["test#", "test1", "dddd323"]) == Some(["test,test1", "dddd323"])
  {
    var ps := ["test#", "test1", "dddd323"];
    Hash("test#");
    OnePiece("dddd323");
    assert ps[2..] == ["dddd323"];
    assert Unescape(ps) == Prepend([Merge("test#", "test1")], Unescape(["dddd323"]));
    assert Merge("test#", "test1") == "test,test1";
    assert ["test,test1"] + ["dddd323"] == ["test,test1", "dddd323"];
  }

  /** A concrete split, through its inverse. */
  lemma SplitOf(ps: seq<string>, s: string)
    requires |ps| >= 1 && forall k | 0 <= k < |ps| :: ',' !in ps[k]
    requires Join(ps) == s
    ensures Split(s) == ps
  {
    SplitJoin(ps);
  }

  lemma TagsEscapedPair()
    ensures Tags("test#,test1") == Some(["test,test1"])
  {
    var ps := ["test#", "test1"];
    SplitJoin(ps);
    assert Join(ps) == "test#,test1";
    Hash("test#");
    UnescapePair("test#", "test1");
    assert Merge("test#", "test1") == "test,test1";
  }

  /** An escape in the middle: the plain piece before it is kept. */
  lemma TagsEscapedMiddle()
    ensures Tags("test1,test#,test1") == Some(["test1", "test,test1"])
  {
    SplitOf(["test1", "test#", "test1"], "test1,test#,test1");
    UnescapeEscapedMiddle();
  }

  lemma UnescapeEscapedMiddle()
    ensures Unescape(["test1", "test#", "test1"]) == Some(["test1", "test,test1"])
  {
    var ps := ["test1", "test#", "test1"];
    NoHash("test1"); Hash("test#");
    UnescapePair("test#", "test1");
    assert ps[1..] == ["test#", "test1"];
    assert Unescape(ps) == Prepend(["test1"], Unescape(["test#", "test1"]));
    assert Merge("test#", "test1") == "test,test1";
    assert ["test1"] + ["test,test1"] == ["test1", "test,test1"];
  }

  /** A trailing escape has nothing to absorb: getTags panics. */
  lemma TagsTrailingEscape()
    ensures Tags("test#") == None
  {
    SplitJoin(["test#"]);
    Hash("test#");
  }

  // ---- tags of the test structs ----

  lemma TagsEmpty()
    ensures Tags("") == Some([""])
  {
    assert Split("") == [""];
    assert !Escaped("");
    var ps := [""];
    assert ps[0] == "" && |ps| == 1 && ps[1..] == [];
    assert Unescape([]) == Some([]);
    assert Unescape(ps) == Prepend([ps[0]], Unescape(ps[1..]));
    assert [""] + [] == [""];
  }

  lemma OnePiece(w: string)
    requires |w| > 0 && w[|w| - 1] != '#'
    ensures Unescape([w]) == Some([w])
  {
    NoHash(w);
    var ps := [w];
    assert ps[0] == w && |ps| == 1 && ps[1..] == [];
    assert Unescape([]) == Some([]);
    assert Unescape(ps) == Prepend([ps[0]], Unescape(ps[1..]));
    assert [w] + [] == [w];
  }

  lemma TagsWord(w: string)
    requires |w| > 0 && ',' !in w && w[|w| - 1] != '#'
    ensures Tags(w) == Some([w])
  {
    SplitJoin([w]);
    NoHash(w);
    UnescapeNoEscape([w]);
  }

  lemma TagsOmitEmpty()
    ensures Tags(",omitempty") == Some(["", "omitempty"])
  {
    SplitOf(["", "omitempty"], ",omitempty");
    UnescapeOmitEmpty();
  }

  lemma UnescapeOmitEmpty()
    ensures Unescape(["", "omitempty"]) == Some(["", "omitempty"])
  {
    var ps := ["", "omitempty"];
    assert !Escaped("");
    OnePiece("omitempty");
    assert ps[1..] == ["omitempty"];
    assert Unescape(ps) == Prepend([""], Unescape(["omitempty"]));
    assert [""] + ["omitempty"] == ps;
  }

  // ---- integer tokens ----

  lemma Int(n: nat, s: string)
    requires n <= MaxInt64 && s == FormatInt(n)
    ensures ParseInt(s) == Some(n)
  {
    ParseFormatInt(n);
  }

  // ---- field kinds of the test structs ----

  function Int64Field(name: string, tag: string): FieldDesc {
    FieldDesc(name, tag, "int64", true)
  }

  /** An exported int64 field whose alias is not "-". */
  predicate IntField(f: FieldDesc) {
    f.typeKey == "int64" && f.settable && Tags(f.tag).Some? && Alias(f, Tags(f.tag).value) != "-"
  }

  /** A field tagged "-". */
  predicate Dropped(f: FieldDesc) {
    Tags(f.tag).Some? && Alias(f, Tags(f.tag).value) == "-"
  }

  function AliasOf(f: FieldDesc): string
    requires Tags(f.tag).Some?
  {
    Alias(f, Tags(f.tag).value)
  }

  /** An empty tag keeps the field's own name. */
  lemma BareField(name: string)
    requires name != "-"
    ensures IntField(Int64Field(name, "")) && AliasOf(Int64Field(name, "")) == name
    ensures !OmitEmpty(Tags("").value)
  {
    TagsEmpty();
  }

  /** `,omitempty` keeps the field's own name and sets the omitempty flag. */
  lemma OmitField(name: string)
    requires name != "-"
    ensures IntField(Int64Field(name, ",omitempty")) && AliasOf(Int64Field(name, ",omitempty")) == name
    ensures OmitEmpty(Tags(",omitempty").value)
  {
    TagsOmitEmpty();
  }

  lemma NamedField(name: string, alias: string)
    requires |alias| > 0 && ',' !in alias && alias[|alias| - 1] != '#' && alias != "-"
    ensures IntField(Int64Field(name, alias)) && AliasOf(Int64Field(name, alias)) == alias
    ensures !OmitEmpty(Tags(alias).value)
  {
    TagsWord(alias);
  }

  lemma DroppedField(name: string)
    ensures Dropped(Int64Field(name, "-"))
  {
    TagsWord("-");
  }

  // ---- single steps of the field loop ----

  /** An environment whose "int64" key holds the built-in int64 converter. */
  predicate BuiltinInt64(env: Env) {
    "int64" in env.registry && env.registry["int64"].Int64C?
  }

  /** An int64 field that resolves to idx and whose token parses. */
  lemma Int64Step(f: FieldDesc, i: nat, idx: nat, items: seq<string>, record: seq<Value>, env: Env, v: int)
    requires i < |record| && IntField(f) && BuiltinInt64(env)
    requires GetSliceIndexForField(env.fieldNames, AliasOf(f), i, |items|) == Ok(idx)
    requires idx < |items| && ParseInt(items[idx]) == Some(v)
    ensures FieldStep(f, i, items, record, env) == Continue(items, record[i := IntV(v)])
  {
  }

  /** An int64 field under the rewriting override: the item is rewritten
      only when the field's alias is the override's target. */
  lemma RewriteStep(f: FieldDesc, i: nat, idx: nat, items: seq<string>, record: seq<Value>, env: Env, v: int)
    requires i < |record| && IntField(f)
    requires GetSliceIndexForField(env.fieldNames, AliasOf(f), i, |items|) == Ok(idx)
    requires "int64" in env.registry
    requires var c := env.registry["int64"];
      && c.RewriteC? && idx < |items| && items[idx] != ""
      && ParseInt(RewriteConverter.Rewritten(c.rewrite.target, c.rewrite.replacement, items, idx, AliasOf(f))[idx]) == Some(v)
    ensures var c := env.registry["int64"];
      FieldStep(f, i, items, record, env) ==
        Continue(RewriteConverter.Rewritten(c.rewrite.target, c.rewrite.replacement, items, idx, AliasOf(f)),
                 record[i := IntV(v)])
  {
  }

  /** A field tagged "-" is passed over. */
  lemma DroppedStep(f: FieldDesc, i: nat, items: seq<string>, record: seq<Value>, env: Env)
    requires i < |record| && Dropped(f)
    ensures FieldStep(f, i, items, record, env) == Continue(items, record)
  {
  }

  /** An omitempty field whose token is empty is passed over. */
  lemma OmitStep(f: FieldDesc, i: nat, idx: nat, items: seq<string>, record: seq<Value>, env: Env)
    requires i < |record| && IntField(f) && OmitEmpty(Tags(f.tag).value)
    requires GetSliceIndexForField(env.fieldNames, AliasOf(f), i, |items|) == Ok(idx)
    requires idx < |items| && items[idx] == ""
    ensures FieldStep(f, i, items, record, env) == Continue(items, record)
  {
  }

  lemma Assemble2(fs: seq<FieldDesc>, env: Env, i0: seq<string>, r0: seq<Value>, i1: seq<string>, r1: seq<Value>,
                  i2: seq<string>, r2: seq<Value>)
    requires |fs| == 2 == |r0|
    requires FieldStep(fs[0], 0, i0, r0, env) == Continue(i1, r1)
    requires FieldStep(fs[1], 1, i1, r1, env) == Continue(i2, r2)
    ensures Assemble(fs, 0, i0, r0, env) == Built(i2, r2)
  {
    AssembleStep(fs, 0, i0, r0, env);
    AssembleStep(fs, 1, i1, r1, env);
  }

  lemma Assemble3(fs: seq<FieldDesc>, env: Env, i0: seq<string>, r0: seq<Value>, i1: seq<string>, r1: seq<Value>,
                  i2: seq<string>, r2: seq<Value>, i3: seq<string>, r3: seq<Value>)
    requires |fs| == 3 == |r0|
    requires FieldStep(fs[0], 0, i0, r0, env) == Continue(i1, r1)
    requires FieldStep(fs[1], 1, i1, r1, env) == Continue(i2, r2)
    requires FieldStep(fs[2], 2, i2, r2, env) == Continue(i3, r3)
    ensures Assemble(fs, 0, i0, r0, env) == Built(i3, r3)
  {
    AssembleStep(fs, 0, i0, r0, env);
    AssembleStep(fs, 1, i1, r1, env);
    AssembleStep(fs, 2, i2, r2, env);
  }

  // ---- whole rows ----

  /** Positional mode, two int64 fields and one item: the second field
      stays zero, unless missing indexes are errors, when the call fails. */
  lemma OneItemTwoFields(f0: FieldDesc, f1: FieldDesc, items: seq<string>, env: Env, v0: int)
    requires IntField(f0) && IntField(f1) && BuiltinInt64(env) && env.fieldNames == map[]
    requires |items| == 1 && ParseInt(items[0]) == Some(v0)
    ensures !env.returnErrIndexDoesNotExist ==> ToStructSpec([f0, f1], items, env) == Built(items, [IntV(v0), Zero])
    ensures env.returnErrIndexDoesNotExist ==> ToStructSpec([f0, f1], items, env) == Failed(IndexDoesNotExist, items)
  {
    var fs := [f0, f1];
    var r0 := Zeros(2);
    var r1 := r0[0 := IntV(v0)];
    Int64Step(f0, 0, 0, items, r0, env, v0);
    AssembleStep(fs, 0, items, r0, env);
    AssembleStep(fs, 1, items, r1, env);
    assert r1 == [IntV(v0), Zero];
  }

  /** Table mode, two int64 fields: the up-front check passes whenever the
      table has at least as many names as there are items, and the call
      still fails when the second alias maps past the items. */
  lemma TableAliasPastItems(f0: FieldDesc, f1: FieldDesc, items: seq<string>, env: Env, j0: nat, v0: int)
    requires IntField(f0) && IntField(f1) && BuiltinInt64(env)
    requires |items| <= |env.fieldNames|
    requires GetSliceIndexForField(env.fieldNames, AliasOf(f0), 0, |items|) == Ok(j0)
    requires ParseInt(items[j0]) == Some(v0)
    requires AliasOf(f1) in env.fieldNames && env.fieldNames[AliasOf(f1)] >= |items|
    ensures ToStructSpec([f0, f1], items, env)
         == Failed(ConfigError(IndexOutOfItems(AliasOf(f1), env.fieldNames[AliasOf(f1)])), items)
  {
    var fs := [f0, f1];
    var r0 := Zeros(2);
    var r1 := r0[0 := IntV(v0)];
    Int64Step(f0, 0, j0, items, r0, env, v0);
    AssembleStep(fs, 0, items, r0, env);
    AssembleStep(fs, 1, items, r1, env);
  }

  /** One int64 field that resolves reads the item it resolves to. */
  lemma OneIntRow(f: FieldDesc, items: seq<string>, env: Env, j: nat, v: int)
    requires IntField(f) && BuiltinInt64(env)
    requires !(0 < |env.fieldNames| < |items|)
    requires GetSliceIndexForField(env.fieldNames, AliasOf(f), 0, |items|) == Ok(j)
    requires ParseInt(items[j]) == Some(v)
    ensures ToStructSpec([f], items, env) == Built(items, [IntV(v)])
  {
    var r0 := Zeros(1);
    Int64Step(f, 0, j, items, r0, env, v);
    AssembleStep([f], 0, items, r0, env);
    assert r0[0 := IntV(v)] == [IntV(v)];
  }

  /** Two int64 fields that both resolve, positionally or through a table:
      each reads the item it resolves to, whatever else the table names. */
  lemma TwoIntsRow(f0: FieldDesc, f1: FieldDesc, items: seq<string>, env: Env, j0: nat, j1: nat, v0: int, v1: int)
    requires IntField(f0) && IntField(f1) && BuiltinInt64(env)
    requires !(0 < |env.fieldNames| < |items|)
    requires GetSliceIndexForField(env.fieldNames, AliasOf(f0), 0, |items|) == Ok(j0)
    requires GetSliceIndexForField(env.fieldNames, AliasOf(f1), 1, |items|) == Ok(j1)
    requires ParseInt(items[j0]) == Some(v0) && ParseInt(items[j1]) == Some(v1)
    ensures ToStructSpec([f0, f1], items, env) == Built(items, [IntV(v0), IntV(v1)])
  {
    var fs := [f0, f1];
    var r0 := Zeros(2);
    var r1 := r0[0 := IntV(v0)];
    var r2 := r1[1 := IntV(v1)];
    Int64Step(f0, 0, j0, items, r0, env, v0);
    Int64Step(f1, 1, j1, items, r1, env, v1);
    Assemble2(fs, env, items, r0, items, r1, items, r2);
    assert r2 == [IntV(v0), IntV(v1)];
  }

  /** Positional mode, an omitempty field between two int64 fields: an
      empty token leaves it zero and the third field still reads item 2. */
  lemma OmitEmptyRow(f0: FieldDesc, f1: FieldDesc, f2: FieldDesc, items: seq<string>, env: Env, v0: int, v2: int)
    requires env.fieldNames == map[] && BuiltinInt64(env)
    requires IntField(f0) && IntField(f1) && IntField(f2) && OmitEmpty(Tags(f1.tag).value)
    requires |items| == 3 && items[1] == ""
    requires ParseInt(items[0]) == Some(v0) && ParseInt(items[2]) == Some(v2)
    ensures ToStructSpec([f0, f1, f2], items, env) == Built(items, [IntV(v0), Zero, IntV(v2)])
  {
    var fs := [f0, f1, f2];
    var r0 := Zeros(3);
    var r1 := r0[0 := IntV(v0)];
    var r3 := r1[2 := IntV(v2)];
    Int64Step(f0, 0, 0, items, r0, env, v0);
    OmitStep(f1, 1, 1, items, r1, env);
    Int64Step(f2, 2, 2, items, r1, env, v2);
    Assemble3(fs, env, items, r0, items, r1, items, r1, items, r3);
    assert r3 == [IntV(v0), Zero, IntV(v2)];
  }

  /** Positional mode, a "-" field between two int64 fields: it stays zero,
      and the field after it reads its own position, not the skipped one's. */
  lemma SkipRow(f0: FieldDesc, f1: FieldDesc, f2: FieldDesc, items: seq<string>, env: Env, v0: int, v2: int)
    requires env.fieldNames == map[] && BuiltinInt64(env)
    requires IntField(f0) && Dropped(f1) && IntField(f2)
    requires |items| == 3
    requires ParseInt(items[0]) == Some(v0) && ParseInt(items[2]) == Some(v2)
    ensures ToStructSpec([f0, f1, f2], items, env) == Built(items, [IntV(v0), Zero, IntV(v2)])
  {
    var fs := [f0, f1, f2];
    var r0 := Zeros(3);
    var r1 := r0[0 := IntV(v0)];
    var r3 := r1[2 := IntV(v2)];
    Int64Step(f0, 0, 0, items, r0, env, v0);
    DroppedStep(f1, 1, items, r1, env);
    Int64Step(f2, 2, 2, items, r1, env, v2);
    Assemble3(fs, env, items, r0, items, r1, items, r1, items, r3);
    assert r3 == [IntV(v0), Zero, IntV(v2)];
  }

  /** Two int64 fields and a trailing "-" field, each int64 field reading
      the index its alias resolves to (positionally or through the table). */
  lemma TwoIntsThenDropped(f0: FieldDesc, f1: FieldDesc, f2: FieldDesc, items: seq<string>, env: Env,
                           j0: nat, j1: nat, v0: int, v1: int)
    requires IntField(f0) && IntField(f1) && Dropped(f2) && BuiltinInt64(env)
    requires !(0 < |env.fieldNames| < |items|)
    requires GetSliceIndexForField(env.fieldNames, AliasOf(f0), 0, |items|) == Ok(j0)
    requires GetSliceIndexForField(env.fieldNames, AliasOf(f1), 1, |items|) == Ok(j1)
    requires ParseInt(items[j0]) == Some(v0) && ParseInt(items[j1]) == Some(v1)
    ensures ToStructSpec([f0, f1, f2], items, env) == Built(items, [IntV(v0), IntV(v1), Zero])
  {
    var fs := [f0, f1, f2];
    var r0 := Zeros(3);
    var r1 := r0[0 := IntV(v0)];
    var r2 := r1[1 := IntV(v1)];
    Int64Step(f0, 0, j0, items, r0, env, v0);
    Int64Step(f1, 1, j1, items, r1, env, v1);
    DroppedStep(f2, 2, items, r2, env);
    Assemble3(fs, env, items, r0, items, r1, items, r2, items, r2);
    assert r2 == [IntV(v0), IntV(v1), Zero];
  }

  /** With the test's override registered under "int64": the field whose
      alias is the override's target reads the replacement, which stays in
      the caller's buffer; the other int64 field is converted as before. */
  lemma OverrideRow(f0: FieldDesc, f1: FieldDesc, f2: FieldDesc, items: seq<string>, env: Env,
                    replacement: string, v0: int, v1: int)
    requires IntField(f0) && IntField(f1) && Dropped(f2) && AliasOf(f1) != AliasOf(f0)
    requires env.fieldNames == map[] && "int64" in env.registry
    requires var c := env.registry["int64"];
      c.RewriteC? && c.rewrite.target == AliasOf(f0) && c.rewrite.replacement == replacement
    requires ParseInt(replacement) == Some(v0)
    requires |items| == 3 && items[0] != "" && ParseInt(items[1]) == Some(v1)
    ensures ToStructSpec([f0, f1, f2], items, env) == Built(items[0 := replacement], [IntV(v0), IntV(v1), Zero])
  {
    var fs := [f0, f1, f2];
    var items' := items[0 := replacement];
    var r0 := Zeros(3);
    var r1 := r0[0 := IntV(v0)];
    var r2 := r1[1 := IntV(v1)];
    var c := env.registry["int64"].rewrite;
    assert RewriteConverter.Rewritten(c.target, c.replacement, items, 0, AliasOf(f0)) == items';
    assert RewriteConverter.Rewritten(c.target, c.replacement, items', 1, AliasOf(f1)) == items';
    assert GetSliceIndexForField(env.fieldNames, AliasOf(f0), 0, |items|) == Ok(0);
    assert GetSliceIndexForField(env.fieldNames, AliasOf(f1), 1, |items'|) == Ok(1);
    RewriteStep(f0, 0, 0, items, r0, env, v0);
    RewriteStep(f1, 1, 1, items', r1, env, v1);
    DroppedStep(f2, 2, items', r2, env);
    Assemble3(fs, env, items, r0, items', r1, items', r2, items', r2);
    assert r2 == [IntV(v0), IntV(v1), Zero];
  }

  /** A sql.NullTime field whose tags give no layout is parsed with
      "02.01.2006" and written as a valid wrapper. */
  lemma NullTimeRow(f: FieldDesc, items: seq<string>, env: Env, t: Instant)
    requires f.typeKey == "sql.NullTime" && f.settable
    requires Tags(f.tag).Some? && |Tags(f.tag).value| <= 2 && Alias(f, Tags(f.tag).value) != "-"
    requires env.fieldNames == map[] && "sql.NullTime" in env.registry && env.registry["sql.NullTime"].SqlValueC?
    requires |items| == 1 && items[0] != ""
    requires env.lib.parseTime(DefaultTimeLayout, items[0]) == Some(t)
    ensures ToStructSpec([f], items, env) == Built(items, [Sql(NullTime, Nullable(TimeS(t), true))])
  {
    var r0 := Zeros(1);
    AssembleStep([f], 0, items, r0, env);
  }

  // ---- the name tables of the tests ----

  /** Appending a name adds (or moves) its entry to the new last index. */
  lemma TableSnoc(names: seq<string>, x: string)
    ensures NameTable(names + [x]) == NameTable(names)[x := |names|]
  {
    assert (names + [x])[..|names|] == names;
  }

  /** The table [id, id2] of the T3 test. */
  lemma TableIdId2()
    ensures var t := NameTable(["id", "id2"]);
      |t| == 2 && "id" in t && t["id"] == 0 && "id2" in t && t["id2"] == 1
  {
    TableSnoc([], "id");
    TableSnoc(["id"], "id2");
    assert [] + ["id"] == ["id"] && ["id"] + ["id2"] == ["id", "id2"];
    assert |"id"| != |"id2"|;
  }

  /** The table [fake, id, id2, ss] of the T3 and T6 tests. */
  lemma TableWithExtras()
    ensures var t := NameTable(["fake", "id", "id2", "ss"]);
      |t| == 4 && "id" in t && t["id"] == 1 && "id2" in t && t["id2"] == 2
  {
    TableSnoc([], "fake");
    TableSnoc(["fake"], "id");
    TableSnoc(["fake", "id"], "id2");
    TableSnoc(["fake", "id", "id2"], "ss");
    assert [] + ["fake"] == ["fake"] && ["fake"] + ["id"] == ["fake", "id"];
    assert ["fake", "id"] + ["id2"] == ["fake", "id", "id2"];
    assert ["fake", "id", "id2"] + ["ss"] == ["fake", "id", "id2", "ss"];
    assert |"fake"| != |"id"| && |"fake"| != |"id2"| && |"fake"| != |"ss"| && |"id"| != |"id2"|;
    assert "ss"[0] != "id"[0] && |"ss"| != |"id2"|;
  }

  // ---- the test cases ----
  // Each lemma fixes one test's struct, configuration and row; the facts
  // about the structs' tags and the rows' numbers are established first.

  /** The numerals the tests' rows use. */
  lemma Numerals()
    ensures ParseInt("1") == Some(1) && ParseInt("4") == Some(4)
    ensures ParseInt("33") == Some(33) && ParseInt("111") == Some(111)
    ensures ParseInt("123") == Some(123) && ParseInt("222") == Some(222) && ParseInt("333") == Some(333)
  {
    Int(1, "1"); Int(4, "4"); Int(33, "33");
    Int(111, "111"); Int(123, "123"); Int(222, "222"); Int(333, "333");
    assert FormatInt(1) == "1" && FormatInt(4) == "4" && FormatInt(33) == "33";
    assert FormatInt(111) == "111" && FormatInt(123) == "123" && FormatInt(222) == "222" && FormatInt(333) == "333";
  }

  /** T2: two untagged int64 fields. */
  lemma T2Fields()
    ensures IntField(Int64Field("ID", "")) && IntField(Int64Field("ID2", ""))
  {
    BareField("ID"); BareField("ID2");
  }

  /** T3: int64 fields tagged id and id2. */
  lemma T3Fields()
    ensures IntField(Int64Field("ID", "id")) && AliasOf(Int64Field("ID", "id")) == "id"
    ensures IntField(Int64Field("ID2", "id2")) && AliasOf(Int64Field("ID2", "id2")) == "id2"
  {
    NamedField("ID", "id"); NamedField("ID2", "id2");
  }

  /** T4: an untagged field, then two omitempty fields. */
  lemma T4Fields()
    ensures IntField(Int64Field("ID", ""))
    ensures IntField(Int64Field("ID2", ",omitempty")) && OmitEmpty(Tags(",omitempty").value)
    ensures IntField(Int64Field("ID3", ",omitempty"))
  {
    BareField("ID"); OmitField("ID2"); OmitField("ID3");
  }

  /** T5: id, a dropped field, id3. */
  lemma T5Fields()
    ensures IntField(Int64Field("ID", "id")) && Dropped(Int64Field("ID2", "-")) && IntField(Int64Field("ID3", "id3"))
  {
    NamedField("ID", "id"); DroppedField("ID2"); NamedField("ID3", "id3");
  }

  /** T6: id, id2, then a dropped field. */
  lemma T6Fields()
    ensures IntField(Int64Field("ID", "id")) && AliasOf(Int64Field("ID", "id")) == "id"
    ensures IntField(Int64Field("ID2", "id2")) && AliasOf(Int64Field("ID2", "id2")) == "id2"
    ensures Dropped(Int64Field("ID1_2", "-"))
  {
    NamedField("ID", "id"); NamedField("ID2", "id2"); DroppedField("ID1_2");
  }

  /** The T2 test: with ["111"], ID = 111 and ID2 stays 0; with
      ReturnErrIndexDoesNotExist the same call fails. */
  lemma PositionalShortRowExample(env: Env, fs: seq<FieldDesc>, items: seq<string>)
    requires BuiltinInt64(env) && env.fieldNames == map[]
    requires fs == [Int64Field("ID", ""), Int64Field("ID2", "")] && items == ["111"]
    ensures !env.returnErrIndexDoesNotExist ==> ToStructSpec(fs, items, env) == Built(items, [IntV(111), Zero])
    ensures env.returnErrIndexDoesNotExist ==> ToStructSpec(fs, items, env) == Failed(IndexDoesNotExist, items)
  {
    T2Fields(); Numerals();
    OneItemTwoFields(fs[0], fs[1], items, env, 111);
  }

  /** The T1 test: ["123"] gives ID = 123. */
  lemma SingleFieldExample(env: Env, fs: seq<FieldDesc>, items: seq<string>)
    requires BuiltinInt64(env) && env.fieldNames == map[]
    requires fs == [Int64Field("ID", "")] && items == ["123"]
    ensures ToStructSpec(fs, items, env) == Built(items, [IntV(123)])
  {
    BareField("ID"); Numerals();
    OneIntRow(fs[0], items, env, 0, 123);
  }

  /** The T2 test with a full row: ["111", "222"] gives ID = 111 and ID2 = 222. */
  lemma PositionalFullRowExample(env: Env, fs: seq<FieldDesc>, items: seq<string>)
    requires BuiltinInt64(env) && env.fieldNames == map[]
    requires fs == [Int64Field("ID", ""), Int64Field("ID2", "")] && items == ["111", "222"]
    ensures ToStructSpec(fs, items, env) == Built(items, [IntV(111), IntV(222)])
  {
    T2Fields(); Numerals();
    TwoIntsRow(fs[0], fs[1], items, env, 0, 1, 111, 222);
  }

  /** The T3 test without names: ["123"] gives ID = 123 and ID2 = 0. */
  lemma TaggedShortRowExample(env: Env, fs: seq<FieldDesc>, items: seq<string>)
    requires BuiltinInt64(env) && env.fieldNames == map[] && !env.returnErrIndexDoesNotExist
    requires fs == [Int64Field("ID", "id"), Int64Field("ID2", "id2")] && items == ["123"]
    ensures ToStructSpec(fs, items, env) == Built(items, [IntV(123), Zero])
  {
    T3Fields(); Numerals();
    OneItemTwoFields(fs[0], fs[1], items, env, 123);
  }

  /** The T3 test with names [id, id2] and the row ["123"]: the up-front
      check passes (two names, one item) and the call fails on id2. */
  lemma TableShortExample(env: Env, fs: seq<FieldDesc>, items: seq<string>)
    requires BuiltinInt64(env) && env.fieldNames == NameTable(["id", "id2"])
    requires fs == [Int64Field("ID", "id"), Int64Field("ID2", "id2")] && items == ["123"]
    ensures ToStructSpec(fs, items, env) == Failed(ConfigError(IndexOutOfItems("id2", 1)), items)
  {
    TableIdId2(); T3Fields(); Numerals();
    TableAliasPastItems(fs[0], fs[1], items, env, 0, 123);
  }

  /** The T3 test with names [id, id2] and the row ["123", "33"]. */
  lemma TableFullExample(env: Env, fs: seq<FieldDesc>, items: seq<string>)
    requires BuiltinInt64(env) && env.fieldNames == NameTable(["id", "id2"])
    requires fs == [Int64Field("ID", "id"), Int64Field("ID2", "id2")] && items == ["123", "33"]
    ensures ToStructSpec(fs, items, env) == Built(items, [IntV(123), IntV(33)])
  {
    TableIdId2(); T3Fields(); Numerals();
    TwoIntsRow(fs[0], fs[1], items, env, 0, 1, 123, 33);
  }

  /** The T3 test through the table [fake, id, id2, ss]: ["0", "123", "33"]
      gives ID = 123 and ID2 = 33. */
  lemma TableWithExtrasExample(env: Env, fs: seq<FieldDesc>, items: seq<string>)
    requires BuiltinInt64(env) && env.fieldNames == NameTable(["fake", "id", "id2", "ss"])
    requires fs == [Int64Field("ID", "id"), Int64Field("ID2", "id2")] && items == ["0", "123", "33"]
    ensures ToStructSpec(fs, items, env) == Built(items, [IntV(123), IntV(33)])
  {
    TableWithExtras(); T3Fields(); Numerals();
    TwoIntsRow(fs[0], fs[1], items, env, 1, 2, 123, 33);
  }

  /** The T4 test: ["1", "", "4"] gives ID = 1, ID2 = 0, ID3 = 4. */
  lemma OmitEmptyExample(env: Env, fs: seq<FieldDesc>, items: seq<string>)
    requires BuiltinInt64(env) && env.fieldNames == map[]
    requires fs == [Int64Field("ID", ""), Int64Field("ID2", ",omitempty"), Int64Field("ID3", ",omitempty")]
    requires items == ["1", "", "4"]
    ensures ToStructSpec(fs, items, env) == Built(items, [IntV(1), Zero, IntV(4)])
  {
    T4Fields(); Numerals();
    OmitEmptyRow(fs[0], fs[1], fs[2], items, env, 1, 4);
  }

  /** The T5 test: ["1", "2", "4"] gives ID = 1, ID2 = 0, ID3 = 4. */
  lemma SkipExample(env: Env, fs: seq<FieldDesc>, items: seq<string>)
    requires BuiltinInt64(env) && env.fieldNames == map[]
    requires fs == [Int64Field("ID", "id"), Int64Field("ID2", "-"), Int64Field("ID3", "id3")]
    requires items == ["1", "2", "4"]
    ensures ToStructSpec(fs, items, env) == Built(items, [IntV(1), Zero, IntV(4)])
  {
    T5Fields(); Numerals();
    SkipRow(fs[0], fs[1], fs[2], items, env, 1, 4);
  }

  /** The T6 test through the table [fake, id, id2, ss]: ["d", "123", "33"]
      gives ID = 123 and ID2 = 33; the "d" under "fake" is never read. */
  lemma SkipWithTableExample(env: Env, fs: seq<FieldDesc>, items: seq<string>)
    requires BuiltinInt64(env) && env.fieldNames == NameTable(["fake", "id", "id2", "ss"])
    requires fs == [Int64Field("ID", "id"), Int64Field("ID2", "id2"), Int64Field("ID1_2", "-")]
    requires items == ["d", "123", "33"]
    ensures ToStructSpec(fs, items, env) == Built(items, [IntV(123), IntV(33), Zero])
  {
    TableWithExtras(); T6Fields(); Numerals();
    TwoIntsThenDropped(fs[0], fs[1], fs[2], items, env, 1, 2, 123, 33);
  }

  /** The SetConverter test before the override: ["1", "123", "33"] gives
      ID = 1 and ID2 = 123. */
  lemma BeforeOverrideExample(env: Env, fs: seq<FieldDesc>, items: seq<string>)
    requires BuiltinInt64(env) && env.fieldNames == map[]
    requires fs == [Int64Field("ID", "id"), Int64Field("ID2", "id2"), Int64Field("ID1_2", "-")]
    requires items == ["1", "123", "33"]
    ensures ToStructSpec(fs, items, env) == Built(items, [IntV(1), IntV(123), Zero])
  {
    T6Fields(); Numerals();
    TwoIntsThenDropped(fs[0], fs[1], fs[2], items, env, 0, 1, 1, 123);
  }

  /** The SetConverter test once the override is registered under "int64":
      ID reads "333", which is left in the caller's buffer. */
  lemma OverrideExample(env: Env, fs: seq<FieldDesc>, items: seq<string>)
    requires env.fieldNames == map[] && "int64" in env.registry
    requires var c := env.registry["int64"]; c.RewriteC? && c.rewrite.target == "id" && c.rewrite.replacement == "333"
    requires fs == [Int64Field("ID", "id"), Int64Field("ID2", "id2"), Int64Field("ID1_2", "-")]
    requires items == ["1", "123", "33"]
    ensures ToStructSpec(fs, items, env) == Built(["333", "123", "33"], [IntV(333), IntV(123), Zero])
  {
    T6Fields(); Numerals();
    OverrideRow(fs[0], fs[1], fs[2], items, env, "333", 333, 123);
    assert items[0 := "333"] == ["333", "123", "33"];
  }

  /** The sql.NullTime test: "01.02.2002" under the tag "date" is parsed
      with the default layout. */
  lemma NullTimeExample(env: Env, fs: seq<FieldDesc>, items: seq<string>, t: Instant)
    requires env.fieldNames == map[] && "sql.NullTime" in env.registry && env.registry["sql.NullTime"].SqlValueC?
    requires fs == [FieldDesc("Date", "date", "sql.NullTime", true)] && items == ["01.02.2002"]
    requires env.lib.parseTime("02.01.2006", "01.02.2002") == Some(t)
    ensures ToStructSpec(fs, items, env) == Built(items, [Sql(NullTime, Nullable(TimeS(t), true))])
  {
    TagsWord("date");
    NullTimeRow(fs[0], items, env, t);
  }
}
