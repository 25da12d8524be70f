# slicetostruct in Dafny

A model of the Go package `slicetostruct`. The package turns one row of
strings (`items`) into a record of a Go struct type. Each field of the
struct is matched to an item either by its declaration position or through
a name table, and is then converted by a converter registered for its type
name or by a fixed built-in switch. A field's `ss:"..."` tag gives its alias
(or `-` to skip it), an optional `omitempty` flag and, for time fields, a
layout. The model proves what each of these steps does and how they combine.

Layout, one module per Go file of the core plus two for the parts of the Go
standard library it relies on:

| file | module | models |
|---|---|---|
| types.dfy | `Types` | errors, field values, sql wrapper payloads, `Params`, `ConvertValueParams` |
| gostrings.dfy | `GoStrings` | `strings.Split` on `,` (with `Join` as its inverse), `HasSuffix`, `Replace(s, ",", ".", 1)` |
| gostrconv.dfy | `GoStrconv` | `strconv.ParseInt(s, 10, 64)` as a specification, `FormatInt` as its partner |
| tags.dfy | `TagParser` | `getTags` |
| resolver.dfy | `FieldResolver` | `SetFieldNames`'s table and `GetSliceIndexForField` |
| int64.dfy, int.dfy, null_int64.dfy, sql_null_int64.dfy, sql_value.dfy | one per converter | each converter's `Set` |
| rewrite_int64.dfy | `RewriteConverter` | the overriding converter `Int64Test` of the package's tests |
| converter.dfy | `Converter` | the `Converter` interface and the `converters` registry |
| slicetostruct.dfy | `Engine` | `New`, `SetConverter`, `SetFieldNames`, `ToStruct` |
| scenarios.dfy | `Scenarios` | the package's test cases, stated over the model |

How the Go constructs are represented:

- The reflective walk over the fields of the type parameter `T` is an
  explicit table of `FieldDesc(name, tag, typeKey, settable)`. The new `T`
  is an `array<Value>` with one slot per field, all `Zero` at the start.
  `Zero` is the Go zero value of the field's type.
- The `Converter` interface is the closed datatype `ConverterRef`. It wraps
  references to converter objects, so the one `ConvertSqlValue` instance can
  sit under eight keys, as it does in `New`.
- Each converter's `Set` is a method on its class. It is proved against a
  pure `Outcome` function that gives the error, the item buffer afterwards,
  and the value written to the destination. `Engine.ToStruct` is proved
  against `Engine.ToStructSpec`. That function is built from `FieldStep`,
  one turn of the field loop. The lemmas are stated about those functions.
- The caller's `items` slice is an `array<string>` that converters may
  rewrite in place. The contracts state its contents after every call,
  including calls that fail.
- `strconv.ParseFloat`, `time.Parse` and the `Scan` methods of the
  `sql.Null*` types are the three fields of a `Library` value passed in by
  the caller. The model fixes which string and which layout they are given,
  and what happens on their success and failure.
- A Go panic inside `getTags` is the result `None`. `ToStruct` turns it into
  the error `IndexOutOfRange`.

Behaviours of the code worth knowing, each stated by a member of the model:

- A tag whose last piece ends in `#` has no piece after it to absorb:
  `getTags` reads `res[i+1]` past the end of the slice
  (slicetostruct.go:226), which is a run-time panic.
  `TagParser.TrailingEscapePanics` states this. The fallback truncation at
  slicetostruct.go:232 can never run (a comment in `TagParser.GetTags` says
  why).
- `["123"]` with the name table `[id, id2]` passes the length check at
  slicetostruct.go:75, because two names are not fewer than one item. The
  call then fails while resolving `id2`, whose index 1 lies past the items.
  `Scenarios.TableShortExample` states this.
- Converters are not the only code that rewrites the items: the built-in
  `float64` and `*float64` cases rewrite the selected item too when
  `ReplaceCommaToDot` is set (slicetostruct.go:156-158, 165-167).
  `Engine.FallbackCases` states this.
- `ConvertValueParams` (converter.go:9-15) lacks the `FieltType` field that
  slicetostruct.go:134 and sql_value.go:24 use. The model's record has it
  (`fieldType`).

## Model

| member | source | states |
|---|---|---|
| GoStrings.Split | slicetostruct.go:223 | `strings.Split(s, ",")` always gives at least one piece, and no piece contains a comma |
| GoStrings.JoinSplit | slicetostruct.go:223 | joining the pieces of a split with `,` gives back the original string |
| GoStrings.SplitJoin | slicetostruct.go:223 | splitting the join of comma-free pieces gives back exactly those pieces |
| GoStrings.HasHashSuffix | slicetostruct.go:225 | `HasSuffix(s, "#")` holds exactly when the last character of s is `#` |
| GoStrings.IndexOf | sql_value.go:34 | the index of the first occurrence of a character; every earlier character differs from it |
| GoStrings.ReplaceFirst | sql_value.go:34 | `Replace(s, ",", ".", 1)` keeps the length, changes only the first comma, and leaves a comma-free string unchanged |
| GoStrconv.ParseInt | int64.go:14 | an accepted token starts with a digit or a sign and denotes a value in the int64 range |
| GoStrconv.ParseFormatInt | int64.go:14-19 | every int64 printed in base 10 parses back to itself |
| TagParser.Unescape | slicetostruct.go:224-234 | the group-by-group reading of the split: the result never has more pieces than the input and at least half as many |
| TagParser.GetTags | slicetostruct.go:221-237 | the in-place loop over the original length, with its shrinking slice, computes `Tags`; it returns `None` exactly where Go panics |
| TagParser.UnescapeNoEscape | slicetostruct.go:224-225 | with no piece ending in `#`, the pieces come back unchanged |
| TagParser.TagsNoEscape | slicetostruct.go:221-224 | with no piece ending in `#`, getTags is plain splitting on `,` |
| TagParser.UnescapeAppend | slicetostruct.go:224-231 | once a prefix has been read without a panic, the rest is read on its own; the merged piece is not examined again and later pieces are |
| TagParser.SingleEscape | slicetostruct.go:225-230 | one escaped piece merges with its successor (minus the `#`, joined by `,`), the length drops by exactly one, and everything else stays in place |
| TagParser.EscapeThenPlain | slicetostruct.go:225-230 | an escaped piece absorbs the next one even if that one ends in `#`; the pieces after it are unchanged |
| TagParser.UnescapePair | slicetostruct.go:226-229 | an escaped piece and its successor become the single merged piece |
| TagParser.TrailingEscapePanics | slicetostruct.go:225-226 | an escaped last piece has nothing to absorb, and the parse panics |
| FieldResolver.NameTableLastOccurrence | slicetostruct.go:61-72 | the table holds exactly the listed names, and each name maps to the index of its last occurrence |
| FieldResolver.NameTableSize | slicetostruct.go:75 | the table's size, which the length check uses, is the number of distinct names |
| FieldResolver.GetSliceIndexForField | slicetostruct.go:202-219 | a success is always inside the items; positional mode returns the declaration index or `IndexDoesNotExist`; table mode returns the table's index or one of two configuration errors, both iff-characterised |
| FieldResolver.ResolveThroughNames | slicetostruct.go:202-213 | through a table built from a list, a name resolves only to its last position in the list; an unlisted name gives `NameNotInTable` |
| Int64Converter.Outcome | int64.go:13-21 | the token is parsed as a base-10 int64 with no empty-token case; success writes the value, failure names the token and writes nothing; the items never change |
| Int64Converter.ConvertInt64.Set | int64.go:13-21 | Set does what `Outcome` says, reading the item at call time; `Value` is the parsed value on success and unchanged on failure |
| IntConverter.Outcome | int.go:14-22 | as for int64: an empty or malformed token is an error naming it; success writes `int(v)`; the items never change |
| IntConverter.ConvertInt.Set | int.go:14-22 | Set does what `Outcome` says; `Value` follows the parsed value on success only |
| NullInt64Converter.Outcome | null_int64.go:14-25 | an empty token is a no-op; a valid token becomes a pointer to its value; a malformed one is an error and writes nothing; the items never change |
| NullInt64Converter.ConvertNullInt64.Set | null_int64.go:14-25 | Set does what `Outcome` says; on success `Value` is the pointer that was written |
| SqlNullInt64Converter.Outcome | sql_null_int64.go:14-24 | an empty token is a no-op; otherwise the token is scanned, and a scan failure writes nothing; the items never change |
| SqlNullInt64Converter.ConvertSqlNullInt64.Set | sql_null_int64.go:14-24 | Set does what `Outcome` says; on success the destination equals the converter's own `Value`; an empty token leaves `Value` alone; a failed scan leaves `Value` marked valid with its old number, as `NullInt64.Scan` sets `Valid` before the conversion that fails |
| SqlValueConverter.SqlKindOf | sql_value.go:24-93 | the switch recognises exactly the eight `sql.Null*` keys, and each as the kind whose Go type name it is; every other key is unknown |
| SqlValueConverter.KeyOf | sql_value.go:24-78 | every wrapper kind has its own key among the eight |
| SqlValueConverter.KeyOfSelectsKind | sql_value.go:24-78 | the switch maps each kind's key back to that kind |
| SqlValueConverter.Outcome | sql_value.go:18-96 | an empty token is a no-op; an unknown key fails with `FieldTypeUnknown`; `sql.NullTime` parses with the chosen layout and writes a valid wrapper; `sql.NullFloat64` first rewrites only the selected item's first comma, and only when the flag is set; any failure writes nothing |
| SqlValueConverter.ScannedKinds | sql_value.go:25-76 | for the seven kinds other than `sql.NullTime`, the call succeeds exactly when `Scan` accepts the token (after the comma rewrite, for `sql.NullFloat64`), writes the wrapper `Scan` produced, and otherwise fails naming the token; only `sql.NullFloat64` changes the items |
| SqlValueConverter.ConvertSqlValue.Set | sql_value.go:18-96 | Set does what `Outcome` says, rewriting the caller's item in place and reading the flag from its own copy of `Params` |
| RewriteConverter.Outcome | slicetostruct_test.go:281-291 | for the target field the replacement is parsed and stays in the buffer even on failure; other fields get the plain int64 converter |
| RewriteConverter.RewriteThenInt64.Set | slicetostruct_test.go:281-291 | Set rewrites the item, then delegates to `ConvertInt64.Set` |
| Converter.Convert | converter.go:17-19 | a converter touches at most the selected item, and the int64, int, *int64 and sql.NullInt64 converters touch none; a failing converter writes nothing; an empty token is a no-op for the three nullable converters |
| Converter.IntegerConvertersRoundTrip | int64.go:14-19 | the int64, int and *int64 converters accept every printed int64 and write that number back |
| Converter.Set | converter.go:17-19 | calling the interface method does what `Convert` says for that converter's kind |
| Converter.Converters.SetConverter | converter.go:28-35 | the key is bound to the new converter (last write wins) and every other binding is kept, so a lookup of the key then returns it |
| Converter.Converters.GetConverter | converter.go:37-45 | a lookup changes nothing; it succeeds iff the key is bound and otherwise returns `ConverterDoesNotExist`, also on a registry never written |
| Engine.Fallback | slicetostruct.go:142-195 | the built-in switch changes at most the selected item (only for a float key with the flag) and at most the field's slot; `string` copies the item; an unknown key fails with `TypeNotImplemented` |
| Engine.FallbackCases | slicetostruct.go:142-192 | `*string` writes a pointer to the item; `*int` writes the parsed value or fails naming the token; the float cases rewrite the first comma exactly when the flag is set, then write the parsed value or fail; the time cases parse with the layout the tags choose (third tag, else `02.01.2006`) and write the instant or fail |
| Engine.TimeCasesAgree | slicetostruct.go:173-182 | a consistency check of the model's shared layout helper `TimeLayout`: the built-in `time.Time` case and the `sql.NullTime` converter, which both choose the layout as the third tag or `02.01.2006`, succeed together on the same tags and token and hold the same instant |
| Engine.Dispatch | slicetostruct.go:123-141 | a registered converter is used whenever the key is bound, with the alias as its field name; the switch is used only for an unbound key |
| Engine.FieldStep | slicetostruct.go:90-195 | one field: a tag panic aborts; alias `-` changes nothing; a field that is never written leaves the row alone; the empty-token skips for pointer and omitempty fields; nothing but the selected item and the field's own slot changes |
| Engine.ResolutionErrorPolicy | slicetostruct.go:100-109 | a field whose alias does not resolve: in table mode the step always aborts with the resolution error; in positional mode the error is `IndexDoesNotExist`, which aborts when `ReturnErrIndexDoesNotExist` is set and skips the field otherwise |
| Engine.ToStructSpec | slicetostruct.go:74-200 | with a non-empty table of fewer names than items the call fails before any field; otherwise the record has one value per field |
| Engine.UnwrittenFieldsStayZero | slicetostruct.go:96-115 | after a successful call, a field tagged `-`, an unexported field, or a positional field past the items is still zero |
| Engine.AssembleKeepsUnwritten | slicetostruct.go:89-115 | the loop keeps the value of every field it passes without writing |
| Engine.MissingIndexIsFatalWhenRequested | slicetostruct.go:104-107 | with `ReturnErrIndexDoesNotExist`, any positional field past the items that is not tagged `-` makes the whole call fail |
| Engine.AssembleFailsPastItems | slicetostruct.go:104-107 | the same, from any point of the loop on |
| Engine.AssembleFailsOnTableError | slicetostruct.go:100-103 | in table mode a field whose alias is unlisted or maps past the items makes the loop fail, from any point on |
| Engine.TableErrorIsFatal | slicetostruct.go:74-103 | in table mode a field whose alias is unlisted or maps past the items makes the whole call fail |
| Engine.EmptyTokenIsConverted | slicetostruct.go:116-141 | an empty token is skipped only for a pointer or omitempty field; any other resolved, settable field passes it to the registered converter or the switch |
| Engine.RegisteredConverterWins | slicetostruct.go:116-140 | registering a converter for a field's key makes that converter decide the field, even for a key the switch covers and even for an empty token on a field that is neither a pointer nor omitempty |
| Engine.UnsupportedTypeFails | slicetostruct.go:116-194 | a resolved field whose key is neither registered nor in the switch fails the call with `TypeNotImplemented`, for any token that the pointer and omitempty skips do not pass over |
| Engine.SqlConverterIgnoresEngineFlag | slicetostruct.go:37-41 | a field handled by the sql converter converts the same whatever the engine's own comma flag |
| Engine.BuiltinMapIsBuiltin | slicetostruct.go:32-47 | the eleven bindings New makes form the built-in registry |
| Engine.NewRegistry | slicetostruct.go:32-48 | a fresh registry with exactly the eleven built-in keys; the eight sql keys share one converter that holds the given `Params` |
| Engine.SliceToStruct.New | slicetostruct.go:31-55 | the engine keeps the fields and `Params`, owns a fresh built-in registry, and its table is built from `params.FieldNames` |
| Engine.SliceToStruct.SetConverter | slicetostruct.go:57-59 | the engine's registry gets the binding; nothing else changes |
| Engine.SliceToStruct.SetFieldNames | slicetostruct.go:61-72 | the loop builds the name table of the list; an empty list gives the empty table (positional mode) |
| Engine.SliceToStruct.ToStruct | slicetostruct.go:74-200 | the call returns a fresh record exactly when there is no error, with the contents and the item buffer that `ToStructSpec` gives from an all-zero record; on failure no record is returned |
| Engine.SliceToStruct.ConvertFields | slicetostruct.go:88-199 | the field loop, checked turn by turn, leaves the record and the items as the specification's loop gives them from the record it starts with, and returns its error |
| Engine.SliceToStruct.ConvertField | slicetostruct.go:90-140 | one iteration does what `FieldStep` says, to the items and the record |
| Engine.SliceToStruct.DispatchField | slicetostruct.go:123-141 | the registry lookup and call, or the switch, do what `Dispatch` says |
| Engine.SliceToStruct.ConvertBuiltin | slicetostruct.go:142-195 | the built-in switch does what `Fallback` says |
| Scenarios.TagsPlain | slicetostruct_test.go:249-252 | `test,test1,dddd323` gives its three pieces |
| Scenarios.TagsSingle | slicetostruct_test.go:253-256 | `test` gives one piece |
| Scenarios.TagsEscapedFirst | slicetostruct_test.go:257-260 | `test#,test1,dddd323` gives `test,test1` and `dddd323` |
| Scenarios.TagsEscapedPair | slicetostruct_test.go:268-271 | `test#,test1` gives the single piece `test,test1` |
| Scenarios.TagsEscapedMiddle | slicetostruct_test.go:272-275 | `test1,test#,test1` gives `test1` and `test,test1` |
| Scenarios.TagsTrailingEscape | slicetostruct.go:225-226 | `test#` makes getTags panic |
| Scenarios.TagsEmpty | slicetostruct.go:92-95 | an absent tag gives one empty piece, so the field's own name is used |
| Scenarios.TagsOmitEmpty | slicetostruct_test.go:28-29 | `,omitempty` gives an empty alias and the omitempty flag |
| Scenarios.OneItemTwoFields | slicetostruct_test.go:104-121 | two int64 fields and one item: the second stays zero, or the call fails with `IndexDoesNotExist` when asked to |
| Scenarios.TableAliasPastItems | slicetostruct_test.go:149-154 | the length check can pass and the call still fail when an alias maps past the items |
| Scenarios.OneIntRow | slicetostruct_test.go:95-103 | one int64 field reads the item it resolves to |
| Scenarios.TwoIntsRow | slicetostruct_test.go:156-175 | two int64 fields read the items they resolve to, whatever else the table names |
| Scenarios.OmitEmptyRow | slicetostruct_test.go:205-217 | an omitempty field with an empty token stays zero and the next field still reads its own position |
| Scenarios.SkipRow | slicetostruct_test.go:219-231 | a `-` field stays zero and the next field still reads its own position |
| Scenarios.TwoIntsThenDropped | slicetostruct_test.go:233-246 | two int64 fields and a `-` field: the `-` field stays zero, whatever the table |
| Scenarios.OverrideRow | slicetostruct_test.go:293-309 | with the override registered, the target field reads the replacement, which is left in the buffer, and the other field is unaffected |
| Scenarios.NullTimeRow | slicetostruct_test.go:377-387 | a `sql.NullTime` field without a layout tag is parsed with the default layout and written as a valid wrapper |
| Scenarios.SingleFieldExample | slicetostruct_test.go:95-103 | test T1: `["123"]` gives ID 123 |
| Scenarios.PositionalShortRowExample | slicetostruct_test.go:104-121 | test T2: `["111"]` gives 111 and 0, or an error with `ReturnErrIndexDoesNotExist` |
| Scenarios.PositionalFullRowExample | slicetostruct_test.go:123-131 | test T2: `["111", "222"]` gives 111 and 222 |
| Scenarios.TaggedShortRowExample | slicetostruct_test.go:137-148 | test T3 without a table: `["123"]` gives 123 and 0 |
| Scenarios.TableShortExample | slicetostruct_test.go:149-154 | test T3 with `[id, id2]`: `["123"]` fails on `id2` |
| Scenarios.TableFullExample | slicetostruct_test.go:156-164 | test T3 with `[id, id2]`: `["123", "33"]` gives 123 and 33 |
| Scenarios.TableWithExtrasExample | slicetostruct_test.go:166-175 | test T3 with `[fake, id, id2, ss]`: `["0", "123", "33"]` gives 123 and 33 |
| Scenarios.OmitEmptyExample | slicetostruct_test.go:205-217 | test T4: `["1", "", "4"]` gives 1, 0, 4 |
| Scenarios.SkipExample | slicetostruct_test.go:219-231 | test T5: `["1", "2", "4"]` gives 1, 0, 4 |
| Scenarios.SkipWithTableExample | slicetostruct_test.go:233-246 | test T6 with `[fake, id, id2, ss]`: `["d", "123", "33"]` gives 123, 33, 0 |
| Scenarios.BeforeOverrideExample | slicetostruct_test.go:293-302 | test T6 before the override: `["1", "123", "33"]` gives 1, 123, 0 |
| Scenarios.OverrideExample | slicetostruct_test.go:303-308 | test T6 with the override: the same row gives 333, 123, 0 and leaves `333` in the buffer |
| Scenarios.NullTimeExample | slicetostruct_test.go:377-387 | test T14: `01.02.2002` is parsed with `02.01.2006` into a valid wrapper |
| Scenarios.TableIdId2 | slicetostruct_test.go:149 | the table `[id, id2]` has two entries, `id` at 0 and `id2` at 1 |
| Scenarios.TableWithExtras | slicetostruct_test.go:166 | the table `[fake, id, id2, ss]` has four entries, `id` at 1 and `id2` at 2 |

## Left out

- The registry's `sync.Mutex` (converter.go:25, 29-30, 38-39): the model is sequential, so locking has no effect on it.
- Reflection: fields are given as a descriptor table. The "generic type does not struct" check (slicetostruct.go:84-86) cannot fail. Settability (`IsValid`/`CanSet`) is the `settable` flag.
- Type compatibility between a converter and its field is not modelled. Go's reflection panics when, say, a user registers an int64 converter under `string`; the model simply writes the value.
- `strconv.ParseFloat`, `time.Parse` and `sql.Null*.Scan` are abstract partial functions. That `["1"]` gives a valid `sql.NullInt64` holding 1 depends on `Scan`'s internals and is not proved.
- SqlNullInt64Converter.ConvertSqlNullInt64.Set: which tokens `sql.NullInt64.Scan` accepts, and the wrapper it produces, are the abstract `scan`. Its partial update on failure (sql_null_int64.go:18: `Valid` becomes true, `Int64` keeps its old value) is written out from how `database/sql` implements `Scan`, which is not part of this model.
- Error text and `errors.Wrap` context are not modelled. Errors are the `Types.Error` datatype.
- Case-insensitive name matching: `NotCaseSensitive` appears only in slicetostruct_test.go:324-375 and is not a field of `Params`; that test is not modelled.
- `Int64Converter.ConvertInt64.Set`, `IntConverter.ConvertInt.Set`: Go's `int` is taken to be 64 bits wide, so `int(v)` and `SetInt` never truncate. A narrower destination, such as `SetInt` on an `int32` field, is not modelled.
- Pointer identity: a `*int64` result is the value `IntPtr(v)`. The model does not capture that `c.Value` and the field share one pointer, or that a later call replaces `c.Value` but not earlier records' pointers.
- `New`'s branch for `params.converters != nil` (slicetostruct.go:32): a caller reaches it with `New[U](engine.Params)`, because `SliceToStruct` embeds the exported `Params` (slicetostruct.go:18-19) and the struct copy carries the unexported registry pointer. The second engine then shares the first one's registry, so `SetConverter` on either changes both, and its sql converter keeps reading the first engine's `Params`. `Params` has no registry field in the model, so `Engine.SliceToStruct.New` always builds a fresh registry; the shared registry is not modelled.
- `DefaultTimeLayout`: its meaning (day.month.year) is a property of `time.Parse` and is not modelled.
- The getTags test with a Cyrillic alias (slicetostruct_test.go:261-267) is not stated as a concrete example. `TagParser.SingleEscape` covers it for any pieces.
- `TestAllTypes` (slicetostruct_test.go:179-203) is not stated as a concrete example. `Engine.FallbackCases` and the converter contracts state what each of its field kinds converts to, in terms of the abstract float and time parsers, so its concrete float and time values are not derived.
- Engine.SliceToStruct.ToStruct: the `Value` fields of the converter objects after a call are not stated. Converters such as `ConvertInt64` and `ConvertSqlNullInt64` keep the value of the last successful `Set` in their exported `Value`; the per-converter `Set` contracts state this, but the contract of the whole call only promises the record and the items.
