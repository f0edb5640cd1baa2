# pgxgen, modelled in Dafny

pgxgen is a code generator around sqlc. It reads Go model files into a struct catalog, edits the
structs as its YAML configuration says (unsigned ids, added, renamed, retyped, retagged and
deleted fields), and writes them back as Go models, MobX-Keystone models and TypeScript types.
It also writes the CRUD queries sqlc compiles: create, update, delete, get, find and total for each
configured table, with `$n` placeholders. After sqlc has generated its code, pgxgen rewrites that
code: sqlc's nullable wrappers become pointers, json tags get `omitempty` or are hidden, the
package clause and imports of a moved models file are rewritten, and a constants file names every
table and column. Finally it carries a vendored part of sqlc itself: the PostgreSQL and MySQL
column-type mapping, identifier parsing, the parameter recognisers and the pg_temp helpers.

This project models that core, one Dafny module per source component:

| module | file | source |
|---|---|---|
| Wrappers, Strings | wrappers.dfy, strings.dfy | Option/Result and the string operations of Go's `strings` package the source uses |
| ErrorChain | errors.dfy | errors.go |
| Flags | flags.dfy | cmd/pgxgen/main.go (filterFlags) |
| Config | config.dfy | internal/config |
| Utils | utils.dfy | utils/utils.go, utils/strings.go |
| Fields | fields.dfy | internal/structs/field.go, parameters.go |
| TypeExpr | typeexpr.dfy | internal/structs/parser.go |
| Structs | catalog.dfy | internal/structs/structs.go (class `Catalog`) |
| Slice | slice.dfy | internal/structs/slice.go (class `StructSlice`) |
| GoModels | gomodels.dfy | internal/gomodels/gomodels.go |
| Keystone | keystone.dfy | internal/keystone/keystone.go, internal/gomodels/keystone.go |
| Typescript | typescript.dfy | internal/typescript/typescript.go, internal/pgxgen/typescript.go |
| LegacyModels, LegacyKeystone | legacy_models.dfy, legacy_keystone.dfy | internal/pgxgen/models.go, keystone.go |
| Sql, Tables | sql.dfy, tables.dfy | the query builder's output; internal/crud/types.go, internal/schema/types.go |
| Crud, CrudProperties | crud.dfy, crud_properties.dfy | internal/crud/crud.go |
| LegacyCrud, LegacyCrudProperties | legacy_crud.dfy, legacy_crud_properties.dfy | internal/pgxgen/crud.go |
| Constants | constants.dfy | internal/goconstatnts/params.go, internal/crud/gen_constants.go (class `Registry`) |
| SqlcRewrites, Rewriting | sqlc.dfy, rewrite.dfy | internal/sqlc |
| SqlFormatter | sqlformatter.dfy | internal/sqlformatter/process.go |
| SqlcTypes | pgtypes.dfy | pkg/sqlc/codegen (postgresql_type.go, mysql_type.go, sdk/sdk.go) |
| SqlAst | sqlast.dfy | pkg/sqlc/sql/named/is.go, pkg/sqlc/engine/postgresql/pg_temp.go |

Code that changes state in place is imperative Dafny. The struct catalog is a class whose map
field the methods reassign. The priority sort and the constants registry are classes too. The
field-edit loops, the CRUD builders (a `Builder` class holding the written pieces), the rewriting
loops and the formatter's shift table are methods with loop invariants. Each method is proved
against a specification function, and the properties are lemmas about those functions. The
expression-shaped code (type classification, projections, type mapping) is functions and lemmas.

Go map iteration order is unspecified. Where the source ranges over a map, the order is a
parameter (a sequence of the keys), and the contracts hold for every order.

## Model

| member | source | states |
|---|---|---|
| ErrorChain.Chain | errors.go:25-31 | The chain starts with the error itself and is empty for nil; each step follows Unwrap |
| ErrorChain.IsNotFoundError | errors.go:13-33 | True exactly when some error on the Unwrap chain is the not-found error; false for nil; true for a not-found error itself |
| ErrorChain.ChainStep | errors.go:25-31 | One Unwrap step shortens the chain (so the walk ends) and keeps whether a not-found error is on it |
| Flags.FilterFlags | cmd/pgxgen/main.go:140-153 | The result is the reference filter of the arguments: no configuration flag survives, nothing is added, and it is no longer than the input |
| Flags.KeptProperties | cmd/pgxgen/main.go:140-153 | The reference filter keeps only arguments of the input that are not configuration flags |
| Flags.KeptWithoutFlags | cmd/pgxgen/main.go:140-153 | Without configuration flags every argument is kept, in order |
| Flags.DropsFlagAndValue | cmd/pgxgen/main.go:144-147 | A configuration flag is dropped together with the value that follows it |
| Config.GetModelsOutputDir | internal/config/gomodels.go:33-40 | One trailing '/' is removed and nothing else changes; internal/config/pgxgen.go:47-54 behaves the same |
| Config.OutputDirInverse | internal/config/gomodels.go:33-40 | Adding a '/' and removing it gives the directory back; a directory without one is unchanged |
| Config.GetModelsOutputFileName | internal/config/gomodels.go:42-51 | The result always ends in ".go": "models.go" for an empty name, the name itself when it has the suffix, otherwise the name plus ".go"; internal/config/pgxgen.go:56-65 behaves the same |
| Config.OutputFileNameIdempotent | internal/config/gomodels.go:42-51 | Applying the file-name rule twice equals applying it once |
| Config.ExistPrefereExceptionsField | internal/config/gomodels.go:53-60 | True exactly when some exception for the struct lists the field; internal/config/pgxgen.go:67-74 behaves the same |
| Config.AddWhereParam | internal/config/crud.go:52-58 | The key maps to the new parameters, every other key keeps its value, and the other settings of the method are unchanged |
| Utils.ExistInArray | utils/utils.go:3-11 | True exactly when the item occurs in the slice |
| Utils.FilterString | utils/utils.go:13-23 | The result holds the values not in the filter list, in their order |
| Utils.WithoutMembers | utils/utils.go:13-23 | An element is in the result exactly when it is in the values and not in the filter list |
| Utils.WithoutShorter | utils/utils.go:13-23 | The result is never longer than the input |
| Utils.WithoutNothing | utils/utils.go:13-23 | An empty filter list gives the input back unchanged |
| Utils.WithoutIdempotent | utils/utils.go:13-23 | Filtering twice with the same list is the same as filtering once |
| Utils.RunLength | utils/strings.go:11-13 | The leading run holds no separator and stops at one |
| Utils.Fields | utils/strings.go:11-13 | The words are non-empty and contain no space, '-' or '_' |
| Utils.FieldsOfWord | utils/strings.go:11-13 | A string without separators is one word, or no word when empty |
| Utils.RunLengthOfWord | utils/strings.go:11-13 | A string without separators is one whole run |
| Utils.TitleLower | utils/strings.go:23 | Title-casing a lower-cased word keeps its length |
| Utils.ToPascalCase | utils/strings.go:10-27 | The result is the title-cased words joined with every "Id" replaced by "ID": empty without words, no "Id" left, no separator left |
| Utils.TitledHasNoSeparator | utils/strings.go:22-24 | Joining title-cased separator-free words introduces no separator |
| Utils.ReplaceKeepsNoSeparator | utils/strings.go:26 | Replacing "Id" by "ID" introduces no separator |
| Utils.NoIdAfterReplace | utils/strings.go:26 | After the replacement no "Id" is left |
| Utils.ReplaceAllHead | utils/strings.go:26 | The replacement keeps the first character or puts the 'I' of "ID" there |
| Utils.CamelCase | internal/crud/crud.go:456 | A camel-cased name holds no space, hyphen or underscore |
| Utils.CamelCaseFirst | internal/crud/crud.go:456 | A camel-cased name (as the generators build method names) that starts with a letter starts with that letter in upper case |
| Fields.IsExportedIff | internal/structs/field.go:37-39 | A field is exported exactly when its name is empty or does not start with a lower-case letter |
| Fields.ExistFieldIndex | internal/structs/parameters.go:12-19 | -1 exactly when no field has the name; otherwise the index of the first field with that name |
| Fields.FindFrom | internal/structs/parameters.go:13-17 | The loop from a position before which no field matches finds the first match or reports none |
| Fields.WordRun | internal/structs/structs.go:289 | The leading run holds only `\w` characters and stops at a non-word character |
| Fields.TagMatchAt | internal/structs/structs.go:289-290 | A match at the front has a word key and a word value and consumes part of the input |
| Fields.TagPairs | internal/structs/structs.go:289-290 | Every matched pair consists of a word key and a word value |
| Fields.PairsToMap | internal/structs/structs.go:291-294 | The keys of the tag map are exactly the keys of the matched pairs |
| Fields.LastValueWins | internal/structs/structs.go:292-294 | A key repeated in a tag keeps the value of its last occurrence |
| Fields.ParseTags | internal/structs/structs.go:288-295 | Every key and value of a parsed tag map is a word |
| Fields.LastOccurrence | internal/structs/structs.go:291-294 | Every key of the map built from word pairs is a word and maps to a word |
| Fields.TagMatchOfPair | internal/structs/structs.go:289 | A key:"value" pair of words at the front is matched whole, with its length |
| Fields.WordRunOf | internal/structs/structs.go:289 | A word followed by a non-word character is exactly one run |
| Fields.Entry | internal/structs/field.go:31 | A rendered key:"value" entry is at least three characters long |
| Fields.Render | internal/structs/field.go:27-32 | One entry per key, each rendered from the key and its value, in the order of the keys |
| Fields.GetGoTag | internal/structs/field.go:18-35 | The tag is the entries of the sorted keys joined by single spaces |
| Fields.RenderStep | internal/structs/field.go:28-31 | Adding a space before each entry except the first builds the space-joined entries |
| Fields.KeysAreSortedSet | internal/structs/field.go:21-25 | Sorting the collected keys gives the map's keys in strictly increasing order, each a key of the map |
| Fields.CollectKeys | internal/structs/field.go:21-24 | The collected keys are the map's keys, each once, in some order |
| Fields.JoinAppend | internal/structs/field.go:27-32 | Joining non-empty entries is empty only for no entries, and one more entry adds a space and the entry |
| Fields.GoTagEmpty | internal/structs/field.go:18-35 | The rendered tag is empty exactly when the tag map is empty |
| Fields.GoTagEntries | internal/structs/field.go:18-35 | Split at spaces, the tag of a map without spaces gives one entry per key, in strictly sorted key order, each key:"value" |
| Structs.FilterMembers | internal/structs/structs.go:34-38 | Exactly the elements satisfying the test are kept |
| Structs.FilterIdempotent | internal/structs/structs.go:34-38 | Filtering twice removes nothing more |
| Structs.ExportedFieldsProperties | internal/structs/structs.go:30-40 | A field is kept exactly when it is exported, and a second pass changes nothing |
| Structs.KeepExported | internal/structs/structs.go:32-38 | The inner loop keeps exactly the exported fields, in order |
| Structs.Catalog.AddStruct | internal/structs/structs.go:26-28 | The struct is stored under its name, replacing an earlier one; nothing else changes |
| Structs.Catalog.RemoveUnexportedFields | internal/structs/structs.go:30-40 | Every struct keeps its name and only its exported fields; no struct is added or removed |
| Structs.FieldTags | internal/structs/structs.go:288-295 | A field without a tag literal has a nil tag map; a parsed one holds only word keys and values |
| Structs.DeclEntriesShape | internal/structs/structs.go:285-313 | (corrected, see the Findings row internal/structs/structs.go:297-304) A declaration fails exactly when its type does not parse; interface and function fields are skipped; every entry carries the last name, the tags and the parsed non-empty type, one per name |
| Structs.DeclEntriesParsed | internal/structs/structs.go:306-312 | A parsed declaration gives one identical entry per name, all called by the last name |
| Structs.ParseTypeSpec | internal/structs/structs.go:273-317 | (corrected, see the Findings row internal/structs/structs.go:297-304) The loop over the field declarations yields exactly the reference result `TypeSpecResult` |
| Structs.FieldEntries | internal/structs/structs.go:285-313 | (corrected, see the Findings row internal/structs/structs.go:297-304) One declaration's round of the loop yields exactly that declaration's entries, or its parse error |
| Structs.TypeSpecResultShape | internal/structs/structs.go:273-317 | (corrected, see the Findings row internal/structs/structs.go:297-304) A non-struct type leaves the parameters as they were; for a struct the fields of all declarations are appended in order, the name is taken from the spec, and the first failing declaration's error is returned |
| Structs.DeclsEntriesStep | internal/structs/structs.go:285-313 | Each further declaration either fails the whole list or appends its entries |
| Structs.DeclsEntriesErrPrefix | internal/structs/structs.go:297-300 | Once a declaration fails, the whole list fails with its error |
| Structs.DeclsEntriesAppend | internal/structs/structs.go:285-313 | The entries of concatenated declaration lists are the concatenated entries |
| Structs.DeclsEntriesTyped | internal/structs/structs.go:302-306 | Every appended entry has a non-empty type |
| Structs.InterfaceFieldAsWritten | internal/structs/structs.go:297-304 | As written, an interface-typed field fails on a nil dereference; the corrected version skips it |
| Structs.TwoNamesShareLastName | internal/structs/structs.go:309-312 | A declaration `A, B int` appends two entries, both named B |
| Structs.GetStructsOld | internal/structs/structs.go:319-391 | The result is the line-by-line scan of the file, starting from no structs |
| Structs.ScanAppend | internal/structs/structs.go:329-388 | Scanning concatenated lines scans the second part from the state the first left |
| Structs.ScanBody | internal/structs/structs.go:358-387 | Inside an open struct, body lines append their fields in order and change nothing else |
| Structs.OneStructFile | internal/structs/structs.go:338-356 | A file with one struct declaration, field lines and a closing brace gives exactly that struct with those fields |
| Structs.GetStructsOldIgnoresTail | internal/structs/structs.go:330-336 | Text after the last newline is ignored |
| Structs.StripStar | internal/structs/structs.go:416-419 | At most one leading '*' is removed |
| Structs.NestedStructsFrom | internal/structs/structs.go:415-434 | (corrected, see the Findings row internal/structs/structs.go:426-432) The accumulated names stay distinct; a name is in the result exactly when accumulated before or named by a nested field |
| Structs.NestedStructs | internal/structs/structs.go:412-437 | (corrected, see the Findings row internal/structs/structs.go:426-432) The names are distinct, exactly those of nested fields, never "[]byte", never scalar types, always exported |
| Structs.MissedStructs | internal/structs/structs.go:393-410 | (corrected, see the Findings row internal/structs/structs.go:426-432) Every missed name is outside the catalog, not scalar, not "[]byte" and exported, and every nested name outside the catalog is missed |
| Structs.PointerFieldAsWritten | internal/structs/structs.go:426-432 | As written, a field of type *B reports "*B", which names no struct; corrected, it reports "B" |
| Structs.ShrinkingDifference | internal/structs/structs.go:458-463 | Adding missed structs shrinks the structs still to be added, so the recursion ends |
| Structs.Closure | internal/structs/structs.go:439-464 | (corrected, see the Findings row internal/structs/structs.go:426-432) The round-by-round closure: on success it grows the catalog only with structs from the full set and misses nothing; on failure it reports a non-empty set of names that are neither known structs nor scalar types |
| Structs.ClosureMinimal | internal/structs/structs.go:439-464 | (corrected, see the Findings row internal/structs/structs.go:426-432) Every catalog grown from the models with structs of the full set that misses nothing contains the closure, so the closure is the least closed superset, and it fails only when no closed superset exists |
| Structs.MissedWithin | internal/structs/structs.go:393-410 | Every name a catalog misses is a key of each closed catalog grown from it, and so a known struct |
| Structs.ClosureStep | internal/structs/structs.go:445-463 | One round adds exactly the missed names, shrinks the names still to be added, and leaves the closure unchanged |
| Structs.ClosureFails | internal/structs/structs.go:445-452 | A missed name outside the full set fails the closure in that round, and is among the names it reports |
| Structs.FillMissedTypes | internal/structs/structs.go:439-464 | (corrected, see the Findings row internal/structs/structs.go:426-432) On success the catalog becomes exactly the closure of the models catalog (the least closed superset); on failure the closure fails too and the fatal name is one of the unknown names it reports, neither a known struct nor a scalar type; either way the catalog only grows with structs from the full set |
| Structs.AddMissed | internal/structs/structs.go:445-456 | (corrected, see the Findings row internal/structs/structs.go:426-432) Either every missed name is added from the full set, and nothing else, or an unknown missed name is reported |
| Structs.ExtendGrown | internal/structs/structs.go:455 | Adding structs under new names only grows the catalog, keeping every field typed |
| TypeExpr.ParseTypeExpr | internal/structs/parser.go:17-103 | (corrected, see the Findings row internal/structs/parser.go:74) A bare identifier is its own name, exported when it starts with an ASCII capital; interface and function types give no data; a nested struct and any other expression are errors |
| TypeExpr.PointerType | internal/structs/parser.go:35-43 | A pointer type is its element's name with '*' in front, keeping the element's export flag |
| TypeExpr.SelectorType | internal/structs/parser.go:46-55 | pkg.Name is external, printed "pkg.Name", with its package and type recorded |
| TypeExpr.SelectorNeedsIdent | internal/structs/parser.go:58 | A selector on anything but an identifier is an error |
| TypeExpr.ArrayLengthDropped | internal/structs/parser.go:61-70 | Array and slice types print alike: the length is dropped |
| TypeExpr.MapRendersKeyAndValue | internal/structs/parser.go:73-96 | (corrected) a map type prints as map[key]value from the parsed key and value, exported like its value |
| TypeExpr.TypeNameNonEmpty | internal/structs/parser.go:17-103 | Every parsed type of a well-formed expression has a non-empty name |
| TypeExpr.NoNilDereference | internal/structs/parser.go:36-43 | (corrected) without interface or function types inside a pointer, array or map, parsing never dereferences nil and an accepted type always has data |
| TypeExpr.MapKeyFromValueAsWritten | internal/structs/parser.go:74 | As written, map[string]int prints as map[int]int; corrected, as map[string]int |
| TypeExpr.MapOfInterfaceAsWritten | internal/structs/parser.go:74-84 | As written, map[string]interface{} fails on a nil dereference; corrected, it prints as map[string]any |
| TypeExpr.AsWrittenMapKeyIsValue | internal/structs/parser.go:74 | As written, every map type prints its value type in the key position |
| Slice.Names | internal/structs/slice.go:12-16 | One name per struct, in order |
| Slice.ExistStructIndex | internal/structs/slice.go:11-18 | -1 with nil exactly when no struct has the name; otherwise the first such index and that struct |
| Slice.FirstMissing | internal/structs/slice.go:26-33 | Reports a priority name that no struct has, or none when every priority name is present |
| Slice.StructSlice.Sort | internal/structs/slice.go:20-58 | The error is the reference outcome; on error or with no priority names the slice is unchanged; otherwise it holds the structs gathered in the sort order |
| Slice.CollectNotPriority | internal/structs/slice.go:35-41 | The loop collects the names outside the priority list, in slice order |
| Slice.GatherStructs | internal/structs/slice.go:46-53 | The loop gathers, for each name in order, every struct with that name |
| Slice.NamedMembers | internal/structs/slice.go:48-52 | The gathered structs for a name are exactly the structs with that name |
| Slice.NamedUnique | internal/structs/slice.go:48-52 | With distinct names each name gathers exactly its one struct |
| Slice.GatherNames | internal/structs/slice.go:46-53 | With distinct names present in the slice, the gathered structs have exactly the requested names, in order, and come from the slice |
| Slice.NotPriorityMembers | internal/structs/slice.go:35-41 | A name is collected exactly when a struct has it and it is not a priority name; with distinct names they are distinct |
| Slice.SortOrderPermutes | internal/structs/slice.go:25-44 | The sort order is a permutation of the structs' names |
| Slice.SortResult | internal/structs/slice.go:20-58 | A successful sort keeps every struct exactly once, puts the priority names first in their given order and the rest in sorted order |
| Slice.GatherPermutes | internal/structs/slice.go:46-53 | Gathering by a permutation of the names permutes the structs |
| Slice.SortOutcomeCases | internal/structs/slice.go:20-30 | No priority names means no error; an unknown priority name is an "undefined struct" error |
| Slice.RepeatedPriorityPanics | internal/structs/slice.go:35 | A priority name given twice for a one-struct slice makes the capacity negative, so make panics |
| Slice.ConvertStructsToSlice | internal/structs/slice.go:60-68 | Every struct of the map appears once, under a distinct key, in some order |
| GoModels.WriteTags | internal/gomodels/gomodels.go:245-247 | The written map holds the old keys plus the configured tag names; keys not configured keep their values |
| GoModels.LastTagWins | internal/gomodels/gomodels.go:245-247 | A tag name configured more than once keeps its last value |
| GoModels.Retag | internal/gomodels/gomodels.go:241-247 | Writing into a field's nil tag map, when the current tags are kept and there are tags to write, is the Go panic; otherwise the result is the current or a fresh map with the tags written, and nothing to write keeps the tags |
| GoModels.EditFields | internal/gomodels/gomodels.go:153-180 | Every field of a struct is edited the same way, in place, the count unchanged |
| GoModels.EditAll | internal/gomodels/gomodels.go:152-181 | Every struct of the catalog is edited and no struct is added or removed |
| GoModels.EditAllFields | internal/gomodels/gomodels.go:226-251 | The edit panics exactly when some field panics; otherwise the catalog becomes the edited catalog |
| GoModels.EditStructFields | internal/gomodels/gomodels.go:228-250 | The inner loop panics exactly when some field of the struct panics; otherwise it yields the edited fields |
| GoModels.UnsignedOf | internal/gomodels/gomodels.go:164-175 | Exactly int16, int32 and int64 get an unsigned type, their name with "u" in front |
| GoModels.WidenField | internal/gomodels/gomodels.go:153-180 | Name and tags are kept; a field that is not an eligible ID field is unchanged; an eligible one gets the unsigned type, keeping a leading '*' |
| GoModels.WidenedStars | internal/gomodels/gomodels.go:162-179 | A widened type starts with '*' exactly when the old one did, has at most that one '*', and its star-free part is the unsigned name |
| GoModels.DotWordRun | internal/gomodels/gomodels.go:211 | The captured target is the leading run of word characters and dots |
| GoModels.AfterTarget | internal/gomodels/gomodels.go:211-216 | None exactly when "after " followed by a word character or dot occurs nowhere; otherwise the run after the leftmost such "after " |
| GoModels.AfterFrom | internal/gomodels/gomodels.go:211-216 | The search from a position before which nothing matches finds the leftmost match |
| GoModels.AfterTargetShape | internal/gomodels/gomodels.go:211-216 | A captured target is non-empty and made of word characters and dots |
| GoModels.AfterExample | internal/gomodels/gomodels.go:211-216 | "after id" targets "id" and "start" targets nothing |
| GoModels.InsertPosition | internal/gomodels/gomodels.go:201-221 | "" and "start" insert first, "end" last, an unmatched position is an error, "after X" inserts after the first field X and a missing X is an error |
| GoModels.AddFieldTo | internal/gomodels/gomodels.go:185-222 | Adding a field fails exactly when its position does; otherwise the new field sits at the position and removing it gives back the old fields |
| GoModels.AddFieldsStage | internal/gomodels/gomodels.go:185-223 | Adding fields never adds or removes a struct |
| GoModels.InsertNewField | internal/gomodels/gomodels.go:190-221 | The in-place insertion equals the reference insertion |
| GoModels.AddFields | internal/gomodels/gomodels.go:185-223 | The new catalog and the error are those of the reference add-fields stage |
| GoModels.ByFieldStage | internal/gomodels/gomodels.go:226-251 | The only possible error is the nil-map write; no struct is added or removed |
| GoModels.ByFieldEffect | internal/gomodels/gomodels.go:228-249 | Fields with another name are unchanged; a matching field takes the new name and type when given, and its tags are rewritten |
| GoModels.UpdateAllByField | internal/gomodels/gomodels.go:226-251 | The in-place update gives the reference stage's error and, without error, its catalog |
| GoModels.ByTypeStage | internal/gomodels/gomodels.go:253-271 | The only possible error is the nil-map write; no struct is added or removed |
| GoModels.ByTypeEffect | internal/gomodels/gomodels.go:255-269 | The field count and names never change; fields of another type are unchanged; a matching field takes the new type and, unless the tag write panics, the tag rule |
| GoModels.UpdateAllByType | internal/gomodels/gomodels.go:253-271 | The in-place update gives the reference stage's error and, without error, its catalog |
| GoModels.UpdateOne | internal/gomodels/gomodels.go:273-303 | Updating one field never adds or removes a struct |
| GoModels.UpdateFieldsStage | internal/gomodels/gomodels.go:273-303 | The update stage never adds or removes a struct |
| GoModels.UpdateOnlyFirst | internal/gomodels/gomodels.go:273-303 | A successful update names an existing struct, leaves every other struct alone, and changes only the first field with the given name |
| GoModels.UpdateFields | internal/gomodels/gomodels.go:273-303 | The in-place update gives the reference stage's error and, unless a nil map was written, its catalog |
| GoModels.ApplyUpdateField | internal/gomodels/gomodels.go:274-302 | One in-place update gives the reference result |
| GoModels.DeleteNames | internal/gomodels/gomodels.go:311-319 | A reported missing field is one of the names to delete |
| GoModels.DeleteFirstOccurrence | internal/gomodels/gomodels.go:312-318 | Deleting a present name removes exactly its first field and keeps the rest in order |
| GoModels.DeleteNamesShrinks | internal/gomodels/gomodels.go:311-319 | Successful deletion removes one field per name and adds none |
| GoModels.DeleteFieldsStage | internal/gomodels/gomodels.go:305-321 | The delete stage never adds or removes a struct |
| GoModels.DeleteFields | internal/gomodels/gomodels.go:305-321 | The in-place deletion gives the reference stage's catalog and error |
| GoModels.Process | internal/gomodels/gomodels.go:150-322 | The whole edit never adds or removes a struct |
| GoModels.ProcessStructs | internal/gomodels/gomodels.go:150-322 | The in-place edit gives the reference stages' error and, unless a nil map was written, their catalog |
| GoModels.NonSpaceRun | internal/gomodels/gomodels.go:136 | The underlying type is the leading run of non-space characters |
| GoModels.ScalarDecl | internal/gomodels/gomodels.go:136-146 | A matched line starts "type Name Under" with a word name and a non-empty space-free underlying type |
| GoModels.ScalarTypesOf | internal/gomodels/gomodels.go:120-148 | Every scalar type is recorded under its own name |
| GoModels.GetScalarTypes | internal/gomodels/gomodels.go:120-148 | The line loop gives the reference scalar-type map |
| GoModels.ScalarDeclOfLine | internal/gomodels/gomodels.go:136-146 | "type Name Under" followed by a space is read as Name with underlying type Under |
| GoModels.NonSpaceRunOf | internal/gomodels/gomodels.go:136 | A space-free word followed by a space is exactly one run |
| GoModels.StructLineSkipped | internal/gomodels/gomodels.go:133-135 | A line with "struct {" adds no scalar type |
| GoModels.CollectImports | internal/gomodels/gomodels.go:349-356 | The collected imports are distinct and are exactly the imports of the structs |
| GoModels.PackageName | internal/gomodels/gomodels.go:335-340 | (corrected) the configured package name, or the last segment of the output directory without its trailing '/' |
| GoModels.GoModelsTarget | internal/gomodels/gomodels.go:324-333 | (corrected, see the Findings row internal/gomodels/gomodels.go:335-336) An error exactly without an output directory; otherwise the file name ends in ".go", with the package name and the trimmed directory |
| GoModels.TrailingSlashPackage | internal/gomodels/gomodels.go:335-336 | As written, "db/models/" gives the empty package name; corrected, "models" |
| GoModels.LastSegmentAfter | internal/gomodels/gomodels.go:335-336 | The last segment of a/b is b |
| Keystone.SprintfSplice | internal/keystone/keystone.go:176 | Formatting a one-verb wrapper puts the type text where the verb was |
| Keystone.SwitchName | internal/keystone/keystone.go:271-276 | A nullable type loses every '*'; any other type is unchanged |
| Keystone.KindTable | internal/keystone/keystone.go:279-325 | Each built-in Go type maps to its case: integers, 64-bit integers, floats, string, bool, times, uuid (uuid only in this generator) |
| Keystone.BuiltinsFirst | internal/keystone/keystone.go:279-326 | A built-in type is projected by its case, never looked up among structs or scalar types |
| Keystone.NullableBuiltins | internal/keystone/keystone.go:272-325 | Every nullable built-in uses the maybe or "| undefined" wrapper and a type without a default |
| Keystone.NonNullableDefaults | internal/keystone/keystone.go:280-325 | A non-nullable built-in carries its default: 0, 0n, "", false or {} |
| Keystone.DefaultsOnlyWhenNonNullable | internal/keystone/keystone.go:283-322 | The non-nullable type text is the nullable one with a default appended |
| Keystone.RecordIgnoresNullability | internal/keystone/keystone.go:323-325 | JSON maps project to Record<string, any> with {} whatever their nullability |
| Keystone.NullableSpellings | internal/keystone/keystone.go:271-273 | Every spelling of a nullable type projects like its single-pointer spelling |
| Keystone.UuidOnlyInKeystone | internal/keystone/keystone.go:318-322 | A uuid type is a string in this generator and unchecked in the gomodels one |
| Keystone.VariantsAgree | internal/gomodels/keystone.go:142-216 | Without uuid types the two generators project every type alike |
| Keystone.AliasOfBuiltin | internal/keystone/keystone.go:336-337 | A scalar alias of a built-in projects as that built-in |
| Keystone.AliasDropsNullability | internal/keystone/keystone.go:336-337 | A pointer to an alias of a non-nullable built-in projects as the non-nullable built-in: the pointer is lost |
| Keystone.AliasStep | internal/keystone/keystone.go:336-337 | Following an alias projects its underlying type |
| Keystone.RankedTerminates | internal/keystone/keystone.go:326-342 | When alias chains are ranked (no cycle) every type has a projection |
| Keystone.SelfAliasDiverges | internal/keystone/keystone.go:336-337 | A scalar type that is an alias of itself recurses forever, so it has no projection |
| Keystone.BuiltinOpening | internal/keystone/keystone.go:268-325 | Every built-in wrapper opens with a verb-free prefix |
| Keystone.KnownOpening | internal/keystone/keystone.go:267-345 | Every projection's wrapper opens with a verb-free prefix |
| Keystone.GetType | internal/keystone/keystone.go:169-177 | getType fails exactly when the projection does, and otherwise is the wrapper around the type text with ".withSetter()" when asked; internal/gomodels/keystone.go:43-52 behaves the same |
| Keystone.SetterSuffix | internal/keystone/keystone.go:172-174 | With the setter the rendered type is the rendering without it plus ".withSetter()" |
| Keystone.ExistFieldId | internal/keystone/keystone.go:179-192 | True exactly when some struct of that name has a field whose lower-cased name is the given one; internal/gomodels/keystone.go:54-67 behaves the same |
| Keystone.SkipModels | internal/keystone/keystone.go:108-110 | Exactly the skipped names are removed; every other struct is kept unchanged |
| Keystone.SortNamesAsWritten | internal/keystone/keystone.go:219 | Splitting the sort setting always yields at least one name |
| Keystone.UnsetSortFails | internal/keystone/keystone.go:219 | As written, an empty sort setting asks for a struct named "" and fails with "undefined struct" |
| Keystone.SortNames | internal/keystone/keystone.go:219 | (corrected) an empty setting gives no priority names; otherwise the split names |
| Keystone.UnsetSortKeepsOrder | internal/keystone/keystone.go:219-221 | (corrected) an empty sort setting never fails |
| Keystone.CompileMobxKeystoneModels | internal/keystone/keystone.go:154-221 | (corrected, see the Findings row internal/keystone/keystone.go:219) An empty output directory is an error; the file name defaults to "models.ts"; the structs of the catalog, each once, are sorted by the priority names and the sort error is passed on |
| Typescript.SwitchType | internal/typescript/typescript.go:217-236 | The switch gives one of six TypeScript types, and "any" exactly for a name outside the known cases |
| Typescript.TypescriptType | internal/typescript/typescript.go:214-237 | The TypeScript type is one of six texts, never empty, and "any" exactly for a Go type outside the known cases; internal/pgxgen/typescript.go:177-201 behaves the same |
| Typescript.PointerInsensitive | internal/typescript/typescript.go:215 | Pointers do not change the TypeScript type |
| Typescript.NullableIffStar | internal/typescript/typescript.go:148-150 | A type is nullable exactly when it contains '*', that is when removing stars changes it |
| Typescript.FilterFields | internal/typescript/typescript.go:137-147 | The loop keeps exactly the fields whose name's first UTF-8 byte, read as a rune, is not a lower-case letter, in order; internal/pgxgen/typescript.go:115-125 behaves the same |
| Typescript.FilterFieldsProperties | internal/typescript/typescript.go:137-147 | A field is kept exactly when its first byte is not lower-case, and filtering again changes nothing |
| Typescript.StartsLowerAscii | internal/typescript/typescript.go:140 | On a name starting with an ASCII character the byte test is the a-to-z test |
| Typescript.WideLeadIsLower | internal/typescript/typescript.go:140 | A name starting with a character of three or more UTF-8 bytes reads as lower-case, so its field is left out |
| Typescript.TwoByteLead | internal/typescript/typescript.go:140 | A name starting with a two-byte character reads as lower-case exactly from U+07C0 on (lead byte 0xDF) |
| Typescript.DeleteDecision | internal/typescript/typescript.go:85-107 | The decision is "delete" exactly by the deletion rule, and undecided exactly without includes and with no matching exclude |
| Typescript.FilterStructs | internal/typescript/typescript.go:84-110 | Exactly the structs not deleted by the rule are kept, unchanged; internal/pgxgen/typescript.go:57-84 behaves the same |
| Typescript.FilterRuleCases | internal/typescript/typescript.go:85-107 | No patterns delete nothing; a matching exclude always deletes; otherwise with includes a struct is deleted exactly when no include matches |
| Typescript.OutputCheck | internal/typescript/typescript.go:57-63 | No error exactly when both the directory and the file name are set; an empty directory is reported first; internal/pgxgen/typescript.go:26-32 behaves the same |
| Typescript.PrepareTypescript | internal/typescript/typescript.go:56-115 | An error exactly when the output check fails; otherwise every kept struct appears once, in map order, and the sort without names keeps it |
| LegacyKeystone.PointerBlind | internal/pgxgen/keystone.go:156 | The older projection ignores every '*' |
| LegacyKeystone.AlwaysMaybe | internal/pgxgen/keystone.go:155-190 | Every projection of the older generator is wrapped in types.maybe, except JSON maps, which are prop<…>() |
| LegacyKeystone.BigIntIsInteger | internal/pgxgen/keystone.go:163-165 | 64-bit integers, with or without a pointer, project to types.integer |
| LegacyKeystone.BigIntsDiffer | internal/pgxgen/keystone.go:163-165 | The older generator projects 64-bit integers as types.integer where the newer one uses bigint with 0n |
| LegacyKeystone.SelfAliasDiverges | internal/pgxgen/keystone.go:182-183 | A scalar type that is an alias of itself recurses forever, so it has no projection |
| LegacyKeystone.GetType | internal/pgxgen/keystone.go:54-63 | getType fails exactly when the projection does, and otherwise is the wrapper around the type text with ".withSetter()" when asked |
| LegacyKeystone.KeystoneImports | internal/pgxgen/keystone.go:75-85 | The imports are the four base names plus "prop" exactly when some field is a JSON map |
| LegacyKeystone.Missing | internal/pgxgen/keystone.go:94-100 | None exactly when every sort name is a struct; otherwise the first sort name that is not |
| LegacyKeystone.Listed | internal/pgxgen/keystone.go:94-100 | The listed structs are those of the sort names, in their order |
| LegacyKeystone.Unlisted | internal/pgxgen/keystone.go:102-113 | The remaining structs are structs of the catalog whose names are not sort names |
| LegacyKeystone.SortStructs | internal/pgxgen/keystone.go:87-114 | The loop gives the reference order of the comma-split sort setting |
| LegacyKeystone.AppendUnlisted | internal/pgxgen/keystone.go:102-113 | Appends, in ascending key order, exactly the structs whose name is not a sort name |
| LegacyKeystone.MissingAt | internal/pgxgen/keystone.go:94-98 | The first sort name that is not a struct is the one reported |
| LegacyKeystone.UnlistedHas | internal/pgxgen/keystone.go:108-113 | Every struct whose name is not a sort name is among the remaining ones |
| LegacyKeystone.OrderCoversCatalog | internal/pgxgen/keystone.go:87-114 | When every sort name is known, the listed structs come first in order, the others follow, and every struct of the catalog appears |
| LegacyKeystone.UnsetSortFails | internal/pgxgen/keystone.go:88-97 | An empty sort setting splits into [""] and fails with "undefined struct" |
| LegacyKeystone.CompileMobxKeystoneModels | internal/pgxgen/keystone.go:26-114 | An empty output directory is an error; an unknown sort name is reported; otherwise the ordered structs are compiled into the default or given file |
| LegacyModels.ScanKeepsShape | internal/pgxgen/models.go:112-163 | The older reader keeps every struct under its own name with a tag map on every field |
| LegacyModels.GetStructs | internal/pgxgen/models.go:106-166 | The reader gives the line scan of the file; every struct is under its own name and every field has a tag map |
| LegacyModels.Widen | internal/pgxgen/models.go:170-202 | The older unsigned rewrite is the same field edit as the current one |
| LegacyModels.LegacyProcess | internal/pgxgen/models.go:168-301 | The older edit never adds or removes a struct |
| LegacyModels.ProcessStructs | internal/pgxgen/models.go:168-301 | The in-place older edit gives the reference error and, unless a nil map was written, the reference catalog |
| LegacyModels.LegacyIsCurrentWithoutBulkUpdates | internal/pgxgen/models.go:168-301 | The older edit is the current one without the bulk by-field and by-type stages |
| LegacyModels.NeverPanicsOnTaggedCatalog | internal/pgxgen/models.go:142 | On a catalog whose fields all have tag maps the older edit never writes a nil map, and all fields keep tag maps |
| LegacyModels.AddFieldToTagged | internal/pgxgen/models.go:205-245 | Adding a field keeps every field tagged |
| LegacyModels.AddKeepsTagged | internal/pgxgen/models.go:205-245 | The add stage keeps every field tagged and never writes a nil map |
| LegacyModels.UpdateKeepsTagged | internal/pgxgen/models.go:248-280 | The update stage keeps every field tagged and never writes a nil map |
| LegacyModels.DeleteNamesTagged | internal/pgxgen/models.go:288-295 | Deleting fields keeps the remaining ones tagged |
| LegacyModels.DeleteKeepsTagged | internal/pgxgen/models.go:282-298 | The delete stage keeps every field tagged and never writes a nil map |
| LegacyModels.ReadCatalogProcesses | internal/pgxgen/models.go:73-76 | A catalog read from a file is keyed by name, never makes the edit write a nil map, and is edited as the current generator without bulk updates |
| LegacyModels.ConvertAllTags | internal/pgxgen/models.go:332-336 | Every field of every struct gets its rendered tag; names and counts are unchanged |
| LegacyModels.ConvertFieldTags | internal/pgxgen/models.go:333-335 | Every field of one struct gets its rendered tag |
| LegacyModels.RenderedTagShape | internal/pgxgen/models.go:42-57 | The rendered tag is empty exactly for an empty map; otherwise it has one space-separated entry per key |
| LegacyModels.LegacyFileName | internal/pgxgen/models.go:309-311 | An empty name stays empty; a non-empty one ends in ".go", added only when missing |
| LegacyModels.LegacyTargetAsWritten | internal/pgxgen/models.go:303-322 | As written: an error exactly without a directory, the directory unchanged, the package from the last segment |
| LegacyModels.LegacyTarget | internal/pgxgen/models.go:303-322 | (corrected) the trailing '/' is dropped, so the package name has no '/' |
| LegacyModels.LegacyTrailingSlash | internal/pgxgen/models.go:313-318 | As written, "db/models/" keeps its '/' and gives the empty package name; corrected, "db/models" and "models" |
| LegacyModels.TargetsAgreeWithoutSlash | internal/pgxgen/models.go:313-315 | Without a trailing '/' the as-written and corrected targets agree |
| Tables.GetTableMetaData | internal/crud/types.go:26-33 | The search over the entries returns the table's entry exactly when the name is a key, and nothing otherwise (the same search is internal/schema/types.go:10-17) |
| Tables.Valid | internal/crud/types.go:47-53 | Exactly the three engine names postgresql, mysql and sqlite are valid |
| Sql.Builder.constructor | internal/crud/crud.go:71 | A new builder holds nothing |
| Sql.Builder.Write | internal/crud/crud.go:199-202 | WriteString appends exactly the written pieces and keeps everything written before |
| Crud.GetMethodName | internal/crud/crud.go:189-192 | The configured query name wins; otherwise the generated name for the method and table |
| Crud.TotalNameCollides | internal/crud/crud.go:385-390 | As written, an unnamed total query takes the default name of the delete query of the same table |
| Crud.TotalNameDistinct | internal/crud/crud.go:455-465 | (corrected) the total query's default name starts with 'T' and the delete query's with 'D', so they never collide |
| Crud.GetPrimaryColumn | internal/crud/crud.go:467-477 | No configured column is no error and gives ""; a configured one succeeds exactly when it is a column, and otherwise fails naming the table and column |
| Crud.GetOrderByParams | internal/crud/crud.go:503-511 | No order exactly when no order column is set; otherwise that column, with direction DESC when none is given |
| Crud.WriteClause | internal/crud/crud.go:431-443 | One predicate is written after its keyword: with a value it takes no placeholder, without one it takes the next number and the operator defaults to "=" |
| Crud.WritePredicate | internal/crud/crud.go:412-445 | One loop step writes the keyword and the predicate of one configured key and advances the counter as the reference does |
| Crud.WriteWhere | internal/crud/crud.go:412-446 | The loop over the sorted keys writes the reference predicates, or stops at the first key that is not a column with that error |
| Crud.ProcessWhereParam | internal/crud/crud.go:404-448 | (corrected, see the Findings row internal/crud/crud.go:422-424) Writes the predicates of the method's where-params in ascending key order, numbered from the counter, or reports the first unknown column |
| Crud.WriteColumns | internal/crud/crud.go:202-209 | Writes the quoted columns separated by ", " |
| Crud.WriteValues | internal/crud/crud.go:212-223 | Writes now() for created_at and $1, $2, … for every other column, separated by ", " |
| Crud.ProcessCreate | internal/crud/crud.go:187-235 | Never fails and writes the reference insert query |
| Crud.WriteSetEntry | internal/crud/crud.go:256-269 | One loop step writes the separator, a line break every sixth column of a wide table, and the assignment |
| Crud.WriteSet | internal/crud/crud.go:255-270 | Writes the reference SET list and returns the next placeholder number |
| Crud.WriteUpdateHead | internal/crud/crud.go:248-274 | Writes the header, SET list and primary-key predicate of an update and returns the next number |
| Crud.ProcessUpdate | internal/crud/crud.go:237-295 | Writes the reference update query, or reports its error and writes nothing more that counts |
| Crud.ProcessKeyed | internal/crud/crud.go:297-359 | The shared shape of delete and get: primary-key check, header, key predicate, where-params |
| Crud.ProcessDelete | internal/crud/crud.go:297-327 | Writes the reference delete query or reports its error |
| Crud.ProcessGet | internal/crud/crud.go:329-359 | Writes the reference get query or reports its error |
| Crud.ProcessFind | internal/crud/crud.go:361-383 | (corrected, see the Findings row internal/crud/crud.go:422-424) Writes the reference find query: predicates, optional ORDER BY, optional LIMIT/OFFSET numbered after the predicates |
| Crud.ProcessTotal | internal/crud/crud.go:385-402 | (corrected, see the Findings rows internal/crud/crud.go:422-424 and internal/crud/crud.go:387-390) Writes the reference count query or reports its error |
| Crud.ProcessMethod | internal/crud/crud.go:98-113 | (corrected, see the Findings rows internal/crud/crud.go:422-424 and internal/crud/crud.go:387-390) Dispatches on the method type; an unknown type writes nothing |
| Crud.ProcessMethods | internal/crud/crud.go:94-119 | (corrected, see the Findings rows internal/crud/crud.go:422-424 and internal/crud/crud.go:387-390) Writes the given methods of one table in order, appending exactly the reference queries; the first failing method stops with its error wrapped with method and table |
| Crud.ProcessTable | internal/crud/crud.go:79-120 | (corrected, see the Findings rows internal/crud/crud.go:422-424 and internal/crud/crud.go:387-390) Writes every method of one table in ascending method order; the first error is wrapped with the method and table |
| Crud.ProcessTables | internal/crud/crud.go:79-120 | (corrected, see the Findings rows internal/crud/crud.go:422-424 and internal/crud/crud.go:387-390) Writes the given tables in order, appending exactly each table's reference queries; a table absent from the metadata stops with the missing-table error |
| Crud.ProcessQueriesStep | internal/crud/crud.go:79-87 | (corrected, see the Findings rows internal/crud/crud.go:422-424 and internal/crud/crud.go:387-390) One table of the reference: absent from the metadata it is the missing-table error, otherwise its queries (or their error) come before the rest |
| Crud.AllQueriesInOrder | internal/crud/crud.go:71-77 | (corrected, see the Findings rows internal/crud/crud.go:422-424 and internal/crud/crud.go:387-390) The configured table names, sorted ascending, are all configured tables, and the reference over them is process's answer |
| Crud.Process | internal/crud/crud.go:53-126 | (corrected, see the Findings rows internal/crud/crud.go:422-424 and internal/crud/crud.go:387-390) The whole output is the reference concatenation over tables in ascending order, or the first error: a missing table or a wrapped method error |
| CrudProperties.WhereClausesSucceed | internal/crud/crud.go:412-416 | The predicates succeed exactly when every where-param is a column of the table |
| CrudProperties.WhereClausesFirstError | internal/crud/crud.go:412-416 | A failure names an unknown param, the smallest unknown one in key order, with the table |
| CrudProperties.WhereClausesMarks | internal/crud/crud.go:404-448 | (corrected, see the Findings row internal/crud/crud.go:422-424) The predicates use consecutive numbers from the counter, and every keyword after the first is AND |
| CrudProperties.FindWhereAsWrittenUnchained | internal/crud/crud.go:422-424 | As written, a find query with two where-params gets WHERE twice |
| CrudProperties.FindWhereChained | internal/crud/crud.go:422-424 | (corrected) the predicates of find form one chain: WHERE, then only AND |
| CrudProperties.ValueMarks | internal/crud/crud.go:212-223 | The VALUES list numbers every column but created_at consecutively |
| CrudProperties.CreateMarks | internal/crud/crud.go:187-235 | An insert query numbers its placeholders $1 … $n, one per non-created_at column, and has no predicate |
| CrudProperties.SetMarks | internal/crud/crud.go:255-270 | The SET list numbers every column but updated_at consecutively and has no predicate |
| CrudProperties.UpdateMarks | internal/crud/crud.go:237-295 | An update query numbers its placeholders $1, $2, … in order and its predicates form one WHERE … AND chain |
| CrudProperties.KeyedMarks | internal/crud/crud.go:297-359 | A delete or get query starts with the key predicate WHERE "key"=$1, numbers the rest in order and chains with AND |
| CrudProperties.DeleteGetMarks | internal/crud/crud.go:297-359 | Delete and get queries are numbered from $1 in order and chained |
| CrudProperties.PrimaryRequired | internal/crud/crud.go:239-246 | Update, delete and get fail without a primary column, and with one that is not a column of the table |
| CrudProperties.FindMarks | internal/crud/crud.go:361-383 | (corrected, see the Findings row internal/crud/crud.go:422-424) A find query is numbered in order (LIMIT and OFFSET last) and chained |
| CrudProperties.TotalMarks | internal/crud/crud.go:385-402 | (corrected, see the Findings rows internal/crud/crud.go:422-424 and internal/crud/crud.go:387-390) A count query is numbered in order and chained |
| CrudProperties.MethodQueryMarks | internal/crud/crud.go:98-113 | (corrected, see the Findings rows internal/crud/crud.go:422-424 and internal/crud/crud.go:387-390) Every query the generator writes is numbered $1, $2, … in order and has at most one WHERE, first |
| CrudProperties.AllQueriesNeedTables | internal/crud/crud.go:83-86 | The generator succeeds only when every configured table exists in the database |
| LegacyCrud.Exist | internal/pgxgen/crud.go:25-32 | The linear search answers true exactly when the value is in the list |
| LegacyCrud.WritePredicate | internal/pgxgen/crud.go:348-358 | One loop round writes WHERE before the first param and AND before the others, then `param=$n` |
| LegacyCrud.ProcessWhereParam | internal/pgxgen/crud.go:346-361 | Writes the configured params in their order with consecutive placeholders, or fails at the first param that is not a column |
| LegacyCrud.WriteColumns | internal/pgxgen/crud.go:178-188 | Writes the column list as the loop does: id and updated_at left out, commas placed by the index test as written |
| LegacyCrud.WriteValue | internal/pgxgen/crud.go:192-205 | One loop round writes the separator and now(), nothing, or the next placeholder |
| LegacyCrud.WriteValues | internal/pgxgen/crud.go:191-207 | Writes the VALUES list of the reference definition |
| LegacyCrud.ProcessCreate | internal/pgxgen/crud.go:169-212 | Never fails and writes the reference insert query |
| LegacyCrud.WriteSetEntry | internal/pgxgen/crud.go:226-240 | One loop round writes the separator, a line break when the counter is a multiple of six in a wide table, and the assignment |
| LegacyCrud.WriteSet | internal/pgxgen/crud.go:225-241 | Writes the reference SET list and returns the next placeholder number |
| LegacyCrud.WriteUpdateHead | internal/pgxgen/crud.go:214-243 | Writes the header and SET list of an update and returns the next number |
| LegacyCrud.ProcessUpdate | internal/pgxgen/crud.go:214-259 | Writes the (corrected) update query, or reports the first unknown where-param |
| LegacyCrud.ProcessKeyed | internal/pgxgen/crud.go:261-307 | The shared shape of delete and get: where-params from $1, then the id predicate |
| LegacyCrud.ProcessDelete | internal/pgxgen/crud.go:261-283 | Writes the reference delete query or reports its error |
| LegacyCrud.ProcessGet | internal/pgxgen/crud.go:285-307 | Writes the reference get query or reports its error |
| LegacyCrud.ProcessFind | internal/pgxgen/crud.go:309-328 | Writes the reference find query: where-params, optional ORDER BY, optional LIMIT/OFFSET after them |
| LegacyCrud.ProcessTotal | internal/pgxgen/crud.go:330-344 | Writes the reference count query with total's own where-params |
| LegacyCrud.Step | internal/pgxgen/crud.go:72-89 | (corrected, see the Findings row internal/pgxgen/crud.go:247-254) Writing one query after what was written keeps the whole output the reference concatenation, and an error stops it |
| LegacyCrud.ProcessTable | internal/pgxgen/crud.go:72-89 | (corrected, see the Findings row internal/pgxgen/crud.go:247-254) Writes the six queries of one table in the source's order; the first error stops it |
| LegacyCrud.GenerateCrud | internal/pgxgen/crud.go:56-90 | (corrected, see the Findings row internal/pgxgen/crud.go:247-254) Visiting every table of the grouped data exactly once, the output is their queries in iteration order, or the first error |
| LegacyCrud.GroupRows | internal/pgxgen/crud.go:152-164 | The rows grouped by table, the skipped tables left out, columns in row order |
| LegacyCrudProperties.WhereFails | internal/pgxgen/crud.go:348-351 | The predicates succeed exactly when every param is a column, and a failure names the first that is not |
| LegacyCrudProperties.WhereChain | internal/pgxgen/crud.go:346-361 | The predicates take one consecutive number each and form one WHERE … AND chain |
| LegacyCrudProperties.ColumnsNamed | internal/pgxgen/crud.go:178-188 | Every column other than id and updated_at appears quoted in the column list |
| LegacyCrudProperties.ColumnsSkipped | internal/pgxgen/crud.go:183-184 | id and updated_at never appear in the column list |
| LegacyCrudProperties.ValueCount | internal/pgxgen/crud.go:191-206 | The VALUES list takes one placeholder per column other than id, updated_at and created_at |
| LegacyCrudProperties.CreateMarks | internal/pgxgen/crud.go:169-212 | An insert query is numbered $1 … $n in order and has no predicate |
| LegacyCrudProperties.SetCount | internal/pgxgen/crud.go:225-241 | The SET list takes one placeholder per column other than id, created_at and updated_at |
| LegacyCrudProperties.UpdateHeadMarks | internal/pgxgen/crud.go:214-243 | The head of an update is numbered from $1 and has no predicate |
| LegacyCrudProperties.UpdateMarks | internal/pgxgen/crud.go:214-259 | (corrected) an update query is numbered in order and its predicates form one WHERE … AND chain |
| LegacyCrudProperties.UpdateAsWrittenUnchained | internal/pgxgen/crud.go:247-254 | As written, an update with assigned columns and no where-params gets `AND id=$n` with no WHERE |
| LegacyCrudProperties.UpdateAgrees | internal/pgxgen/crud.go:247-254 | With where-params, or no assigned column, the as-written and corrected updates agree |
| LegacyCrudProperties.KeyedMarks | internal/pgxgen/crud.go:261-307 | Delete and get queries number the where-params from $1 and the id last, chained |
| LegacyCrudProperties.DeleteGetMarks | internal/pgxgen/crud.go:261-307 | Delete and get queries are numbered in order and chained |
| LegacyCrudProperties.FindMarks | internal/pgxgen/crud.go:309-328 | A find query is numbered in order, LIMIT and OFFSET last, and chained |
| LegacyCrudProperties.TotalMarks | internal/pgxgen/crud.go:330-344 | A count query is numbered in order and chained |
| LegacyCrudProperties.TableQueriesSucceed | internal/pgxgen/crud.go:72-89 | The six queries of a table succeed exactly when both where-param lists name columns only |
| LegacyCrudProperties.AllQueriesSucceed | internal/pgxgen/crud.go:71-90 | The generator succeeds exactly when every table's settings name its columns only |
| LegacyCrudProperties.ColumnsOfRows | internal/pgxgen/crud.go:152-164 | A column is listed for a table exactly when a row names both |
| LegacyCrudProperties.GroupedColumns | internal/pgxgen/crud.go:152-164 | A table is grouped exactly when it is not skipped and some row names it, with exactly its rows' columns |
| Constants.Blank | internal/goconstatnts/params.go:39-40 | Every character of the class `[\_\-0-9]` becomes a space and every other character is kept, so the length is unchanged |
| Constants.PrefixNoSeparator | internal/goconstatnts/params.go:39-42 | A constant-name prefix is one identifier: no space, '-' or '_' is left in it |
| Constants.HasTable | internal/goconstatnts/params.go:36-38 | The search finds a table exactly when some listed table has that name |
| Constants.InsertTable | internal/goconstatnts/params.go:64-66 | Inserting into a list sorted by prefix keeps it sorted and adds exactly that table |
| Constants.SortTables | internal/goconstatnts/params.go:64-66 | The tables end sorted by prefix and are a permutation of the tables before |
| Constants.ColumnItems | internal/goconstatnts/params.go:49-60 | One column constant per column, in the given order, each naming the table and the column |
| Constants.PrefixedPermutation | internal/goconstatnts/params.go:64-66 | Sorting keeps every table's prefix the one derived from its name |
| Constants.HasItem | internal/goconstatnts/params.go:36-38 | A table that is in the list is found by the name search |
| Constants.ResortedValid | internal/goconstatnts/params.go:36-38 | Re-registering a known table keeps the entry valid and lists the table once |
| Constants.GrownValid | internal/goconstatnts/params.go:36-47 | Registering a new table keeps the tables distinct and sorted, and lists it once |
| Constants.AddedValid | internal/goconstatnts/params.go:18-71 | addConstantItem keeps the entry valid, and afterwards the table is listed exactly once |
| Constants.DistinctNames | internal/goconstatnts/params.go:36-47 | No two tables of a valid entry share a name |
| Constants.AddAgain | internal/goconstatnts/params.go:36-38 | A table already registered adds no table and no column constant, and the package and version are kept |
| Constants.NoColumnsAdded | internal/crud/gen_constants.go:22-61 | The column-less registry never adds a column constant |
| Constants.AllValidUpdate | internal/goconstatnts/params.go:68 | Replacing one entry by a valid one keeps every entry valid |
| Constants.Registry.constructor | internal/goconstatnts/params.go:19-21 | A new registry is empty and valid |
| Constants.Registry.AppendColumns | internal/goconstatnts/params.go:50-60 | The loop appends the column constants of the new table in column order |
| Constants.Registry.AddToEntry | internal/goconstatnts/params.go:28-66 | A known table only re-sorts the tables; a new one is appended with its column constants, then the tables are sorted |
| Constants.Registry.AddConstantItem | internal/goconstatnts/params.go:18-71 | A failed package lookup changes nothing and is wrapped; otherwise only the entry of the directory is replaced, by the added entry, and the registry stays valid |
| SqlcRewrites.ReplaceStructTypes | internal/sqlc/sqlc.go:152-159 | The loop applies one ReplaceAll per entry of the types table, in the map's visiting order |
| SqlcRewrites.LegacyReplaceStructTypes | internal/sqlc/replace.go:54-60 | The same loop over the older table (no pgtype.Numeric), and the error is always nil |
| SqlcRewrites.KeysShaped | internal/sqlc/types.go:3-15 | Every key of the tables has no '*' and begins "sq" or "pg" |
| SqlcRewrites.PointersShaped | internal/sqlc/types.go:3-15 | Every replacement is a pointer type with no 'p', no 'q' and no final 's' |
| SqlcRewrites.NullableKeys | internal/sqlc/types.go:3-15 | The keys of the table are exactly sqlc's nine nullable wrappers |
| SqlcRewrites.NullableValues | internal/sqlc/types.go:3-15 | Every wrapper becomes one of the eight pointer types |
| SqlcRewrites.NullableTableShaped | internal/sqlc/types.go:3-15 | The table of sqlc.go is well shaped: keys and pointer types as above |
| SqlcRewrites.LegacyTableShaped | internal/sqlc/replace.go:18-27 | The table of replace.go is well shaped too |
| SqlcRewrites.PointerApart | internal/sqlc/types.go:3-15 | An inserted pointer type can neither hold a key nor complete one with the text around it |
| SqlcRewrites.SubstitutedFree | internal/sqlc/sqlc.go:154-156 | A key the loop visits, or one absent before, is absent afterwards, whatever the visiting order |
| SqlcRewrites.NullableTypesGone | internal/sqlc/sqlc.go:152-159 | After replaceStructTypes no sqlc nullable wrapper is left in the file, in any visiting order |
| SqlcRewrites.LegacyNullableTypesGone | internal/sqlc/replace.go:54-60 | After the older replaceStructTypes none of its wrappers is left |
| SqlcRewrites.ReplaceJsonTags | internal/sqlc/sqlc.go:161-172 | The loops give the omitempty rewrite of every listed field, then the hiding rewrite |
| SqlcRewrites.TagMarks | internal/sqlc/sqlc.go:164 | In a json tag the colon sits at index 4 and the quotes at 5 and the end only |
| SqlcRewrites.TagOffset | internal/sqlc/sqlc.go:164 | A tag can meet another tag only at its start, and then they are equal |
| SqlcRewrites.TagsApart | internal/sqlc/sqlc.go:164-168 | Two distinct tags stay apart under a pass that writes one in place of the other |
| SqlcRewrites.TagShape | internal/sqlc/sqlc.go:164-168 | The plain, omitempty and hidden tags of a word-character field are all tag-shaped |
| SqlcRewrites.TagsDiffer | internal/sqlc/sqlc.go:164-168 | The omitempty and hidden tags never equal a plain tag |
| SqlcRewrites.OmittedFree | internal/sqlc/sqlc.go:163-165 | After the omitempty loop no plain tag of a listed field is left, nor one absent before |
| SqlcRewrites.HiddenFree | internal/sqlc/sqlc.go:167-169 | After the hiding loop no plain tag of a listed field is left, nor one absent before |
| SqlcRewrites.JsonTagsGone | internal/sqlc/sqlc.go:161-172 | replaceJsonTags leaves no plain tag of any field it was configured with |
| SqlcRewrites.HiddenSkips | internal/sqlc/sqlc.go:163-169 | Hiding skips every field whose plain tag the omitempty loop already rewrote |
| SqlcRewrites.BothKeepsOmitempty | internal/sqlc/sqlc.go:161-172 | A field both made omitempty and hidden keeps its omitempty tag: the hiding loop no longer finds it |
| SqlcRewrites.PackageNameFor | internal/sqlc/movemodels.go:21-29 | The configured package name wins; otherwise the last '/'-piece of the directory, which holds no '/' and ends the directory |
| SqlcRewrites.RewrittenStep | internal/sqlc/movemodels.go:33-47 | Reading one more line grows the result by that line, rewritten |
| SqlcRewrites.RewritePackageLines | internal/sqlc/movemodels.go:31-49 | The reader loop gives the rewrite of every complete line |
| SqlcRewrites.MovePackageName | internal/sqlc/movemodels.go:16-50 | Without an output directory the text is kept; otherwise every line is rewritten with the derived package name |
| SqlcRewrites.ReplacePackageName | internal/sqlc/replace.go:63-93 | No directory guard: every line is rewritten with the derived package name, and no error is reported on a string |
| SqlcRewrites.NoPackageLineRest | internal/sqlc/movemodels.go:42 | The text after a line of a package-free text is package-free |
| SqlcRewrites.RewrittenKeepsPlain | internal/sqlc/movemodels.go:42-46 | A newline-terminated text without a package clause comes back unchanged |
| SqlcRewrites.RewrittenDropsTail | internal/sqlc/movemodels.go:34-38 | Text after the last newline is lost, because the reader stops at EOF before adding it |
| SqlcRewrites.PackageLineJoinsNext | internal/sqlc/movemodels.go:42-43 | A package clause becomes "package <name>" without its newline |
| SqlcRewrites.LegacyEmptyPackage | internal/sqlc/replace.go:64-72 | Without a directory and a name the clause becomes a bare "package " |
| SqlcRewrites.NewImports | internal/sqlc/movemodels.go:114-117 | The new imports are one block: they open with "import(" and a newline and close with a newline and ")" |
| SqlcRewrites.NewImportsLines | internal/sqlc/movemodels.go:114-117 | The new import block holds the existing imports, then the dot-import of the models package, one per line |
| SqlcRewrites.MoveImports | internal/sqlc/movemodels.go:52-112 | No directory keeps the text; a missing package path is an error; an unreferencing file is kept; otherwise the (corrected) import rewrite |
| SqlcRewrites.ImportsResult | internal/sqlc/movemodels.go:86-109 | (as written) the block form wins, then the single form, and with neither the result is empty |
| SqlcRewrites.ImportsKept | internal/sqlc/movemodels.go:86-109 | (corrected) the block form wins, then the single form, and with neither the text is kept |
| SqlcRewrites.ImportsBlanked | internal/sqlc/movemodels.go:52-111 | As written, a referencing file with no import statement comes back empty; with some import form both versions agree |
| SqlcRewrites.LegacyReplaceImportsAsWritten | internal/sqlc/replace.go:95-147 | As written: an unreferencing file is kept; the block form wins, then the single form; a referencing file with neither comes back empty |
| SqlcRewrites.LegacyReplaceImports | internal/sqlc/replace.go:95-147 | (corrected) The same, except that a referencing file with no import form is kept |
| SqlcRewrites.LegacyImportsBlanked | internal/sqlc/replace.go:121-146 | As written a referencing file without imports is emptied, corrected it is kept, and the two agree on every other input |
| SqlcRewrites.ImportVersionsAgree | internal/sqlc/replace.go:95-147 | With a directory and package path configured, both versions of replaceImports agree |
| SqlcRewrites.CheckVersion | internal/sqlc/sqlc.go:51-53 | Only sqlc configuration versions 1 and 2 are accepted; another is reported with its number |
| Rewriting.FreeUnchanged | internal/sqlc/sqlc.go:155 | ReplaceAll of a pattern that does not occur leaves the text unchanged |
| Rewriting.KeepsFree | internal/sqlc/sqlc.go:154-156 | A pass that writes a replacement apart from a key cannot create that key |
| SqlFormatter.SubqueryLevel | internal/sqlformatter/process.go:121-123 | The level moves up by the number of '(' and down by the number of ')' in the piece |
| SqlFormatter.RemovedLength | internal/sqlformatter/process.go:122 | Removing every copy of a character shortens the text by its count, which is what the length difference measures |
| SqlFormatter.SubqueryLevelConcat | internal/sqlformatter/process.go:121-123 | Two pieces in a row move the level by the sum of their moves |
| SqlFormatter.RepeatLength | internal/sqlformatter/process.go:108 | Repeating a tab n times gives n times its length |
| SqlFormatter.CreateShiftArr | internal/sqlformatter/process.go:105-111 | A hundred shifts, the i-th a line break followed by i tabs |
| SqlFormatter.ShiftLength | internal/sqlformatter/process.go:105-111 | The i-th shift is 1 + i·|tab| long, so deeper shifts are longer |
| SqlFormatter.GenArray | internal/sqlformatter/process.go:113-119 | The pieces are every quote-split part in order, the even ones split and the odd ones kept |
| SqlFormatter.QuotedKept | internal/sqlformatter/process.go:178-184 | A quoted literal (an odd part) reaches the pieces unchanged |
| SqlFormatter.SpreadUnsplit | internal/sqlformatter/process.go:113-119 | With a splitter that splits nothing, the pieces are the parts themselves |
| SqlFormatter.RunOf | internal/sqlformatter/process.go:62 | The length of the leading run: every character in it matches, the one after does not |
| SqlFormatter.AsWrittenKeepsQueries | internal/sqlformatter/process.go:61-63 | As written, the pattern needs a literal backslash, so a text without one is left alone |
| SqlFormatter.NonSpace | internal/sqlformatter/process.go:62 | The text with its whitespace left out holds no whitespace |
| SqlFormatter.CommaBreakOnlySpace | internal/sqlformatter/process.go:62 | (corrected) the comma rule changes whitespace only, as long as the tab is whitespace |
| SqlFormatter.CommaBreakAtComma | internal/sqlformatter/process.go:62 | (corrected) a comma followed by whitespace becomes the comma, a line break and two tabs |
| SqlFormatter.CommaBreakAsWrittenExample | internal/sqlformatter/process.go:61-63 | As written, "a, b" stays on one line |
| SqlFormatter.CommaBreakExample | internal/sqlformatter/process.go:61-63 | (corrected) "a, b" breaks after the comma |
| SqlFormatter.UpdateStr | internal/sqlformatter/process.go:76-96 | A piece opening a subquery is written behind the shift one deeper than the depth and deepens it; a quote-free piece behind the current shift; a piece with a quote directly; outside a subquery the depth drops by one exactly when the parentheses have closed and the depth is not zero |
| SqlFormatter.UpdateStrIndents | internal/sqlformatter/process.go:76-96 | With the shifts createShiftArr builds, the inserted shift is a newline and depth+1 tabs for a subquery, depth tabs for another quote-free piece |
| SqlFormatter.GenOutput | internal/sqlformatter/process.go:56-74 | (corrected) Only the i-th piece is retouched with the comma break; the shifts and tab are kept, the level is moved by the piece's parentheses, and the text and depth are updateStr's answer for the retouched piece |
| SqlFormatter.GenOutputIndents | internal/sqlformatter/process.go:56-96 | One step writes the retouched piece on a new line indented by depth+1 tabs (subquery) or depth tabs, or continues the line for a quoted piece |
| SqlFormatter.TransformString | internal/sqlformatter/process.go:98-103 | The loop applies the functions left to right |
| SqlFormatter.ApplyAllConcat | internal/sqlformatter/process.go:98-103 | Applying one list of functions then another is applying their concatenation; no functions, no change |
| SqlcTypes.DataType | pkg/sqlc/codegen/sdk/sdk.go:8-14 | A bare name is itself; a qualified one is the schema, a dot and the name |
| SqlcTypes.ParseIdentifierString | pkg/sqlc/codegen/golang/postgresql_type.go:13-34 | Parsing succeeds exactly when the name has at most two dots; the parts hold no dot; a name with fewer than two dots has no catalog and one with none is the name itself |
| SqlcTypes.DataTypeOfParsed | pkg/sqlc/codegen/golang/postgresql_type.go:13-24 | Rendering a parsed bare or schema-qualified name gives the name back |
| SqlcTypes.ParsedDataType | pkg/sqlc/codegen/sdk/sdk.go:8-14 | Parsing a rendered schema-qualified identifier gives it back |
| SqlcTypes.SameTableName | pkg/sqlc/codegen/sdk/sdk.go:24-34 | No table matches nothing; otherwise a match holds exactly when the table, its empty schema filled with the default, equals the identifier |
| SqlcTypes.EmptySchemaIsDefault | pkg/sqlc/codegen/sdk/sdk.go:28-31 | A table without a schema compares as one in the default schema |
| SqlcTypes.SameTableNameReflexive | pkg/sqlc/codegen/sdk/sdk.go:24-34 | A table with a schema matches itself |
| SqlcTypes.EnumTypeNameShape | pkg/sqlc/codegen/golang/postgresql_type.go:543-553 | An enum's Go type name is exported, and starts with "Null" when the column is nullable |
| SqlcTypes.PgUserType | pkg/sqlc/codegen/golang/postgresql_type.go:536-567 | Found exactly when a non-system schema holds an enum or composite type of that name; the result is the enum's type name or the composite's string type |
| SqlcTypes.Qualified | pkg/sqlc/codegen/golang/postgresql_type.go:532-534 | A name without a schema is placed in the default schema; the rest is kept |
| SqlcTypes.UserDefinedShape | pkg/sqlc/codegen/golang/postgresql_type.go:526-574 | A user-defined type is interface{}, an exported enum type name or a composite's string type |
| SqlcTypes.FamilyPointerOnly | pkg/sqlc/codegen/golang/postgresql_type.go:42-524 | A pointer type is only for a nullable column, with pointers for null types on, or pgx v5 inet and cidr |
| SqlcTypes.FamilyPgtypeOnlyPgx | pkg/sqlc/codegen/golang/postgresql_type.go:42-524 | A pgtype type is only chosen for a pgx driver |
| SqlcTypes.FamilySqlNullOnlyNullable | pkg/sqlc/codegen/golang/postgresql_type.go:42-524 | A sql.Null or pqtype.Null wrapper is only chosen for a nullable column |
| SqlcTypes.FamilyNonEmpty | pkg/sqlc/codegen/golang/postgresql_type.go:42-574 | Every family gives a non-empty Go type |
| SqlcTypes.PgPointerOnly | pkg/sqlc/codegen/golang/postgresql_type.go:36-575 | postgresType returns a pointer only for a nullable non-array column, with pgx v4 and pointers for null types, or pgx v5 inet and cidr |
| SqlcTypes.PgtypeOnlyPgx | pkg/sqlc/codegen/golang/postgresql_type.go:36-575 | postgresType returns a pgtype type only for a pgx driver |
| SqlcTypes.SqlNullOnlyNullable | pkg/sqlc/codegen/golang/postgresql_type.go:36-575 | postgresType returns a sql.Null or pqtype.Null wrapper only for a nullable non-array column |
| SqlcTypes.PostgresType | pkg/sqlc/codegen/golang/postgresql_type.go:36-575 | With exported struct names, postgresType never returns the empty string |
| SqlcTypes.PgUnknownIsInterface | pkg/sqlc/codegen/golang/postgresql_type.go:526-574 | A type outside the built-in list is interface{} exactly when no schema knows it |
| SqlcTypes.PgEnumType | pkg/sqlc/codegen/golang/postgresql_type.go:541-553 | A known enum column maps to the enum's type name in its (default-filled) schema |
| SqlcTypes.MysqlEnumType | pkg/sqlc/codegen/golang/mysql_type.go:100-116 | Found exactly when some schema holds an enum of that name; the first such schema decides the name |
| SqlcTypes.MyFamilySqlNull | pkg/sqlc/codegen/golang/mysql_type.go:17-98 | A sql.Null type is chosen exactly for a nullable column of a family that distinguishes null |
| SqlcTypes.MyFamilyUnsigned | pkg/sqlc/codegen/golang/mysql_type.go:25-57 | An unsigned type only for an unsigned non-null integer column |
| SqlcTypes.MyUserShape | pkg/sqlc/codegen/golang/mysql_type.go:100-116 | A MySQL enum type name is exported and never interface{} |
| SqlcTypes.FirstHolder | pkg/sqlc/codegen/golang/mysql_type.go:100-102 | The first schema holding the enum, no later than any given holder |
| SqlcTypes.MysqlType | pkg/sqlc/codegen/golang/mysql_type.go:12-123 | With exported struct names, mysqlType never returns the empty string |
| SqlcTypes.MyFamilyNonEmpty | pkg/sqlc/codegen/golang/mysql_type.go:17-120 | Every case gives a non-empty Go type when the default case does |
| SqlcTypes.MysqlSqlNull | pkg/sqlc/codegen/golang/mysql_type.go:12-123 | mysqlType returns sql.Null exactly for a nullable non-array column of a null-distinguishing family |
| SqlcTypes.MysqlUnsigned | pkg/sqlc/codegen/golang/mysql_type.go:12-123 | An unsigned type only for an unsigned non-null integer column; for a nullable column the unsigned flag makes no difference |
| SqlcTypes.MysqlUnknownIsInterface | pkg/sqlc/codegen/golang/mysql_type.go:99-120 | An unknown MySQL type is interface{} exactly when no schema has an enum of that name |
| SqlcTypes.MysqlEnumFirst | pkg/sqlc/codegen/golang/mysql_type.go:100-114 | The first schema holding the enum names the type |
| SqlcTypes.MysqlTinyIntOneIsBool | pkg/sqlc/codegen/golang/mysql_type.go:25-31 | A tinyint(1) column maps exactly as a bool column |
| SqlAst.IsParamFunc | pkg/sqlc/sql/named/is.go:9-21 | Only a call with a named function in the sqlc schema can be a parameter function |
| SqlAst.IsParamSign | pkg/sqlc/sql/named/is.go:23-26 | Only an operator expression can be a parameter sign, and the one-part name "@" is one |
| SqlAst.ParamFuncNeedsSchema | pkg/sqlc/sql/named/is.go:19-20 | arg, narg and slice name a parameter exactly with the sqlc schema |
| SqlAst.ParamSignIsAt | pkg/sqlc/sql/named/is.go:23-26 | An operator expression is a parameter sign exactly when its name is the one part "@" |
| SqlAst.ParamKindsDisjoint | pkg/sqlc/sql/named/is.go:9-26 | No node is both a parameter function and a parameter sign |
| SqlAst.PgTemp | pkg/sqlc/engine/postgresql/pg_temp.go:8-10 | The temporary schema is named pg_temp and declares nothing |
| SqlAst.MakeTypeName | pkg/sqlc/engine/postgresql/pg_temp.go:12-14 | The type reference carries the given name |
| SqlAst.ArgN | pkg/sqlc/engine/postgresql/pg_temp.go:16-28 | The function keeps its name, returns any, and has max(n, 0) arguments, each of type any |

## Left out

- File and directory I/O (reading model files, `os.ReadDir`, writing outputs, moving files), template execution, `imports.Process` and `gofmt`: the model starts from the text read and ends with the text or data that would be written.
- The database connection and the column query of both CRUD generators: the table metadata is a parameter (`Crud.Process`, `LegacyCrud.GenerateCrud`, `LegacyCrud.GroupRows` takes the rows).
- Running sqlc itself, and the Go packages it calls (`imports`, `go/parser`): the parsed Go AST is an inductive datatype, and sqlc's `StructName` is a function parameter.
- Regular expressions that are not simple character tests (the include/exclude struct patterns, the struct and field line patterns of the older readers, the import patterns of `replaceImports`, `splitSql` and `allReplacements` of the formatter) are function parameters, or their outcomes (`referenced`, `single`, `block`) are.
- `format()` of the SQL formatter (the regex replacement table and its `fmt.Println`): only its state machine (`genOutput`, `updateStr`) and helpers are modelled.
- `sdk.MatchString`: the pattern package is not part of this model.
- `astutils.Join` is modelled over a name's string parts only; the AST list type is not modelled.
- The driver names of `parseDriver` are an enumeration (`Driver`); driver.go is not part of this model.
- `MethodType.String` and `engineType.String` are type conversions to string and are modelled as the string itself.
- `log.Fatal`, `log.Fatalf` and panics are modelled as an `Err` (or `None`) outcome, except the formatter's shift-index panic below; debug logging (`debug.Active`, `fmt.Println("undefined type")`) is left out.
- Reading from a string with `bufio.Reader` never fails, so the read-error branches of `replacePackageName` are not modelled.
- The `len(outputDirPath) == 0` guards in internal/sqlc cannot be taken, because `strings.Split` never returns an empty slice; they are not modelled.
- Aliasing of `*StructField` and `*StructParameters` pointers: the catalog holds values. The k names of one field declaration are modelled by their outcome: k copies, all carrying the last name.
- Go's nil maps are modelled only where writing into one panics (the tag maps of fields); elsewhere a nil map reads as empty.
- TypeExpr.ParseTypeExpr: `ast.IsExported` is decided over ASCII only (a first character 'A' to 'Z'); Go's `unicode.IsUpper` also counts non-ASCII capitals, so an identifier such as `Äpfel` is exported in Go and not in the model.
- Keystone.ExistFieldId: the field name is lower-cased over ASCII only ('A' to 'Z'); Go's `strings.ToLower` also lower-cases non-ASCII letters, so a field `Ärger` matches "ärger" in Go and not in the model. internal/gomodels/keystone.go:54-67 is modelled by the same member.
- SqlFormatter.UpdateStr: the index panic of `acc.shiftArr[acc.deep+1]` and `acc.shiftArr[acc.deep]` (process.go:78,85), reached once subqueries nest 99 deep with the hundred shifts createShiftArr builds, is excluded by the precondition `ShiftFits` rather than modelled as an outcome.
- SqlFormatter.GenOutput: carries the same `ShiftFits` precondition for its retouched piece, so the same panic is excluded rather than modelled.
- stringy's `CamelCase` and `UcFirst` and `cases.Title` are ASCII simplifications: words split at space, '-' and '_', the first letter of each upper-cased.
- Constants.Registry.AddToEntry and Constants.Registry.AddConstantItem pin one order of the tables: the stable insertion order of `SortTables`, sorted by prefix with tables of equal prefix (`user_1` and `user_2`) kept in their earlier order. Go's `sort.Slice` is not stable; it agrees with this order for at most 12 tables, and beyond that may order tables of equal prefix differently. That the tables are sorted by prefix and a permutation holds in both.
- SqlAst.ArgN: Go's nil slice for n <= 0 is modelled as the empty sequence.
- SqlcRewrites.ReplaceStructTypes: the result is stated for the visiting order given. That every order gives the same text is not proved; that no nullable wrapper is left, in every order, is (`NullableTypesGone`).
- SqlcRewrites.JsonTagsGone: proved only for field names made of word characters, which is what sqlc writes into json tags.
- Config.GetModelsOutputDir: requires a non-empty directory, because the source indexes its last byte and panics on an empty one.

## Findings

| source | as written | input that shows it | evidently intended | confidence | as-written member | corrected member |
|---|---|---|---|---|---|---|
| internal/structs/parser.go:74 | the key of a map type is parsed from the map's value expression | `map[string]int` prints as `map[int]int` | the key parsed from the key expression | not executed | TypeExpr.MapKeyFromValueAsWritten | TypeExpr.MapRendersKeyAndValue |
| internal/structs/structs.go:297-304 | a field whose type classifies to nil (interface, func) is dereferenced | a struct field `Data interface{}` | the field is skipped | not executed | Structs.InterfaceFieldAsWritten | Structs.DeclEntriesShape |
| internal/pgxgen/crud.go:247-254 | WHERE is written before the id predicate only while the counter is 1 | a table with an assigned column and no where-params gives `SET "a"=$1 AND id=$2` | WHERE exactly when no where-param was written | not executed | LegacyCrudProperties.UpdateAsWrittenUnchained | LegacyCrudProperties.UpdateMarks |
| internal/crud/crud.go:387-390 | an unnamed total query takes the delete method's default name | table `users` with delete and total: both named `DeleteUser` | the total method's own name, `TotalUsers` | not executed | Crud.TotalNameCollides | Crud.TotalNameDistinct |
| internal/keystone/keystone.go:219 | an unset sort setting splits into `[""]` | sort setting `""` fails with undefined struct `""` | no priority names, alphabetical order | not executed | Keystone.UnsetSortFails | Keystone.UnsetSortKeepsOrder |
| internal/pgxgen/keystone.go:88-97 | the same split in the older generator | sort setting `""` fails with undefined struct `""` | no priority names | not executed | LegacyKeystone.UnsetSortFails | Keystone.SortNames |
| internal/structs/structs.go:426-432 | a pointer field reports its type with the `*` | a field of type `*B` reports `*B`, which names no struct, and the fill fails | report `B` | not executed | Structs.PointerFieldAsWritten | Structs.NestedStructs |
| internal/gomodels/gomodels.go:335-336 | the package name is the last '/'-piece of the directory as given | output directory `db/models/` gives package name `""` | `models` | not executed | GoModels.TrailingSlashPackage | GoModels.PackageName |
| internal/pgxgen/models.go:313-315 | the trailing-slash trim assigns the directory to itself | output directory `db/models/` gives package name `""` | `db/models` and `models` | not executed | LegacyModels.LegacyTrailingSlash | LegacyModels.LegacyTarget |
| internal/crud/crud.go:422-424 | find and total write ` WHERE ` before every where-param | find with where-params `a` and `b` gives `WHERE "a" = $1 WHERE "b" = $2` | WHERE first, then AND | not executed | CrudProperties.FindWhereAsWrittenUnchained | CrudProperties.FindWhereChained |
| internal/sqlformatter/process.go:62 | the raw pattern `,\\s+` needs a literal backslash after the comma | `SELECT a, b` is not broken after the comma | break after every comma followed by whitespace | not executed | SqlFormatter.CommaBreakAsWrittenExample | SqlFormatter.CommaBreakOnlySpace |
| internal/sqlc/movemodels.go:86-111 | the named result starts empty and only an import match sets it | a file that references a model but has no import statement comes back empty | the text is kept | not executed | SqlcRewrites.ImportsBlanked | SqlcRewrites.ImportsKept |
| internal/sqlc/replace.go:121-146 | the same named result in the older replaceImports | a file that references a model but has no import statement comes back empty | the text is kept | not executed | SqlcRewrites.LegacyImportsBlanked | SqlcRewrites.LegacyReplaceImports |
