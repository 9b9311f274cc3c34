# Schema generator for Laravel: a Dafny model

This project models the code-generating core of a Laravel package. The package stores a database
schema description as an Eloquent model, `SchemaGenerator`, and generates from it:

- the `Schema::create` block of a migration file;
- an Eloquent model class, with its `$fillable`, `$guarded` and `$casts` arrays and its relationship
  methods.

It also models three other parts:

- the computing parts of the Filament admin resource: the summary of the fields in the records
  table, the label of a relationship entry, and the form callbacks;
- the `schema:generate` console command's parsing of `--fields` and how it resolves its options;
- PHP's loose `in_array`, which the casts decision at line 440 goes through. The model document follows it as written; a strict, corrected casts block is stated beside it (see Findings).

Laravel's inflector (`Str::plural`, `singular`, `studly`, `snake`, `camel`) is an uninterpreted
parameter (`Php.Inflector`). So every property proved here holds for any inflection rules.

Modules, one per part of the program:

| module | file | what it models |
|---|---|---|
| `Php` | php.dfy | PHP built-ins (`empty`, `?:`, `strtolower`, `explode`/`implode`, `trim`, `Str::contains`, the `_id` suffix strip), stated over `seq<char>` |
| `TypeMap` | typemap.dfy | `mapDatabaseTypeToPhpType` |
| `Columns` | columns.dfy | `buildSchemaCode`: one column statement, plus an optional foreign-key statement, per field row |
| `Migration` | migration.dfy | the migration name, the `Schema::create` replacement, and the search for the new migration file |
| `Relationships` | relationships.dfy | `generateRelationshipMethods` |
| `Options` | options.dfy | PHP arrays with `array_merge`, the option merge of `generateModel`, and loose versus strict `in_array` |
| `ModelDoc` | modeldoc.dfy | the record, the name accessors and mutators, the `creating` hook, and the generated model file as a function of the record |
| `Generator` | generator.dfy | `class SchemaGenerator`: the mutators, the hook, `generateMigration` and `generateModel` as methods that update `attributes` |
| `Resource` | resource.dfy | the Filament resource's summary formatter, item label and form callbacks |
| `Command` | command.dfy | the console command's `--fields` parser and option resolution |

The methods follow the source's loops and appends. Each method is proved equal to a specification
function. The lemmas state what that function means.

## Model

| member | source | states |
|---|---|---|
| TypeMap.MapDatabaseTypeToPhpType | src/Models/SchemaGenerator.php:529-569 | a cast exists exactly for the 34 listed column types, and it is one of the listed cast types |
| TypeMap.CastInverse | src/Models/SchemaGenerator.php:531-568 | a type maps to a cast exactly when it is listed under that cast (for example json gives array, decimal gives decimal) |
| Columns.LengthArgs | src/Models/SchemaGenerator.php:205-215 | a length is passed only for string, char, decimal, float and double with a non-empty length; a comma gives two arguments (precision, scale) only for decimal, float and double |
| Columns.ModifiersFollowFlags | src/Models/SchemaGenerator.php:218-236 | each modifier is present exactly when its flag is set, and the modifiers keep the order unsigned, nullable, autoIncrement, unique, index |
| Columns.SelectModifiersSound | src/Models/SchemaGenerator.php:218-236 | the selected modifiers are exactly the listed names whose flag is set, as a subsequence of the list |
| Columns.SeparateForeignKeyExactly | src/Models/SchemaGenerator.php:258-275 | a separate foreign-key statement exists exactly for a constraint on a non-foreignId type: `foreign('f')->references('id')->on(plural(strip_id(f)))`, then the cascades |
| Columns.ForeignText | src/Models/SchemaGenerator.php:260-272 | the text of that statement, with onDelete before onUpdate |
| Columns.ConstrainedExactly | src/Models/SchemaGenerator.php:239-286 | `->constrained()` appears exactly on foreignId, and then only when `singular(strip_id(f)) != f` (with a constraint) or some cascade is set (without one) |
| Columns.ConstrainedText | src/Models/SchemaGenerator.php:245-256 | `->constrained()` is followed by onDelete and then onUpdate, each when its flag is set |
| Columns.CascadeText | src/Models/SchemaGenerator.php:266-282 | the cascade suffixes: onDelete exactly when cascade is set, then onUpdate exactly when updateCascade is set |
| Columns.DefaultLiteralByType | src/Models/SchemaGenerator.php:291-301 | a boolean default is `true`/`false` by truthiness; an integer, float, double or decimal default is unquoted; any other default is single-quoted |
| Columns.DefaultComesLast | src/Models/SchemaGenerator.php:289-302 | the last call of the last statement is `default` exactly when a default is set and not `''`, and its literal follows the type |
| Columns.DefaultTextAtEnd | src/Models/SchemaGenerator.php:289-302 | when a default is set, the row's code ends with `->default(<literal>)` |
| Columns.SchemaCodeOfOneRow | src/Models/SchemaGenerator.php:196-199 | a row without field or type gives no text; any other row gives one indented statement, or two when a separate foreign-key statement follows, the last ending in `;\n` |
| Columns.SchemaCodeAppend | src/Models/SchemaGenerator.php:196-305 | the code for two row lists is the concatenation of their codes, so rows are rendered in input order and independently |
| Columns.RenderFieldCode | src/Models/SchemaGenerator.php:201-302 | the step-by-step appends give exactly the row's specified code |
| Columns.RenderHead | src/Models/SchemaGenerator.php:204-215 | the base call is `$table->type('field'[, args])` with the length arguments above |
| Columns.AppendModifiers | src/Models/SchemaGenerator.php:218-236 | the modifier appends add exactly the selected modifier calls |
| Columns.AppendConstraint | src/Models/SchemaGenerator.php:238-286 | the constraint branches append exactly the specified constraint text |
| Columns.AppendDefault | src/Models/SchemaGenerator.php:288-302 | the default branches append exactly the specified default call |
| Columns.BuildSchemaCode | src/Models/SchemaGenerator.php:192-308 | the loop returns the schema code of all rows |
| Migration.MigrationName | src/Models/SchemaGenerator.php:112-113 | the name is `create_` + plural(snake(table)) + `_table` |
| Migration.ReplacementIsCreateCall | src/Models/SchemaGenerator.php:124-127 | the replacement is a create call on the lower-cased plural table whose body is `$table->id();`, the field lines, then `$table->timestamps();` |
| Migration.Patch | src/Models/SchemaGenerator.php:124-128 | text outside the matched blocks is kept, and every matched block is replaced by the regenerated block |
| Migration.PatchIdempotent | src/Models/SchemaGenerator.php:124-128 | over the split into pieces, patching a patched file changes nothing |
| Migration.PatchForgetsOldBlock | src/Models/SchemaGenerator.php:124-128 | the result does not depend on the old table or body inside the block |
| Migration.PatchWithoutMatch | src/Models/SchemaGenerator.php:172-176 | a file with no create block is left as it is |
| Migration.PatchSingleBlock | src/Models/SchemaGenerator.php:172-176 | over the split into pieces, a file with one create block gets the replacement text between its old surroundings |
| Migration.SortNewestFirst | src/Models/SchemaGenerator.php:146-148 | sorting keeps exactly the files (a permutation) |
| Migration.SortIsNewestFirst | src/Models/SchemaGenerator.php:146-148 | the sorted list has non-increasing modification times |
| Migration.FirstMatch | src/Models/SchemaGenerator.php:151-157 | the first file whose name contains the needle, or none when no file matches |
| Migration.FindMigrationFile | src/Models/SchemaGenerator.php:151-157 | the loop with `break` returns that first match |
| Migration.LocateFindsNewestMatch | src/Models/SchemaGenerator.php:146-161 | the file found matches and is at least as new as every matching file; nothing is found only when no listed file matches |
| Relationships.ExtraParamsSound | src/Models/SchemaGenerator.php:669-676 | every extra parameter is a non-empty, trimmed line of `parameters` |
| Relationships.ExtraParamsComplete | src/Models/SchemaGenerator.php:669-676 | every line that is non-empty after trimming is kept |
| Relationships.RelParamsShape | src/Models/SchemaGenerator.php:655-678 | the parameters are `Related::class`, the quoted foreign key if non-empty, the quoted local key if non-empty, then the extra lines |
| Relationships.AppendRelMethodSkip | src/Models/SchemaGenerator.php:647-650 | an entry adds nothing exactly when its type, method name or related model is empty; otherwise it adds its method text |
| Relationships.RelationshipsCodeAppend | src/Models/SchemaGenerator.php:645-688 | entries are rendered in order and independently |
| Relationships.BuildParams | src/Models/SchemaGenerator.php:655-678 | the appends build exactly that parameter list |
| Relationships.CollectExtraParams | src/Models/SchemaGenerator.php:669-676 | the loop keeps exactly the extra parameters |
| Relationships.GenerateRelationshipMethods | src/Models/SchemaGenerator.php:640-691 | the loop returns the text of all non-skipped entries |
| Options.DirectOptionsShape | src/Models/SchemaGenerator.php:325-331 | the direct options are `name => true` entries, one per set flag, and there are none exactly when no flag is set |
| Options.FindDirect | src/Models/SchemaGenerator.php:328-331 | the key of a flag is present exactly when the flag is set |
| Options.CleanedIsDirect | src/Models/SchemaGenerator.php:334-336 | removing the old toggles leaves the direct options unchanged |
| Options.FlagsWinMerge | src/Models/SchemaGenerator.php:345-347 | after the merge, a set flag reads back `true`, whatever `model_options` held under that key |
| Options.MergedValuesOfList | src/Models/SchemaGenerator.php:345-347 | merging a list of `model_options` yields its values followed by the direct options' values |
| Options.CastsRequestedOnList | src/Models/SchemaGenerator.php:440 | with the strict comparison and list `model_options`, casts are requested exactly when the string `'casts'` is among them |
| Options.AnyFlagTurnsCastsOn | src/Models/SchemaGenerator.php:440 | as written (loose `in_array`), any set direct flag turns the casts block on |
| Options.CastsWithoutAsking | src/Models/SchemaGenerator.php:440 | the counterexample: no model options and only `factory` set turn casts on as written, but not with the strict check |
| Options.CorrectedIsStricter | src/Models/SchemaGenerator.php:440 | the strict check implies the written one |
| ModelDoc.ModelNameAttr | src/Models/SchemaGenerator.php:56-68 | the accessor returns the stored name when it is not empty, and the suggestion `studly(singular(table))` otherwise |
| ModelDoc.ModelNameStored | src/Models/SchemaGenerator.php:588-595 | `'?'` or an empty value stores the suggestion; any other value is stored unchanged |
| ModelDoc.CollectionNameStored | src/Models/SchemaGenerator.php:603-611 | `'?'` or an empty value stores `plural(lower(table))`; any other value is stored unchanged |
| ModelDoc.ModelNameRoundTrip | src/Models/SchemaGenerator.php:56-68 | reading the name back after setting it gives the value set, or the suggestion for a placeholder |
| ModelDoc.CreatingKeepsModelName | src/Models/SchemaGenerator.php:78-82 | the `creating` hook changes only the model name, and never the name the accessor reports |
| ModelDoc.SoftDeletesExactly | src/Models/SchemaGenerator.php:357-371 | the SoftDeletes import and trait are there exactly when soft deletes are on |
| ModelDoc.OptionalSectionsExactly | src/Models/SchemaGenerator.php:318-384 | `$table` is always `lower(plural(lower(table)))`; `$collection` is there exactly when the collection name, which defaults to the lower-cased table name, differs from `plural(lower(table))`; `$timestamps = false` is there exactly when timestamps are off |
| ModelDoc.FillableSectionExactly | src/Models/SchemaGenerator.php:387-409 | the fillable block is there exactly when fillable is on and fields exist; its items are the quoted selection, none for a selection that is not a list, or without a selection every field but `id` |
| ModelDoc.AllFieldsFillableExactly | src/Models/SchemaGenerator.php:400-404 | without a selection, an item is fillable exactly when a row names that field and it is not `id` |
| ModelDoc.IdNeverFillableByDefault | src/Models/SchemaGenerator.php:401 | `'id'` is never fillable by default |
| ModelDoc.GuardedSectionExactly | src/Models/SchemaGenerator.php:412-437 | with guarded on, a non-empty selection gives its quoted names as a sorted permutation; an unset or empty selection gives `protected $guarded = [];` |
| ModelDoc.GuardedSortedPermutation | src/Models/SchemaGenerator.php:424-429 | the guarded list is sorted and is a permutation of the quoted selection |
| ModelDoc.SortStrings | src/Models/SchemaGenerator.php:429 | `sort` keeps the multiset of items |
| ModelDoc.SortStringsSorted | src/Models/SchemaGenerator.php:429 | `sort` orders the items byte by byte |
| ModelDoc.CastsSectionExactly | src/Models/SchemaGenerator.php:440-456 | the casts block is there exactly when the loose `in_array('casts', $options)` holds on the merged options and some row names a field whose type has a cast; with an option list, that is when a direct flag is set or a chosen option loosely equals `'casts'` |
| ModelDoc.FactoryOnlyWritesCasts | src/Models/SchemaGenerator.php:328-456 | with no chosen options, only `factory` set and one `age:integer` row, the file gets `'age' => 'integer'` casts, which the corrected block leaves out |
| ModelDoc.CorrectedCastsSectionExactly | src/Models/SchemaGenerator.php:440-456 | with the strict test and an option list, the corrected casts block is there exactly when `'casts'` was chosen and some row maps, and it then equals the block written as the source is |
| Options.CastsRequestedAsWrittenOnList | src/Models/SchemaGenerator.php:440 | as written and with an option list, casts are requested exactly when a direct flag is set or a chosen option loosely equals `'casts'` |
| ModelDoc.CastItemsExactly | src/Models/SchemaGenerator.php:442-451 | each cast item is `'field' => 'cast'` for a row with a mapped type; unmapped types are skipped |
| ModelDoc.GenerateModelIdempotent | src/Models/SchemaGenerator.php:315-486 | generating again from the written-back record produces the same file, when the model name the accessor reports and the resolved collection name are neither `?` nor PHP-empty |
| ModelDoc.AfterGenerateStable | src/Models/SchemaGenerator.php:467-473 | writing back twice is the same as writing back once, when the model name the accessor reports and the resolved collection name are neither `?` nor PHP-empty |
| ModelDoc.NamesSurviveUpdate | src/Models/SchemaGenerator.php:467-473 | the write-back keeps every name that `generateModel` resolves, when the model name the accessor reports and the resolved collection name are neither `?` nor PHP-empty |
| Generator.MigrationCreatesNewest | src/Models/SchemaGenerator.php:136-184 | without a recorded file, the step fails exactly when no listed file matches; otherwise it patches the newest match and records its path |
| Generator.MigrationUpdateStable | src/Models/SchemaGenerator.php:115-134 | with a recorded file that exists, that file is patched, the record is unchanged, and patching again gives the same pieces |
| Generator.SchemaGenerator.constructor | src/Models/SchemaGenerator.php:10-51 | the object holds the given attributes |
| Generator.SchemaGenerator.SetModelName | src/Models/SchemaGenerator.php:588-595 | only `model_name` changes, to the stored value above |
| Generator.SchemaGenerator.SetCollectionName | src/Models/SchemaGenerator.php:603-611 | only `collection_name` changes, to the stored value above |
| Generator.SchemaGenerator.Creating | src/Models/SchemaGenerator.php:78-82 | the attributes become those of the `creating` hook |
| Generator.SchemaGenerator.GenerateMigration | src/Models/SchemaGenerator.php:106-185 | the result and the new attributes are those of the migration specification |
| Generator.SchemaGenerator.Update | src/Models/SchemaGenerator.php:467-473 | the five attributes are written through their mutators, and nothing else changes |
| Generator.SchemaGenerator.GenerateModel | src/Models/SchemaGenerator.php:315-486 | returns the model document of the old attributes and leaves the written-back record |
| Generator.RenderModel | src/Models/SchemaGenerator.php:349-464 | the appends build exactly the model document |
| Generator.BuildOptions | src/Models/SchemaGenerator.php:324-347 | the option code builds exactly the merged options |
| Generator.CollectFillable | src/Models/SchemaGenerator.php:388-405 | the loops build exactly the fillable items |
| Generator.CollectQuoted | src/Models/SchemaGenerator.php:422-426 | the loop quotes each selected name, in order |
| Generator.CollectCasts | src/Models/SchemaGenerator.php:441-451 | the loop builds exactly the cast items |
| Resource.FormatFields | src/Filament/Resources/SchemaGeneratorResource.php:335-389 | the summary is `''` for a state that is not an array; otherwise each row's summary, joined with `", "` |
| Resource.SummarizeItem | src/Filament/Resources/SchemaGeneratorResource.php:338-388 | one row's summary is `field (type)` plus the bracketed tags |
| Resource.FlagProps | src/Filament/Resources/SchemaGeneratorResource.php:341-371 | the flag checks collect exactly the set flags' tags, in order |
| Resource.FlagTagsAreFlags | src/Filament/Resources/SchemaGeneratorResource.php:341-371 | a flag tag is present exactly when its flag is set |
| Resource.TagPresentIffFlag | src/Filament/Resources/SchemaGeneratorResource.php:341-371 | each of U, I, UN, AI, N, FK, Cascade Delete and Cascade Update is in the summary exactly when its flag is set |
| Resource.DefaultTagLast | src/Filament/Resources/SchemaGeneratorResource.php:380-383 | `Default: v` appears exactly when the default is set and not `''`, and it is then the last tag |
| Resource.SummaryItemShape | src/Filament/Resources/SchemaGeneratorResource.php:374-387 | the type shows `(length)` exactly when the length is not empty; the ` [..]` suffix appears exactly when there is a tag |
| Resource.FormatAppend | src/Filament/Resources/SchemaGeneratorResource.php:338-389 | the summaries of two non-empty row lists join with one `", "` |
| Resource.ItemLabel | src/Filament/Resources/SchemaGeneratorResource.php:266-271 | the label is set exactly when type, method name and related model are all set |
| Resource.ItemLabelParts | src/Filament/Resources/SchemaGeneratorResource.php:266-271 | the label is `type`, a space, `method`, ` → `, `related` |
| Resource.ModelFlagsForm.UpdateFillable | src/Filament/Resources/SchemaGeneratorResource.php:164-169 | checking fillable clears guarded, unchecking leaves guarded as it was, and the two are never both on afterwards |
| Resource.ModelFlagsForm.UpdateGuarded | src/Filament/Resources/SchemaGeneratorResource.php:170-174 | checking guarded clears fillable, unchecking leaves fillable as it was, and the two are never both on afterwards |
| Resource.RelationshipItemForm.SelectRelatedModel | src/Filament/Resources/SchemaGeneratorResource.php:239-244 | a non-empty related model sets the method name to its lower-case form; an empty one leaves it unchanged |
| Resource.RelationshipItemForm.HydrateMethodName | src/Filament/Resources/SchemaGeneratorResource.php:253-257 | an empty method name with a non-empty related model is filled the same way; otherwise nothing changes |
| Resource.DerivedMethodNameStable | src/Filament/Resources/SchemaGeneratorResource.php:241-256 | the derived method name is not empty and already lower case, so deriving it again changes nothing |
| Command.SegmentEntry | src/Console/Commands/GenerateSchemaCommand.php:62-70 | a segment gives an entry exactly when it contains `:` |
| Command.FieldsOf | src/Console/Commands/GenerateSchemaCommand.php:58-59 | a missing or PHP-empty `--fields` gives no fields |
| Command.ParseFields | src/Console/Commands/GenerateSchemaCommand.php:57-72 | the loop returns the specified fields |
| Command.SegmentEntriesExactly | src/Console/Commands/GenerateSchemaCommand.php:60-71 | parsing succeeds exactly when every segment has a colon; it then gives one entry per segment, in order |
| Command.ParsedEntriesDefaults | src/Console/Commands/GenerateSchemaCommand.php:63-70 | every entry has a name and a type, nullable, unique and index off, and a null default |
| Command.FieldsRoundTrip | src/Console/Commands/GenerateSchemaCommand.php:60-70 | parsing `name:type,...` written from fields without separators gives those fields back, in order |
| Command.ResolveSchema | src/Console/Commands/GenerateSchemaCommand.php:52-88 | the method builds the specified record, or fails when the fields cannot be parsed |
| Command.ResolvedSchemaMeaning | src/Console/Commands/GenerateSchemaCommand.php:53-86 | the model name is `--model` when it is not empty and `studly(singular(table))` otherwise; controller is `--controller` or `--api`; `--timestamps` forces timestamps on |
| Command.ResolvedSchemaFails | src/Console/Commands/GenerateSchemaCommand.php:59-62 | the command fails exactly when some segment of a non-empty `--fields` lacks a colon; without `--fields` the record has no fields |

## Left out

- File I/O is not modelled: `File::get`, `put`, `files`, `exists`, `delete` and `makeDirectory`.
  The migration step gets as parameters whether the recorded file exists, its content, and the
  directory listing with names and modification times.
- `saveModelFile` and the `deleting` hook (src/Models/SchemaGenerator.php:85-98) only touch
  files, so they are left out.
- `Artisan::call('make:migration')` is a foreign call. Its effect is the listing passed in.
- `preg_replace` is not modelled as a regular expression. A migration file is a sequence of pieces:
  verbatim text and matched `Schema::create(...){...});` blocks. The match is given as that split,
  and the patch replaces every matched block.
- Migration.Patch, Migration.PatchSingleBlock, Migration.PatchIdempotent, Generator.MigrationUpdateStable: these hold over the given split
  into pieces, not over the file's text. Two effects of `preg_replace` are not captured. First, it expands
  `$n`, `${n}` and `\n` in the replacement, so a column default such as `'$1'` in the schema code is
  replaced by a captured group. Second, the lazy `(.*?)}\);` stops at the first `});`, so a default such
  as `'x});'` makes a second run match a shorter block. The properties assume the schema code holds
  neither.
- Migration.LocateFindsNewestMatch: does not state which of several equally new matches is found. The
  model's sort keeps listing order among equal modification times, as PHP 8's `usort` does, but no lemma
  states that tie rule.
- Eloquent persistence (`update`, `save`, JSON attribute casting) becomes assignment to the
  `attributes` record. Attributes that are not arrays (`schema_definition`, `model_relationships`,
  `model_options`) are not represented. A null `table_name` is represented as `""`.
  The model assumes a saved record: Eloquent's `update` on a record that does not exist yet writes
  nothing and returns false, while `Generator.SchemaGenerator.Update` always writes the five attributes.
- Resource.SummarizeItem, Resource.FormatFields: a row whose `field` or `type` key is absent is
  rendered from empty text here (`"a ()"` for `["field" => "a"]`). In the source, lines 375 and 387 read
  those keys without `isset`, so the missing key raises a warning that Laravel turns into an exception.
  The model does not tell an absent key from a null value, which does print as empty text.
- `Str::plural`, `singular`, `studly`, `snake` and `camel` are uninterpreted functions.
- `filter_var(FILTER_VALIDATE_BOOLEAN)` is a predicate: after stripping space, tab, newline, carriage
  return and vertical tab, the lower-cased text is `1`, `true`, `on` or `yes`.
- `generateFactory` is an empty stub and is left out. So is the `in_array('factory', $options)` guard
  in front of it, which has the same loose comparison as the casts check.
- `SchemaService`, the model listing with `DirectoryIterator`, the Filament widget wiring, the page
  classes, the service provider, the install command and the routes are not part of this model.
- `$this->info` output and the generation calls after the record is created in the console command
  are not part of this model.
- ModelDoc.SortStrings: models PHP `sort` as a byte-wise sort of non-numeric strings. It does not
  claim PHP's order among equal or numeric strings.
- Command.SegmentEntry: a segment without `:` makes the destructuring read a missing array key. Under
  Laravel's error handler that warning becomes an exception, so it is modelled as a failed parse.
  A third part after a second `:` is ignored, as in the source.

## Findings

| source | as written | input that shows it | evidently intended | confidence | as-written member | corrected member |
|---|---|---|---|---|---|---|
| src/Models/SchemaGenerator.php:440 | `in_array('casts', $options)` compares loosely, and the direct flags are stored as `true`, and `'casts' == true` holds in PHP | `model_options` empty and `factory` set: the casts block is emitted although `'casts'` was never asked for | the casts block only when the value `'casts'` is among the options (strict comparison) | not executed | Options.CastsWithoutAsking | ModelDoc.CorrectedCastsSectionExactly |
