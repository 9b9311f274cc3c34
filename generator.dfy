/** The `SchemaGenerator` Eloquent model as an object: its attributes are
    fields, its mutators, `creating` hook, `generateModel` and
    `generateMigration` change them in place. The file system is given to the
    migration step as parameters (whether the recorded file exists, its
    content, and the listing of the migrations directory after
    `make:migration` ran). */
module Generator {
  import opened Php
  import opened TypeMap
  import opened Columns
  import opened Relationships
  import opened Options
  import opened Migration
  import opened ModelDoc

  /** What `generateMigration` returns: the path of the migration file it
      wrote and the content it wrote there, or the exception it throws. */
  datatype MigrationResult = Written(path: string, content: seq<Piece>) | Failed(message: string)

  const MigrationNotFound: string := "Failed to create migration file."

  /** Lines 105-185: patch the recorded migration when it still exists;
      otherwise look for the newest file whose name contains the snake-cased
      migration name, and patch that, or fail. */
  function MigrationSpec(r: SchemaRecord, inf: Inflector, fileExists: bool, existing: seq<Piece>,
                         listing: seq<MigrationFile>): MigrationResult
  {
    var t := Lower(r.tableName);
    var schema := SchemaCode(r.schemaDefinition, inf);
    if !IsEmptyString(r.migrationPath) && fileExists then
      Written(r.migrationPath, Patch(existing, CreateTable(t, inf), schema))
    else
      var sorted := SortNewestFirst(listing);
      var m := FirstMatch(sorted, inf.snake(MigrationName(t, inf), "_"));
      if m.None? then Failed(MigrationNotFound)
      else Written(sorted[m.value].pathname, Patch(sorted[m.value].content, CreateTable(t, inf), schema))
  }

  /** The record after `generateMigration`: only a freshly found migration
      file is recorded. */
  function AfterMigration(r: SchemaRecord, inf: Inflector, fileExists: bool, existing: seq<Piece>,
                          listing: seq<MigrationFile>): SchemaRecord
  {
    var res := MigrationSpec(r, inf, fileExists, existing, listing);
    if res.Written? && !(!IsEmptyString(r.migrationPath) && fileExists) then r.(migrationPath := res.path) else r
  }

  /** The migration step's outcome when the recorded file is gone: it fails
      exactly when no listed file matches, and otherwise writes to a listed
      file at least as new as every other matching file, and records it. */
  lemma MigrationCreatesNewest(r: SchemaRecord, inf: Inflector, existing: seq<Piece>, listing: seq<MigrationFile>, fileExists: bool)
    requires IsEmptyString(r.migrationPath) || !fileExists
    ensures var needle := inf.snake(MigrationName(Lower(r.tableName), inf), "_");
      var res := MigrationSpec(r, inf, fileExists, existing, listing);
      (res.Failed? <==> forall f :: f in listing ==> !StrContains(f.filename, needle)) &&
      (res.Written? ==>
        (exists f :: f in listing && f.pathname == res.path && StrContains(f.filename, needle) &&
          (forall g :: g in listing && StrContains(g.filename, needle) ==> g.mtime <= f.mtime) &&
          res.content == Patch(f.content, CreateTable(Lower(r.tableName), inf), SchemaCode(r.schemaDefinition, inf))) &&
        AfterMigration(r, inf, fileExists, existing, listing) == r.(migrationPath := res.path))
  {
    var needle := inf.snake(MigrationName(Lower(r.tableName), inf), "_");
    LocateFindsNewestMatch(listing, needle);
    var sorted := SortNewestFirst(listing);
    var m := FirstMatch(sorted, needle);
    if m.Some? {
      var f := sorted[m.value];
      assert f in listing && StrContains(f.filename, needle);
    }
  }

  /** Rewriting a recorded migration twice leaves the same content as doing
      it once, and keeps the record as it was. */
  lemma MigrationUpdateStable(r: SchemaRecord, inf: Inflector, existing: seq<Piece>, listing: seq<MigrationFile>)
    requires !IsEmptyString(r.migrationPath)
    ensures var res := MigrationSpec(r, inf, true, existing, listing);
      res.Written? && res.path == r.migrationPath &&
      MigrationSpec(r, inf, true, res.content, listing) == res &&
      AfterMigration(r, inf, true, existing, listing) == r
  {
    var t := Lower(r.tableName);
    PatchIdempotent(existing, CreateTable(t, inf), SchemaCode(r.schemaDefinition, inf));
  }

  /** The model instance; like an Eloquent model it keeps its attributes in
      one `attributes` value, which the mutators and `update` rewrite. */
  class SchemaGenerator {
    var attributes: SchemaRecord

    constructor (r: SchemaRecord)
      ensures attributes == r
    {
      attributes := r;
    }

    /** `setModelNameAttribute` (lines 588-595). */
    method SetModelName(value: string, inf: Inflector)
      modifies this
      ensures attributes == old(attributes).(modelName := ModelNameStored(old(attributes), value, inf))
    {
      if value == "?" || IsEmptyString(value) {
        attributes := attributes.(modelName := inf.studly(inf.singular(attributes.tableName)));
      } else {
        attributes := attributes.(modelName := value);
      }
    }

    /** `setCollectionNameAttribute` (lines 603-611). */
    method SetCollectionName(value: string, inf: Inflector)
      modifies this
      ensures attributes == old(attributes).(collectionName := CollectionNameStored(old(attributes), value, inf))
    {
      if value == "?" || IsEmptyString(value) {
        attributes := attributes.(collectionName := inf.plural(Lower(attributes.tableName)));
      } else {
        attributes := attributes.(collectionName := value);
      }
    }

    /** The `creating` hook (lines 78-82). */
    method Creating(inf: Inflector)
      modifies this
      ensures attributes == CreatingHook(old(attributes), inf)
    {
      if IsEmptyString(ModelNameAttr(attributes, inf)) && !IsEmptyString(attributes.tableName) {
        SetModelName(inf.studly(inf.singular(attributes.tableName)), inf);
      }
    }

    /** `generateMigration` (lines 105-185). */
    method GenerateMigration(inf: Inflector, fileExists: bool, existing: seq<Piece>, listing: seq<MigrationFile>)
      returns (result: MigrationResult)
      modifies this
      ensures result == MigrationSpec(old(attributes), inf, fileExists, existing, listing)
      ensures attributes == AfterMigration(old(attributes), inf, fileExists, existing, listing)
    {
      var t := Lower(attributes.tableName);
      var migrationName := "create_" + inf.plural(inf.snake(t, "_")) + "_table";
      if !IsEmptyString(attributes.migrationPath) && fileExists {
        var schemaCode := BuildSchemaCode(attributes.schemaDefinition, inf);
        var content := Patch(existing, Lower(inf.plural(t)), schemaCode);
        return Written(attributes.migrationPath, content);
      }
      var files := SortNewestFirst(listing);
      var migrationFile := FindMigrationFile(files, inf.snake(migrationName, "_"));
      if migrationFile.None? {
        return Failed(MigrationNotFound);
      }
      var path := migrationFile.value.pathname;
      var schemaCode := BuildSchemaCode(attributes.schemaDefinition, inf);
      var content := Patch(migrationFile.value.content, Lower(inf.plural(t)), schemaCode);
      attributes := attributes.(migrationPath := path);
      return Written(path, content);
    }

    /** `$this->update([...])` of lines 467-473: each attribute goes through
        its mutator, where it has one. */
    method Update(code: string, name: string, path: string, ns: string, coll: string, inf: Inflector)
      modifies this
      ensures attributes == old(attributes).(modelCode := code,
        modelName := ModelNameStored(old(attributes), name, inf),
        modelPath := path, namespace := ns,
        collectionName := CollectionNameStored(old(attributes), coll, inf))
    {
      attributes := attributes.(modelCode := code);
      SetModelName(name, inf);
      attributes := attributes.(modelPath := path, namespace := ns);
      SetCollectionName(coll, inf);
    }

    /** `generateModel` (lines 315-486), without the file write. */
    method GenerateModel(inf: Inflector) returns (code: string)
      modifies this
      ensures code == ModelDocument(old(attributes), inf)
      ensures attributes == AfterGenerate(old(attributes), inf)
    {
      var r := attributes;
      var t := Lower(r.tableName);
      var nameAttr := ModelNameAttr(r, inf);
      var name := if !IsEmptyString(nameAttr) then nameAttr else inf.studly(inf.singular(t));
      var path := if !IsEmptyString(r.modelPath) then r.modelPath else "App\\Models";
      var ns := if !IsEmptyString(r.namespace) then r.namespace else "App\\Models";
      var coll := if !IsEmptyString(r.collectionName) then r.collectionName else t;
      assert name == ResolvedModelName(r, inf);
      assert path == ResolvedModelPath(r) && ns == ResolvedNamespace(r) && coll == ResolvedCollection(r);
      code := RenderModel(r, name, ns, coll, inf);
      Update(code, name, path, ns, coll, inf);
      UpdateIsAfterGenerate(r, inf, code, name, path, ns, coll);
    }
  }

  /** Writing back the resolved names and the document is the record
      `AfterGenerate` describes. */
  lemma UpdateIsAfterGenerate(r: SchemaRecord, inf: Inflector, code: string, name: string, path: string, ns: string, coll: string)
    requires code == ModelDocument(r, inf)
    requires name == ResolvedModelName(r, inf)
    requires path == ResolvedModelPath(r) && ns == ResolvedNamespace(r) && coll == ResolvedCollection(r)
    ensures r.(modelCode := code, modelName := ModelNameStored(r, name, inf), modelPath := path, namespace := ns,
      collectionName := CollectionNameStored(r, coll, inf)) == AfterGenerate(r, inf)
  {
  }

  /** The text `generateModel` assembles (lines 349-464), from the record and
      the names resolved at its start. */
  method RenderModel(r: SchemaRecord, name: string, ns: string, coll: string, inf: Inflector) returns (code: string)
    requires name == ResolvedModelName(r, inf)
    requires ns == ResolvedNamespace(r)
    requires coll == ResolvedCollection(r)
    ensures code == ModelDocument(r, inf)
  {
    var options := BuildOptions(r.modelOptions, r.factory, r.policy, r.seeder, r.controller);

    code := "<?php\n\nnamespace " + ns + ";\n\n";
    ghost var p1 := code;
    code := code + "use Illuminate\\Database\\Eloquent\\Factories\\HasFactory;\n";
    code := code + "use Illuminate\\Database\\Eloquent\\Model;\n";
    if r.hasSoftDeletes {
      code := code + "use Illuminate\\Database\\Eloquent\\SoftDeletes;\n";
    }
    assert code == p1 + HasFactoryImport + ModelImport + SoftDeletesImportSection(r);
    ghost var p2 := code;
    code := code + ("\nclass " + name + " extends Model\n{\n");
    var traits := ["use HasFactory"];
    if r.hasSoftDeletes {
      traits := traits + ["SoftDeletes"];
    }
    if |traits| > 0 {
      code := code + ("    " + Join(traits, ", ") + ";\n\n");
    }
    assert code == p2 + ClassOpen(ResolvedModelName(r, inf)) + TraitsSection(r);
    ghost var p3 := code;
    code := code + ("    protected $table = '" + Lower(inf.plural(Lower(r.tableName))) + "';\n\n");
    if coll != inf.plural(Lower(r.tableName)) {
      code := code + ("    protected $collection = '" + coll + "';\n\n");
    }
    if !r.hasTimestamps {
      code := code + "    public $timestamps = false;\n\n";
    }
    assert code == p3 + TableSection(r, inf) + CollectionSection(r, inf) + TimestampsSection(r);
    ghost var upToTimestamps := code;
    var tail := ClassBody(r, options, inf);
    code := code + tail;
    code := code + "}\n";
    PrefixParts(r, inf, p1, p2, p3, upToTimestamps);
    DocumentParts(r, inf, upToTimestamps, tail);
  }

  /** Lines 324-347 step by step: the direct flags, the guarded removals of
      the old toggles, and the merge. */
  method BuildOptions(modelOptions: PhpArray, factory: bool, policy: bool, seeder: bool, controller: bool)
    returns (options: PhpArray)
    ensures options == MergedOptions(modelOptions, factory, policy, seeder, controller)
  {
    options := [];
    if factory {
      options := options + [Entry(Name("factory"), PBool(true))];
    }
    if policy {
      options := options + [Entry(Name("policy"), PBool(true))];
    }
    if seeder {
      options := options + [Entry(Name("seeder"), PBool(true))];
    }
    if controller {
      options := options + [Entry(Name("controller"), PBool(true))];
    }
    assert options == DirectOptions(factory, policy, seeder, controller);
    CleanedIsDirect(factory, policy, seeder, controller);
    DirectLacksToggles(factory, policy, seeder, controller);
    if Find(options, Name("relationships")).Some? {
      options := Options.Unset(options, "relationships");
    }
    if Find(options, Name("has_many")).Some? {
      options := Options.Unset(options, "has_many");
    }
    if Find(options, Name("belongs_to_many")).Some? {
      options := Options.Unset(options, "belongs_to_many");
    }
    if modelOptions != [] {
      options := ArrayMerge(modelOptions, options);
    }
  }

  /** The sections from the fillable list to the relationship methods
      (lines 386-461). */
  method ClassBody(r: SchemaRecord, options: PhpArray, inf: Inflector) returns (body: string)
    requires options == MergedOptions(r.modelOptions, r.factory, r.policy, r.seeder, r.controller)
    ensures body == FillableSection(r) + GuardedSection(r) + CastsSection(r) + RelationshipsSection(r, inf)
  {
    var fillable := FillableText(r);
    var guarded := GuardedText(r);
    var casts := CastsText(r, options);
    var relationships := "";
    if r.modelRelationships != [] {
      relationships := GenerateRelationshipMethods(r.modelRelationships, ModelNameAttr(r, inf), inf);
    }
    body := fillable + guarded + casts + relationships;
  }

  /** Lines 386-409. */
  method FillableText(r: SchemaRecord) returns (text: string)
    ensures text == FillableSection(r)
  {
    text := "";
    if r.hasFillable && r.schemaDefinition != [] {
      var fillable := CollectFillable(r.fieldSelection, r.schemaDefinition);
      text := FillableOpen + Join(fillable, ItemGlue) + ArrayClose;
    }
  }

  /** Lines 411-437. */
  method GuardedText(r: SchemaRecord) returns (text: string)
    ensures text == GuardedSection(r)
  {
    text := "";
    if r.hasGuarded {
      if !r.fieldSelection.Unset? {
        var selected := if r.fieldSelection.Listed? then r.fieldSelection.names else [];
        if selected == [] {
          text := EmptyGuarded;
        } else {
          var guarded := CollectQuoted(selected);
          guarded := SortStrings(guarded);
          text := GuardedOpen + Join(guarded, ItemGlue) + ArrayClose;
        }
      } else {
        text := EmptyGuarded;
      }
    }
  }

  /** Lines 439-456, with the loose `in_array` of line 440. */
  method CastsText(r: SchemaRecord, options: PhpArray) returns (text: string)
    requires options == MergedOptions(r.modelOptions, r.factory, r.policy, r.seeder, r.controller)
    ensures text == CastsSection(r)
  {
    text := "";
    if options != [] && InArrayLooseCasts(options) && r.schemaDefinition != [] {
      var casts := CollectCasts(r.schemaDefinition);
      if |casts| > 0 {
        text := CastsOpen + Join(casts, ItemGlue) + ArrayClose;
      }
    }
  }

  /** Lines 389-405. */
  method CollectFillable(selection: Selection, rows: seq<FieldRow>) returns (fillable: seq<string>)
    ensures fillable == FillableItems(SchemaRecordWith(selection, rows))
  {
    fillable := [];
    if !selection.Unset? {
      if selection.Listed? && selection.names != [] {
        fillable := CollectQuoted(selection.names);
      }
    } else {
      for i := 0 to |rows|
        invariant fillable == AllFieldsFillable(rows[..i])
      {
        assert rows[..i + 1][..i] == rows[..i];
        var field := rows[i];
        if field.field.Some? && field.field.value != "id" {
          fillable := fillable + ["'" + field.field.value + "'"];
        }
      }
      assert rows[..|rows|] == rows;
    }
  }

  /** A record that only has a selection and a schema; the fillable list
      depends on nothing else. */
  function SchemaRecordWith(selection: Selection, rows: seq<FieldRow>): SchemaRecord {
    SchemaRecord("", rows, "", "", "", "", "", [], "", false, false, false, false,
      false, false, false, false, selection, [])
  }

  /** `foreach ($names as $n) $list[] = "'" . $n . "'";`. */
  method CollectQuoted(names: seq<string>) returns (quoted: seq<string>)
    ensures quoted == QuoteAll(names)
  {
    quoted := [];
    for i := 0 to |names|
      invariant quoted == QuoteAll(names[..i])
    {
      quoted := quoted + ["'" + names[i] + "'"];
    }
    assert names[..|names|] == names;
  }

  /** Lines 442-451. */
  method CollectCasts(rows: seq<FieldRow>) returns (casts: seq<string>)
    ensures casts == CastItems(rows)
  {
    casts := [];
    for i := 0 to |rows|
      invariant casts == CastItems(rows[..i])
    {
      assert rows[..i + 1][..i] == rows[..i];
      var field := rows[i];
      if field.field.None? || field.colType.None? {
        continue;
      }
      var phpType := MapDatabaseTypeToPhpType(field.colType.value);
      if phpType.Some? {
        casts := casts + ["'" + field.field.value + "' => '" + phpType.value + "'"];
      }
    }
    assert rows[..|rows|] == rows;
  }

  lemma PrefixParts(r: SchemaRecord, inf: Inflector, p1: string, p2: string, p3: string, p4: string)
    requires p1 == Header(ResolvedNamespace(r))
    requires p2 == p1 + HasFactoryImport + ModelImport + SoftDeletesImportSection(r)
    requires p3 == p2 + ClassOpen(ResolvedModelName(r, inf)) + TraitsSection(r)
    requires p4 == p3 + TableSection(r, inf) + CollectionSection(r, inf) + TimestampsSection(r)
    ensures p4 ==
      Header(ResolvedNamespace(r)) + HasFactoryImport + ModelImport + SoftDeletesImportSection(r)
      + ClassOpen(ResolvedModelName(r, inf)) + TraitsSection(r) + TableSection(r, inf)
      + CollectionSection(r, inf) + TimestampsSection(r)
  {
  }

  /** The text assembled by `GenerateModel` is the model document. */
  lemma DocumentParts(r: SchemaRecord, inf: Inflector, upToTimestamps: string, tail: string)
    requires upToTimestamps ==
      Header(ResolvedNamespace(r)) + HasFactoryImport + ModelImport + SoftDeletesImportSection(r)
      + ClassOpen(ResolvedModelName(r, inf)) + TraitsSection(r) + TableSection(r, inf)
      + CollectionSection(r, inf) + TimestampsSection(r)
    requires tail == FillableSection(r) + GuardedSection(r) + CastsSection(r) + RelationshipsSection(r, inf)
    ensures upToTimestamps + tail + "}\n" == ModelDocument(r, inf)
  {
    var a, b, c, d := FillableSection(r), GuardedSection(r), CastsSection(r), RelationshipsSection(r, inf);
    calc {
      upToTimestamps + (a + b + c + d);
      { SeqAssoc(upToTimestamps, a + b + c, d); }
      upToTimestamps + (a + b + c) + d;
      { SeqAssoc(upToTimestamps, a + b, c); }
      upToTimestamps + (a + b) + c + d;
      { SeqAssoc(upToTimestamps, a, b); }
      upToTimestamps + a + b + c + d;
    }
  }
}
