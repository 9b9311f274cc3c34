/** The Eloquent model file `SchemaGenerator::generateModel` writes
    (SchemaGenerator.php lines 315-486), specified section by section over a
    snapshot of the record's attributes, together with the attribute accessor
    and mutators that decide the model and collection names. */
module ModelDoc {
  import opened Php
  import opened TypeMap
  import opened Columns
  import opened Relationships
  import opened Options

  /** The `field_selection` attribute after its `array` cast: null, a decoded
      value that is not an array, or a list of field names. */
  datatype Selection = Unset | NotList | Listed(names: seq<string>)

  /** The attributes of one `schema_generators` row that the generator reads
      or writes. A null table name is the empty string, as `strtolower(null)`
      and `$this->table_name ?? ''` make it. */
  datatype SchemaRecord = SchemaRecord(
    tableName: string,
    schemaDefinition: seq<FieldRow>,
    migrationPath: string,
    modelName: string,
    modelPath: string,
    collectionName: string,
    namespace: string,
    modelOptions: PhpArray,
    modelCode: string,
    factory: bool,
    policy: bool,
    seeder: bool,
    controller: bool,
    hasTimestamps: bool,
    hasFillable: bool,
    hasGuarded: bool,
    hasSoftDeletes: bool,
    fieldSelection: Selection,
    modelRelationships: seq<RelRow>)

  // ---------------------------------------------------------------------------
  // Accessor and mutators (lines 56-68, 588-595 and 603-611)
  // ---------------------------------------------------------------------------

  /** `getSuggestedModelNameAttribute`: the singular studly form of the table
      name, with its case kept. */
  function SuggestedModelName(r: SchemaRecord, inf: Inflector): string {
    inf.studly(inf.singular(r.tableName))
  }

  /** `getModelNameAttribute`: the stored name, or the suggestion when the
      stored one is empty. */
  function ModelNameAttr(r: SchemaRecord, inf: Inflector): (name: string)
    ensures !IsEmptyString(r.modelName) ==> name == r.modelName
    ensures IsEmptyString(r.modelName) ==> name == SuggestedModelName(r, inf)
  {
    Elvis(r.modelName, SuggestedModelName(r, inf))
  }

  /** The placeholder "?" and the empty values ask for the default. */
  predicate IsPlaceholder(value: string) {
    value == "?" || IsEmptyString(value)
  }

  /** `setModelNameAttribute($value)`: the stored value. */
  function ModelNameStored(r: SchemaRecord, value: string, inf: Inflector): (stored: string)
    ensures IsPlaceholder(value) ==> stored == SuggestedModelName(r, inf)
    ensures !IsPlaceholder(value) ==> stored == value
  {
    if IsPlaceholder(value) then SuggestedModelName(r, inf) else value
  }

  /** `setCollectionNameAttribute($value)`: the stored value; the default is
      the plural of the lower-cased table name. */
  function CollectionNameStored(r: SchemaRecord, value: string, inf: Inflector): (stored: string)
    ensures IsPlaceholder(value) ==> stored == inf.plural(Lower(r.tableName))
    ensures !IsPlaceholder(value) ==> stored == value
  {
    if IsPlaceholder(value) then inf.plural(Lower(r.tableName)) else value
  }

  /** Reading the name back through the accessor after the mutator stored
      `value`: the value itself, unless it asked for the default, in which
      case the suggestion. A placeholder can only survive when the suggestion
      is itself "?". */
  lemma ModelNameRoundTrip(r: SchemaRecord, value: string, inf: Inflector)
    ensures var r' := r.(modelName := ModelNameStored(r, value, inf));
      ModelNameAttr(r', inf) == if IsPlaceholder(value) then SuggestedModelName(r, inf) else value
    ensures var r' := r.(modelName := ModelNameStored(r, value, inf));
      ModelNameAttr(r', inf) == "?" ==> SuggestedModelName(r, inf) == "?"
  {
  }

  /** The `creating` hook (lines 78-82) as a change of the stored name. */
  function CreatingHook(r: SchemaRecord, inf: Inflector): SchemaRecord {
    if IsEmptyString(ModelNameAttr(r, inf)) && !IsEmptyString(r.tableName) then
      r.(modelName := ModelNameStored(r, inf.studly(inf.singular(r.tableName)), inf))
    else r
  }

  /** The hook never changes the model name the accessor reports: it only
      fires when the accessor is empty, which means the suggestion is empty,
      and then it stores that same suggestion. */
  lemma {:induction false} CreatingKeepsModelName(r: SchemaRecord, inf: Inflector)
    ensures ModelNameAttr(CreatingHook(r, inf), inf) == ModelNameAttr(r, inf)
    ensures CreatingHook(r, inf).(modelName := r.modelName) == r
  {
    if IsEmptyString(ModelNameAttr(r, inf)) && !IsEmptyString(r.tableName) {
      var s := SuggestedModelName(r, inf);
      assert IsEmptyString(r.modelName) && IsEmptyString(s);
      var r' := CreatingHook(r, inf);
      assert r'.modelName == s;
      assert SuggestedModelName(r', inf) == s;
    }
  }

  // ---------------------------------------------------------------------------
  // The names generateModel resolves (lines 318-322)
  // ---------------------------------------------------------------------------

  const DefaultNamespace: string := "App\\Models"

  function ResolvedModelName(r: SchemaRecord, inf: Inflector): string {
    var attr := ModelNameAttr(r, inf);
    if !IsEmptyString(attr) then attr else inf.studly(inf.singular(Lower(r.tableName)))
  }

  function ResolvedModelPath(r: SchemaRecord): (p: string)
    ensures !IsEmptyString(p)
  {
    Elvis(r.modelPath, DefaultNamespace)
  }

  function ResolvedNamespace(r: SchemaRecord): (ns: string)
    ensures !IsEmptyString(ns)
  {
    Elvis(r.namespace, DefaultNamespace)
  }

  function ResolvedCollection(r: SchemaRecord): string {
    Elvis(r.collectionName, Lower(r.tableName))
  }

  /** Line 440 as written: PHP's loose `in_array('casts', $options)` on the
      merged options. */
  function CastsWanted(r: SchemaRecord): bool {
    CastsRequestedAsWritten(r.modelOptions, r.factory, r.policy, r.seeder, r.controller)
  }

  // ---------------------------------------------------------------------------
  // Item lists
  // ---------------------------------------------------------------------------

  function QuoteAll(names: seq<string>): (qs: seq<string>)
    ensures |qs| == |names|
    ensures forall i :: 0 <= i < |names| ==> qs[i] == Quote(names[i])
  {
    seq(|names|, i requires 0 <= i < |names| => Quote(names[i]))
  }

  /** Lines 400-405: every row that names a field other than "id", quoted. */
  function AllFieldsFillable(rows: seq<FieldRow>): seq<string>
    decreases |rows|
  {
    if rows == [] then []
    else
      var row := rows[|rows| - 1];
      AllFieldsFillable(rows[..|rows| - 1])
      + (if row.field.Some? && row.field.value != "id" then [Quote(row.field.value)] else [])
  }

  /** Lines 389-405: the selected fields when a selection is set (none when
      it is not a list), every non-"id" field when it is not set. */
  function FillableItems(r: SchemaRecord): seq<string> {
    match r.fieldSelection
    case Unset => AllFieldsFillable(r.schemaDefinition)
    case NotList => []
    case Listed(names) => QuoteAll(names)
  }

  /** The cast entry for one row, if it has a field, a type and a cast. */
  function CastItem(row: FieldRow): Option<string> {
    if row.field.Some? && row.colType.Some? && MapDatabaseTypeToPhpType(row.colType.value).Some? then
      Some("'" + row.field.value + "' => '" + MapDatabaseTypeToPhpType(row.colType.value).value + "'")
    else None
  }

  /** Lines 442-451. */
  function CastItems(rows: seq<FieldRow>): seq<string>
    decreases |rows|
  {
    if rows == [] then []
    else
      var c := CastItem(rows[|rows| - 1]);
      CastItems(rows[..|rows| - 1]) + (if c.Some? then [c.value] else [])
  }

  // ---------------------------------------------------------------------------
  // Sorting (PHP `sort` on non-numeric strings compares them byte by byte)
  // ---------------------------------------------------------------------------

  predicate LexLe(a: string, b: string)
    decreases |a|
  {
    a == [] || (b != [] && (a[0] < b[0] || (a[0] == b[0] && LexLe(a[1..], b[1..]))))
  }

  lemma {:induction false} LexLeTotal(a: string, b: string)
    ensures LexLe(a, b) || LexLe(b, a)
    decreases |a|
  {
    if a != [] && b != [] && a[0] == b[0] {
      LexLeTotal(a[1..], b[1..]);
    }
  }

  lemma {:induction false} LexLeTrans(a: string, b: string, c: string)
    requires LexLe(a, b) && LexLe(b, c)
    ensures LexLe(a, c)
    decreases |a|
  {
    if a != [] && a[0] == b[0] && b[0] == c[0] {
      LexLeTrans(a[1..], b[1..], c[1..]);
    }
  }

  predicate SortedStrings(s: seq<string>) {
    forall i, j :: 0 <= i < j < |s| ==> LexLe(s[i], s[j])
  }

  function InsertString(x: string, s: seq<string>): (r: seq<string>)
    ensures multiset(r) == multiset(s) + multiset{x}
    decreases |s|
  {
    if s == [] then [x]
    else if LexLe(x, s[0]) then [x] + s
    else
      assert s == [s[0]] + s[1..];
      [s[0]] + InsertString(x, s[1..])
  }

  lemma {:induction false} InsertStringSorted(x: string, s: seq<string>)
    requires SortedStrings(s)
    ensures SortedStrings(InsertString(x, s))
    decreases |s|
  {
    if s != [] {
      if LexLe(x, s[0]) {
        var r := [x] + s;
        forall i, j | 0 <= i < j < |r| ensures LexLe(r[i], r[j]) {
          if i == 0 && j > 1 {
            LexLeTrans(x, s[0], s[j - 1]);
          }
        }
      } else {
        LexLeTotal(x, s[0]);
        InsertStringSorted(x, s[1..]);
        var t := InsertString(x, s[1..]);
        var r := [s[0]] + t;
        forall k | 0 <= k < |t| ensures LexLe(s[0], t[k]) {
          assert t[k] in multiset(t);
          assert t[k] in multiset(s[1..]) + multiset{x};
          if t[k] != x {
            assert t[k] in s[1..];
            var m :| 0 <= m < |s[1..]| && s[1..][m] == t[k];
            assert s[m + 1] == t[k];
          }
        }
      }
    }
  }

  /** `sort($guarded)`. */
  function SortStrings(s: seq<string>): (r: seq<string>)
    ensures multiset(r) == multiset(s)
    decreases |s|
  {
    if s == [] then []
    else
      assert s == [s[0]] + s[1..];
      InsertString(s[0], SortStrings(s[1..]))
  }

  lemma {:induction false} SortStringsSorted(s: seq<string>)
    ensures SortedStrings(SortStrings(s))
    decreases |s|
  {
    if s != [] {
      SortStringsSorted(s[1..]);
      InsertStringSorted(s[0], SortStrings(s[1..]));
    }
  }

  // ---------------------------------------------------------------------------
  // Sections
  // ---------------------------------------------------------------------------

  const ItemGlue: string := ",\n        "
  const ArrayClose: string := "\n    ];\n\n"
  const FillableOpen: string := "    protected $fillable = [\n        "
  const GuardedOpen: string := "    protected $guarded = [\n        "
  const CastsOpen: string := "    protected $casts = [\n        "

  /** `"    protected \$<name> = [\n        " . implode(",\n        ", $items) . "\n    ];\n\n"`. */
  function ArrayProperty(open: string, items: seq<string>): string {
    open + Join(items, ItemGlue) + ArrayClose
  }

  function Header(namespace: string): string {
    "<?php\n\nnamespace " + namespace + ";\n\n"
  }

  const HasFactoryImport: string := "use Illuminate\\Database\\Eloquent\\Factories\\HasFactory;\n"
  const ModelImport: string := "use Illuminate\\Database\\Eloquent\\Model;\n"
  const SoftDeletesImport: string := "use Illuminate\\Database\\Eloquent\\SoftDeletes;\n"

  function SoftDeletesImportSection(r: SchemaRecord): string {
    if r.hasSoftDeletes then SoftDeletesImport else ""
  }

  function ClassOpen(modelName: string): string {
    "\nclass " + modelName + " extends Model\n{\n"
  }

  function Traits(r: SchemaRecord): (ts: seq<string>)
    ensures |ts| >= 1 && ts[0] == "use HasFactory"
  {
    ["use HasFactory"] + (if r.hasSoftDeletes then ["SoftDeletes"] else [])
  }

  function TraitsSection(r: SchemaRecord): string {
    "    " + Join(Traits(r), ", ") + ";\n\n"
  }

  function TableSection(r: SchemaRecord, inf: Inflector): string {
    "    protected $table = '" + Lower(inf.plural(Lower(r.tableName))) + "';\n\n"
  }

  function CollectionSection(r: SchemaRecord, inf: Inflector): string {
    var c := ResolvedCollection(r);
    if c != inf.plural(Lower(r.tableName)) then "    protected $collection = '" + c + "';\n\n" else ""
  }

  function TimestampsSection(r: SchemaRecord): string {
    if !r.hasTimestamps then "    public $timestamps = false;\n\n" else ""
  }

  function FillableSection(r: SchemaRecord): string {
    if r.hasFillable && r.schemaDefinition != [] then ArrayProperty(FillableOpen, FillableItems(r)) else ""
  }

  const EmptyGuarded: string := "    protected $guarded = [];\n\n"

  function GuardedSection(r: SchemaRecord): string {
    if !r.hasGuarded then ""
    else
      match r.fieldSelection
      case Listed(names) =>
        if names == [] then EmptyGuarded else ArrayProperty(GuardedOpen, SortStrings(QuoteAll(names)))
      case _ => EmptyGuarded
  }

  function CastsSection(r: SchemaRecord): string {
    if CastsWanted(r) && r.schemaDefinition != [] && CastItems(r.schemaDefinition) != [] then
      ArrayProperty(CastsOpen, CastItems(r.schemaDefinition))
    else ""
  }

  /** The casts block with the strict test of line 440 as evidently
      intended: only when the value "casts" was chosen. */
  function CorrectedCastsSection(r: SchemaRecord): string {
    if CastsRequested(r.modelOptions, r.factory, r.policy, r.seeder, r.controller)
       && r.schemaDefinition != [] && CastItems(r.schemaDefinition) != [] then
      ArrayProperty(CastsOpen, CastItems(r.schemaDefinition))
    else ""
  }

  function RelationshipsSection(r: SchemaRecord, inf: Inflector): string {
    if r.modelRelationships != [] then RelationshipsCode(r.modelRelationships, ModelNameAttr(r, inf), inf) else ""
  }

  /** The whole generated model file, section after section. */
  function ModelDocument(r: SchemaRecord, inf: Inflector): string {
    Header(ResolvedNamespace(r)) + HasFactoryImport + ModelImport + SoftDeletesImportSection(r)
    + ClassOpen(ResolvedModelName(r, inf)) + TraitsSection(r) + TableSection(r, inf)
    + CollectionSection(r, inf) + TimestampsSection(r) + FillableSection(r) + GuardedSection(r)
    + CastsSection(r) + RelationshipsSection(r, inf) + "}\n"
  }

  /** The record after the `update` of lines 467-473: the code and the
      resolved names written back through the mutators. */
  function AfterGenerate(r: SchemaRecord, inf: Inflector): SchemaRecord {
    var name := ResolvedModelName(r, inf);
    var coll := ResolvedCollection(r);
    r.(modelCode := ModelDocument(r, inf),
       modelName := ModelNameStored(r, name, inf),
       modelPath := ResolvedModelPath(r),
       namespace := ResolvedNamespace(r),
       collectionName := CollectionNameStored(r, coll, inf))
  }

  // ---------------------------------------------------------------------------
  // Properties
  // ---------------------------------------------------------------------------

  /** Without a selection, the fillable list is exactly the quoted names of
      the fields other than "id", one per such row. */
  lemma {:induction false} AllFieldsFillableExactly(rows: seq<FieldRow>, x: string)
    ensures x in AllFieldsFillable(rows) <==>
      exists k :: 0 <= k < |rows| && rows[k].field.Some? && rows[k].field.value != "id" && x == Quote(rows[k].field.value)
    decreases |rows|
  {
    if rows != [] {
      var init := rows[..|rows| - 1];
      AllFieldsFillableExactly(init, x);
      if exists k :: 0 <= k < |rows| && rows[k].field.Some? && rows[k].field.value != "id" && x == Quote(rows[k].field.value) {
        var k :| 0 <= k < |rows| && rows[k].field.Some? && rows[k].field.value != "id" && x == Quote(rows[k].field.value);
        if k < |rows| - 1 {
          assert init[k] == rows[k];
        }
      }
      if x in AllFieldsFillable(init) {
        var k :| 0 <= k < |init| && init[k].field.Some? && init[k].field.value != "id" && x == Quote(init[k].field.value);
        assert rows[k] == init[k];
      }
    }
  }

  /** "id" is never fillable by default. */
  lemma IdNeverFillableByDefault(rows: seq<FieldRow>)
    ensures Quote("id") !in AllFieldsFillable(rows)
  {
    AllFieldsFillableExactly(rows, Quote("id"));
    forall k | 0 <= k < |rows| && rows[k].field.Some? && Quote("id") == Quote(rows[k].field.value)
      ensures rows[k].field.value == "id"
    {
      QuoteInjective("id", rows[k].field.value);
    }
  }

  lemma QuoteInjective(a: string, b: string)
    requires Quote(a) == Quote(b)
    ensures a == b
  {
    assert a == Quote(a)[1..|Quote(a)| - 1];
    assert b == Quote(b)[1..|Quote(b)| - 1];
  }

  /** The guarded list is the selected names, quoted, in sorted order: sorted,
      and a permutation of the quoted selection. */
  lemma GuardedSortedPermutation(names: seq<string>)
    ensures SortedStrings(SortStrings(QuoteAll(names)))
    ensures multiset(SortStrings(QuoteAll(names))) == multiset(QuoteAll(names))
  {
    SortStringsSorted(QuoteAll(names));
  }

  /** The cast list has one entry per row that names a field and a column type
      with a cast, and the cast is the one the type is listed under. */
  lemma {:induction false} CastItemsExactly(rows: seq<FieldRow>, x: string)
    ensures x in CastItems(rows) <==>
      exists k, cast :: 0 <= k < |rows| && rows[k].field.Some? && rows[k].colType.Some? &&
        rows[k].colType.value in ColumnTypesCastTo(cast) &&
        x == "'" + rows[k].field.value + "' => '" + cast + "'"
    decreases |rows|
  {
    if rows != [] {
      var init := rows[..|rows| - 1];
      CastItemsExactly(init, x);
      if exists k, cast :: 0 <= k < |rows| && rows[k].field.Some? && rows[k].colType.Some? &&
          rows[k].colType.value in ColumnTypesCastTo(cast) && x == "'" + rows[k].field.value + "' => '" + cast + "'" {
        var k, cast :| 0 <= k < |rows| && rows[k].field.Some? && rows[k].colType.Some? &&
          rows[k].colType.value in ColumnTypesCastTo(cast) && x == "'" + rows[k].field.value + "' => '" + cast + "'";
        CastInverse(rows[k].colType.value, cast);
        if k < |rows| - 1 {
          assert init[k] == rows[k];
        }
      }
      var last := rows[|rows| - 1];
      var c := CastItem(last);
      if c.Some? && x == c.value {
        var cast := MapDatabaseTypeToPhpType(last.colType.value).value;
        CastInverse(last.colType.value, cast);
        assert rows[|rows| - 1] == last;
      }
      if x in CastItems(init) {
        var k, cast :| 0 <= k < |init| && init[k].field.Some? && init[k].colType.Some? &&
          init[k].colType.value in ColumnTypesCastTo(cast) && x == "'" + init[k].field.value + "' => '" + cast + "'";
        assert rows[k] == init[k];
      }
    }
  }

  /** The SoftDeletes import and trait are there exactly when soft deletes are
      on; the trait line is `use HasFactory` otherwise. */
  lemma SoftDeletesExactly(r: SchemaRecord)
    ensures SoftDeletesImportSection(r) == SoftDeletesImport <==> r.hasSoftDeletes
    ensures SoftDeletesImportSection(r) == "" <==> !r.hasSoftDeletes
    ensures TraitsSection(r) ==
      if r.hasSoftDeletes then "    use HasFactory, SoftDeletes;\n\n" else "    use HasFactory;\n\n"
  {
    if r.hasSoftDeletes {
      assert Traits(r) == ["use HasFactory", "SoftDeletes"];
      assert Join(Traits(r), ", ") == "use HasFactory" + ", " + Join(["SoftDeletes"], ", ");
    } else {
      assert Traits(r) == ["use HasFactory"];
    }
  }

  /** The `$table` property is always there; `$collection` is there exactly
      when the collection name, which defaults to the lower-cased table name,
      differs from the plural of that name; `$timestamps = false` is there
      exactly when timestamps are off. */
  lemma OptionalSectionsExactly(r: SchemaRecord, inf: Inflector)
    ensures TableSection(r, inf) == "    protected $table = '" + Lower(inf.plural(Lower(r.tableName))) + "';\n\n"
    ensures ResolvedCollection(r) == if IsEmptyString(r.collectionName) then Lower(r.tableName) else r.collectionName
    ensures CollectionSection(r, inf) != "" <==> ResolvedCollection(r) != inf.plural(Lower(r.tableName))
    ensures TimestampsSection(r) != "" <==> !r.hasTimestamps
  {
  }

  /** The fillable block is there exactly when fillable is on and there are
      fields; its items are the selection when one is set (none when it is
      not a list) and otherwise the fields other than "id". */
  lemma FillableSectionExactly(r: SchemaRecord)
    ensures FillableSection(r) != "" <==> r.hasFillable && r.schemaDefinition != []
    ensures FillableSection(r) != "" ==> FillableSection(r) == ArrayProperty(FillableOpen, FillableItems(r))
    ensures r.fieldSelection.Listed? ==> FillableItems(r) == QuoteAll(r.fieldSelection.names)
    ensures r.fieldSelection.NotList? ==> FillableItems(r) == []
    ensures r.fieldSelection.Unset? ==> forall x :: x in FillableItems(r) <==>
      exists k :: 0 <= k < |r.schemaDefinition| && r.schemaDefinition[k].field.Some? &&
        r.schemaDefinition[k].field.value != "id" && x == Quote(r.schemaDefinition[k].field.value)
  {
    if r.fieldSelection.Unset? {
      forall x {
        AllFieldsFillableExactly(r.schemaDefinition, x);
      }
    }
  }

  /** With guarded on, a non-empty selection gives the quoted selection sorted
      ascending (a sorted permutation of it), and anything else gives the
      empty guarded list; with guarded off there is no block. */
  lemma GuardedSectionExactly(r: SchemaRecord)
    ensures !r.hasGuarded ==> GuardedSection(r) == ""
    ensures r.hasGuarded && !(r.fieldSelection.Listed? && r.fieldSelection.names != []) ==>
      GuardedSection(r) == EmptyGuarded
    ensures r.hasGuarded && r.fieldSelection.Listed? && r.fieldSelection.names != [] ==>
      var g := SortStrings(QuoteAll(r.fieldSelection.names));
      GuardedSection(r) == ArrayProperty(GuardedOpen, g) &&
      SortedStrings(g) && multiset(g) == multiset(QuoteAll(r.fieldSelection.names))
  {
    if r.fieldSelection.Listed? {
      GuardedSortedPermutation(r.fieldSelection.names);
    }
  }

  /** Some row names a field whose column type has a cast. */
  ghost predicate SomeRowMaps(rows: seq<FieldRow>) {
    exists k, cast :: 0 <= k < |rows| && rows[k].field.Some? && rows[k].colType.Some? &&
      rows[k].colType.value in ColumnTypesCastTo(cast)
  }

  /** The casts block is there exactly when casts are requested and some row
      names a field whose column type has a cast. With an option list, casts
      are requested as written exactly when a direct flag is set (its `true`
      loosely equals "casts") or some chosen option loosely equals "casts". */
  lemma CastsSectionExactly(r: SchemaRecord)
    ensures CastsSection(r) != "" <==> CastsWanted(r) && SomeRowMaps(r.schemaDefinition)
    ensures IsList(r.modelOptions) ==>
      (CastsSection(r) != "" <==>
        (AnyFlag(r.factory, r.policy, r.seeder, r.controller) ||
         exists i :: 0 <= i < |r.modelOptions| && LooseEqualsCasts(r.modelOptions[i].value)) &&
        SomeRowMaps(r.schemaDefinition))
  {
    CastItemsNonEmpty(r.schemaDefinition);
    if IsList(r.modelOptions) {
      CastsRequestedAsWrittenOnList(r.modelOptions, r.factory, r.policy, r.seeder, r.controller);
    }
  }

  /** The strict half: with an option list, the corrected block is there
      exactly when "casts" was chosen and some row maps, and where it is
      there it is the block the source writes. */
  lemma CorrectedCastsSectionExactly(r: SchemaRecord)
    requires IsList(r.modelOptions)
    ensures CorrectedCastsSection(r) != "" <==>
      PStr("casts") in Values(r.modelOptions) && SomeRowMaps(r.schemaDefinition)
    ensures CorrectedCastsSection(r) != "" ==> CastsSection(r) == CorrectedCastsSection(r)
  {
    CastItemsNonEmpty(r.schemaDefinition);
    CastsRequestedOnList(r.modelOptions, r.factory, r.policy, r.seeder, r.controller);
    CorrectedIsStricter(r.modelOptions, r.factory, r.policy, r.seeder, r.controller);
  }

  /** The discrepancy in the document: with no chosen options, only the
      factory flag and one integer column, the source writes a casts block
      that the corrected test leaves out. */
  lemma FactoryOnlyWritesCasts(r: SchemaRecord)
    requires r.modelOptions == [] && r.factory
    requires r.schemaDefinition == [FieldRow(Some("age"), Some("integer"), None, None,
                                             false, false, false, false, false, false, false, false)]
    ensures CastsSection(r) == ArrayProperty(CastsOpen, ["'age' => 'integer'"])
    ensures CorrectedCastsSection(r) == ""
  {
    AnyFlagTurnsCastsOn([], true, r.policy, r.seeder, r.controller);
    CastsRequestedOnList([], true, r.policy, r.seeder, r.controller);
    assert MapDatabaseTypeToPhpType("integer") == Some("integer");
    assert r.schemaDefinition[..0] == [];
    var row := r.schemaDefinition[0];
    assert CastItem(row) == Some("'" + "age" + "' => '" + "integer" + "'");
    assert "'" + "age" + "' => '" + "integer" + "'" == "'age' => 'integer'";
    assert CastItems(r.schemaDefinition) == CastItems(r.schemaDefinition[..0]) + [CastItem(row).value];
  }

  /** There are cast items exactly when some row maps. */
  lemma CastItemsNonEmpty(rows: seq<FieldRow>)
    ensures CastItems(rows) != [] <==> SomeRowMaps(rows)
  {
    if SomeRowMaps(rows) {
      var k, cast :| 0 <= k < |rows| && rows[k].field.Some? && rows[k].colType.Some? &&
        rows[k].colType.value in ColumnTypesCastTo(cast);
      CastItemsExactly(rows, "'" + rows[k].field.value + "' => '" + cast + "'");
    }
    if CastItems(rows) != [] {
      CastItemsExactly(rows, CastItems(rows)[0]);
    }
  }

  /** Regenerating from the written-back record gives the same file, provided
      the model name the accessor reports and the collection name are real
      names rather than values the mutators replace by a default. */
  lemma GenerateModelIdempotent(r: SchemaRecord, inf: Inflector)
    requires !IsPlaceholder(ModelNameAttr(r, inf))
    requires !IsPlaceholder(ResolvedCollection(r))
    ensures ModelDocument(AfterGenerate(r, inf), inf) == ModelDocument(r, inf)
  {
    SectionsSurviveUpdate(r, inf);
  }

  lemma SectionsSurviveUpdate(r: SchemaRecord, inf: Inflector)
    requires !IsPlaceholder(ModelNameAttr(r, inf))
    requires !IsPlaceholder(ResolvedCollection(r))
    ensures var r' := AfterGenerate(r, inf);
      Header(ResolvedNamespace(r')) == Header(ResolvedNamespace(r)) &&
      SoftDeletesImportSection(r') == SoftDeletesImportSection(r) &&
      ClassOpen(ResolvedModelName(r', inf)) == ClassOpen(ResolvedModelName(r, inf)) &&
      TraitsSection(r') == TraitsSection(r) &&
      TableSection(r', inf) == TableSection(r, inf) &&
      CollectionSection(r', inf) == CollectionSection(r, inf) &&
      TimestampsSection(r') == TimestampsSection(r) &&
      FillableSection(r') == FillableSection(r) &&
      GuardedSection(r') == GuardedSection(r) &&
      CastsSection(r') == CastsSection(r) &&
      RelationshipsSection(r', inf) == RelationshipsSection(r, inf)
  {
    var r' := AfterGenerate(r, inf);
    NamesSurviveUpdate(r, inf);
    DataSectionsAgree(r, r', inf, r'.modelCode, r'.modelName, r'.modelPath, r'.namespace, r'.collectionName);
    assert ResolvedModelName(r', inf) == ResolvedModelName(r, inf);
    assert ModelNameAttr(r', inf) == ModelNameAttr(r, inf);
    assert r'.modelRelationships == r.modelRelationships;
  }

  /** The sections that read neither the code nor the names are the same for
      two records that differ only in those attributes. */
  lemma DataSectionsAgree(a: SchemaRecord, b: SchemaRecord, inf: Inflector,
                          code: string, name: string, path: string, ns: string, coll: string)
    requires b == a.(modelCode := code, modelName := name, modelPath := path, namespace := ns, collectionName := coll)
    ensures SoftDeletesImportSection(b) == SoftDeletesImportSection(a)
    ensures TraitsSection(b) == TraitsSection(a)
    ensures TableSection(b, inf) == TableSection(a, inf)
    ensures TimestampsSection(b) == TimestampsSection(a)
    ensures FillableSection(b) == FillableSection(a)
    ensures GuardedSection(b) == GuardedSection(a)
    ensures CastsSection(b) == CastsSection(a)
  {
  }

  /** A second generation writes back exactly what the first wrote. */
  lemma AfterGenerateStable(r: SchemaRecord, inf: Inflector)
    requires !IsPlaceholder(ModelNameAttr(r, inf))
    requires !IsPlaceholder(ResolvedCollection(r))
    ensures AfterGenerate(AfterGenerate(r, inf), inf) == AfterGenerate(r, inf)
  {
    GenerateModelIdempotent(r, inf);
    NamesSurviveUpdate(r, inf);
  }

  /** The names written back resolve to themselves. */
  lemma NamesSurviveUpdate(r: SchemaRecord, inf: Inflector)
    requires !IsPlaceholder(ModelNameAttr(r, inf))
    requires !IsPlaceholder(ResolvedCollection(r))
    ensures var r' := AfterGenerate(r, inf);
      ModelNameAttr(r', inf) == ModelNameAttr(r, inf) &&
      ResolvedModelName(r', inf) == ResolvedModelName(r, inf) &&
      ResolvedCollection(r') == ResolvedCollection(r) &&
      ResolvedNamespace(r') == ResolvedNamespace(r) &&
      ResolvedModelPath(r') == ResolvedModelPath(r) &&
      r'.tableName == r.tableName
  {
    assert ResolvedModelName(r, inf) == ModelNameAttr(r, inf);
  }
}
