/** The `schema:generate` console command: how `handle` turns the `--fields`
    option into field rows and resolves the other options into the record it
    creates. The generation calls that follow are not part of this module. */
module Command {
  import opened Php
  import opened Columns

  // ---------------------------------------------------------------------------
  // The --fields parser (lines 57-72)
  // ---------------------------------------------------------------------------

  /** The entry the parser appends for a name and a type: nullable, unique and
      index off and a null default; the keys it does not set are absent. */
  function ParsedRow(name: string, colType: string): FieldRow {
    FieldRow(Some(name), Some(colType), None, None, false, false, false, false, false, false, false, false)
  }

  /** The entry for one comma-separated segment. `[$name, $type] = explode(':', ...)`
      takes the text before the first colon and the text up to the next one;
      a segment without a colon has no second element, and the warning that
      raises stops the command, which is `None` here. */
  function SegmentEntry(segment: string): (e: Option<FieldRow>)
    ensures e.Some? <==> ':' in segment
  {
    var parts := Split(segment, ':');
    if |parts| < 2 then None else Some(ParsedRow(parts[0], parts[1]))
  }

  /** The entries of a list of segments, in order; `None` as soon as one
      segment has no entry. */
  function SegmentEntries(segments: seq<string>): Option<seq<FieldRow>>
    decreases |segments|
  {
    if segments == [] then Some([])
    else
      match SegmentEntries(segments[..|segments| - 1])
      case None => None
      case Some(rows) =>
        match SegmentEntry(segments[|segments| - 1])
        case None => None
        case Some(row) => Some(rows + [row])
  }

  /** The fields for a `--fields` value: none for an absent or PHP-empty
      value, otherwise one entry per comma-separated segment. */
  function FieldsOf(fieldsOption: Option<string>): (fields: Option<seq<FieldRow>>)
    ensures IsEmpty(fieldsOption) ==> fields == Some([])
  {
    if IsEmpty(fieldsOption) then Some([]) else SegmentEntries(Split(fieldsOption.value, ','))
  }

  /** The parser's loop. */
  method ParseFields(fieldsOption: Option<string>) returns (fields: Option<seq<FieldRow>>)
    ensures fields == FieldsOf(fieldsOption)
  {
    var rows: seq<FieldRow> := [];
    if !IsEmpty(fieldsOption) {
      var fieldsArray := Split(fieldsOption.value, ',');
      for i := 0 to |fieldsArray|
        invariant SegmentEntries(fieldsArray[..i]) == Some(rows)
      {
        assert fieldsArray[..i + 1][..i] == fieldsArray[..i];
        var parts := Split(fieldsArray[i], ':');
        if |parts| < 2 {
          SegmentEntriesStop(fieldsArray, i + 1);
          return None;
        }
        var name, colType := parts[0], parts[1];
        rows := rows + [ParsedRow(name, colType)];
      }
      assert fieldsArray[..|fieldsArray|] == fieldsArray;
    }
    return Some(rows);
  }

  /** Once a prefix has failed, the whole list fails. */
  lemma {:induction false} SegmentEntriesStop(segments: seq<string>, i: nat)
    requires i <= |segments|
    requires SegmentEntries(segments[..i]).None?
    ensures SegmentEntries(segments).None?
    decreases |segments| - i
  {
    if i == |segments| {
      assert segments[..i] == segments;
    } else {
      assert segments[..i + 1][..i] == segments[..i];
      SegmentEntriesStop(segments, i + 1);
    }
  }

  /** The entry of a segment with a colon. */
  function EntryOf(segment: string): FieldRow
    requires ':' in segment
  {
    SegmentEntry(segment).value
  }

  /** The parse succeeds exactly when every segment has a colon, and then it
      gives one entry per segment, in order. */
  lemma {:induction false} SegmentEntriesExactly(segments: seq<string>)
    ensures SegmentEntries(segments).Some? <==> forall k :: 0 <= k < |segments| ==> ':' in segments[k]
    ensures SegmentEntries(segments).Some? ==>
      var rows := SegmentEntries(segments).value;
      |rows| == |segments| && forall k :: 0 <= k < |segments| ==> rows[k] == EntryOf(segments[k])
    decreases |segments|
  {
    if segments != [] {
      var init, last := segments[..|segments| - 1], segments[|segments| - 1];
      SegmentEntriesExactly(init);
      if SegmentEntries(init).None? {
        var k :| 0 <= k < |init| && ':' !in init[k];
        assert segments[k] == init[k];
      }
    }
  }

  /** Every parsed entry has a name and a type and the parser's defaults. */
  lemma ParsedEntriesDefaults(fieldsOption: Option<string>)
    requires FieldsOf(fieldsOption).Some?
    ensures forall row :: row in FieldsOf(fieldsOption).value ==>
      row.field.Some? && row.colType.Some? && !row.nullable && !row.unique && !row.index
      && row.defaultValue.None? && row.length.None?
  {
    if !IsEmpty(fieldsOption) {
      var segments := Split(fieldsOption.value, ',');
      SegmentEntriesExactly(segments);
      var rows := FieldsOf(fieldsOption).value;
      forall row | row in rows
        ensures row.field.Some? && row.colType.Some? && !row.nullable && !row.unique && !row.index
          && row.defaultValue.None? && row.length.None?
      {
        var k :| 0 <= k < |rows| && rows[k] == row;
        assert row == EntryOf(segments[k]);
      }
    }
  }

  /** One field as written on the command line. */
  datatype FieldSpec = FieldSpec(name: string, colType: string)

  function SegmentText(f: FieldSpec): string {
    f.name + ":" + f.colType
  }

  /** The segments `name:type` of a list of fields. */
  function Segments(fs: seq<FieldSpec>): seq<string> {
    seq(|fs|, i requires 0 <= i < |fs| => SegmentText(fs[i]))
  }

  /** The `--fields` text `name:type,name:type,...` for a list of fields. */
  function FieldsText(fs: seq<FieldSpec>): string {
    Join(Segments(fs), ",")
  }

  predicate PlainField(f: FieldSpec) {
    ',' !in f.name && ':' !in f.name && ',' !in f.colType && ':' !in f.colType
  }

  /** Writing fields on the command line and parsing them gives them back,
      in order, as long as no name or type holds a separator. */
  lemma FieldsRoundTrip(fs: seq<FieldSpec>)
    requires |fs| >= 1
    requires forall k :: 0 <= k < |fs| ==> PlainField(fs[k])
    ensures FieldsOf(Some(FieldsText(fs))) ==
      Some(seq(|fs|, i requires 0 <= i < |fs| => ParsedRow(fs[i].name, fs[i].colType)))
  {
    var segments := Segments(fs);
    SplitFieldsText(fs);
    SegmentEntriesExactly(segments);
    var rows := SegmentEntries(segments).value;
    assert rows == seq(|fs|, i requires 0 <= i < |fs| => ParsedRow(fs[i].name, fs[i].colType));
  }

  /** The text splits back into its segments, each of which has a colon and
      gives the entry of its field. */
  lemma SplitFieldsText(fs: seq<FieldSpec>)
    requires |fs| >= 1
    requires forall k :: 0 <= k < |fs| ==> PlainField(fs[k])
    ensures !IsEmpty(Some(FieldsText(fs)))
    ensures Split(FieldsText(fs), ',') == Segments(fs)
    ensures forall k :: 0 <= k < |fs| ==>
      ':' in Segments(fs)[k] && EntryOf(Segments(fs)[k]) == ParsedRow(fs[k].name, fs[k].colType)
  {
    var segments := Segments(fs);
    forall k | 0 <= k < |fs|
      ensures ',' !in segments[k] && ':' in segments[k] && EntryOf(segments[k]) == ParsedRow(fs[k].name, fs[k].colType)
    {
      SegmentSplit(fs[k]);
    }
    SplitJoin(segments, ',');
  }

  lemma SegmentSplit(f: FieldSpec)
    requires PlainField(f)
    ensures var t := SegmentText(f);
      ',' !in t && ':' in t && Split(t, ':') == [f.name, f.colType]
  {
    var t := SegmentText(f);
    assert t[|f.name|] == ':';
    assert t == f.name + [':'] + f.colType;
    SplitAtFirstSeparator(f.name, ':', f.colType);
    SplitWithoutSeparator(f.colType, ':');
  }

  // ---------------------------------------------------------------------------
  // Option resolution (lines 52-55, 75-88)
  // ---------------------------------------------------------------------------

  /** The command line: the `table` argument and the options. A value option
      that was not given is `None`; a switch is a `bool`. */
  datatype CommandInput = CommandInput(
    table: string,
    fields: Option<string>,
    model: Option<string>,
    namespace: Option<string>,
    timestamps: bool,
    api: bool,
    factory: bool,
    policy: bool,
    controller: bool)

  /** The `schema.*` configuration; a key that is not configured is `None`. */
  datatype SchemaConfig = SchemaConfig(
    modelNamespace: Option<string>,
    timestamps: Option<bool>,
    fillable: Option<bool>,
    guarded: Option<bool>,
    softDeletes: Option<bool>)

  /** `config($key, $default)`. */
  function Configured(value: Option<bool>, default: bool): bool {
    if value.Some? then value.value else default
  }

  /** The attributes of the schema record the command creates. */
  datatype SchemaEntry = SchemaEntry(
    tableName: string,
    modelName: string,
    namespace: Option<string>,
    hasTimestamps: bool,
    hasFillable: bool,
    hasGuarded: bool,
    hasSoftDeletes: bool,
    schemaDefinition: seq<FieldRow>,
    factory: bool,
    policy: bool,
    controller: bool,
    api: bool)

  /** `$this->option('model') ?: Str::studly(Str::singular($tableName))`. */
  function ModelNameFor(input: CommandInput, inf: Inflector): string {
    if !IsEmpty(input.model) then input.model.value else inf.studly(inf.singular(input.table))
  }

  /** `$this->option('namespace') ?: config('schema.model_namespace')`. */
  function NamespaceFor(input: CommandInput, config: SchemaConfig): Option<string> {
    if !IsEmpty(input.namespace) then input.namespace else config.modelNamespace
  }

  /** The record the command creates, or `None` when the fields cannot be
      parsed. */
  function ResolvedSchema(input: CommandInput, config: SchemaConfig, inf: Inflector): Option<SchemaEntry> {
    match FieldsOf(input.fields)
    case None => None
    case Some(fields) =>
      Some(SchemaEntry(
        input.table,
        ModelNameFor(input, inf),
        NamespaceFor(input, config),
        input.timestamps || Configured(config.timestamps, true),
        Configured(config.fillable, true),
        Configured(config.guarded, false),
        Configured(config.softDeletes, false),
        fields,
        input.factory,
        input.policy,
        input.controller || input.api,
        input.api))
  }

  /** `handle` up to the creation of the record. */
  method ResolveSchema(input: CommandInput, config: SchemaConfig, inf: Inflector) returns (schema: Option<SchemaEntry>)
    ensures schema == ResolvedSchema(input, config, inf)
  {
    var tableName := input.table;
    var modelName := if !IsEmpty(input.model) then input.model.value else inf.studly(inf.singular(tableName));
    var namespace := if !IsEmpty(input.namespace) then input.namespace else config.modelNamespace;
    var timestamps := if input.timestamps then true else Configured(config.timestamps, true);
    var fields := ParseFields(input.fields);
    if fields.None? {
      return None;
    }
    schema := Some(SchemaEntry(
      tableName, modelName, namespace, timestamps,
      Configured(config.fillable, true),
      Configured(config.guarded, false),
      Configured(config.softDeletes, false),
      fields.value,
      input.factory, input.policy,
      input.controller || input.api,
      input.api));
  }

  /** What the created record says about the command line: the model name is
      the option when it is not empty and the table's singular studly form
      otherwise; the controller is generated for `--controller` or `--api`;
      timestamps are on for `--timestamps` whatever the configuration; the
      fields are the parsed `--fields`. */
  lemma ResolvedSchemaMeaning(input: CommandInput, config: SchemaConfig, inf: Inflector)
    requires ResolvedSchema(input, config, inf).Some?
    ensures var s := ResolvedSchema(input, config, inf).value;
      (IsEmpty(input.model) ==> s.modelName == inf.studly(inf.singular(input.table))) &&
      (!IsEmpty(input.model) ==> s.modelName == input.model.value) &&
      (s.controller <==> input.controller || input.api) &&
      (input.timestamps ==> s.hasTimestamps) &&
      (!input.timestamps ==> (s.hasTimestamps <==> Configured(config.timestamps, true))) &&
      Some(s.schemaDefinition) == FieldsOf(input.fields) &&
      s.tableName == input.table
  {
  }

  /** The command fails exactly when some segment of a non-empty `--fields`
      has no colon; without `--fields` it always creates a record with no
      fields. */
  lemma ResolvedSchemaFails(input: CommandInput, config: SchemaConfig, inf: Inflector)
    ensures ResolvedSchema(input, config, inf).None? <==>
      !IsEmpty(input.fields) && exists k :: 0 <= k < |Split(input.fields.value, ',')| && ':' !in Split(input.fields.value, ',')[k]
    ensures IsEmpty(input.fields) ==> ResolvedSchema(input, config, inf).value.schemaDefinition == []
  {
    assert ResolvedSchema(input, config, inf).None? <==> FieldsOf(input.fields).None?;
    if !IsEmpty(input.fields) {
      var segments := Split(input.fields.value, ',');
      assert FieldsOf(input.fields) == SegmentEntries(segments);
      SegmentEntriesExactly(segments);
      if SegmentEntries(segments).None? {
        var k :| 0 <= k < |segments| && ':' !in segments[k];
        assert ':' !in Split(input.fields.value, ',')[k];
      }
    }
  }
}
