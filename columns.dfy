/** The column renderer of `SchemaGenerator::buildSchemaCode`: one
    `$table->type('name', ...)` statement per field row of the schema
    definition.

    The renderer itself (`RenderFieldCode`, `BuildSchemaCode`) appends text
    step by step, as the source does. What it must produce is stated
    separately, as a structured value (`ColumnSpec`): the column's head call,
    the chain of calls after it and the optional separate foreign-key
    statement. Properties of the output are proved about that structure. */
module Columns {
  import opened Php

  /** One entry of `schema_definition`. A key that is absent or null is `None`;
      a flag is the PHP truthiness of its value. */
  datatype FieldRow = FieldRow(
    field: Option<string>,
    colType: Option<string>,
    length: Option<string>,
    defaultValue: Option<string>,
    unsigned: bool,
    nullable: bool,
    autoIncrement: bool,
    unique: bool,
    index: bool,
    constraint: bool,
    cascade: bool,
    updateCascade: bool)

  /** `isset($item['field']) && isset($item['type'])`: rows without both are skipped. */
  predicate Renderable(row: FieldRow) {
    row.field.Some? && row.colType.Some?
  }

  const LengthTypes: set<string> := {"string", "char", "decimal", "float", "double"}
  const PrecisionTypes: set<string> := {"decimal", "float", "double"}
  const NumericDefaultTypes: set<string> :=
    {"integer", "bigInteger", "smallInteger", "tinyInteger", "mediumInteger", "float", "double", "decimal"}

  /** The fixed order in which column modifiers are chained. */
  const ModifierOrder: seq<string> := ["unsigned", "nullable", "autoIncrement", "unique", "index"]

  /** Indentation of a statement inside the `Schema::create` closure. */
  const Indent: string := "            "

  // ---------------------------------------------------------------------------
  // Structured form of a rendered column
  // ---------------------------------------------------------------------------

  /** A method call `name(arg, arg, ...)`. */
  datatype Call = Call(name: string, args: seq<string>)

  /** `$table->head(...)->c1(...)->c2(...)`. */
  datatype Statement = Statement(head: Call, chain: seq<Call>)

  /** The column statement and, for a foreign-key constraint on a type other
      than foreignId, the separate `$table->foreign(...)` statement. */
  datatype ColumnCode = ColumnCode(column: Statement, foreignKey: Option<Statement>)

  function CallText(c: Call): string {
    c.name + "(" + Join(c.args, ", ") + ")"
  }

  function ChainText(cs: seq<Call>): string
    decreases |cs|
  {
    if cs == [] then "" else ChainText(cs[..|cs| - 1]) + "->" + CallText(cs[|cs| - 1])
  }

  function StatementText(st: Statement): string {
    "$table->" + CallText(st.head) + ChainText(st.chain)
  }

  function ColumnCodeText(cc: ColumnCode): string {
    StatementText(cc.column) +
    match cc.foreignKey
    case None => ""
    case Some(fk) => ";\n" + Indent + StatementText(fk)
  }

  /** The statement that ends the rendered code: the foreign-key statement if
      there is one, the column statement otherwise. */
  function LastStatement(cc: ColumnCode): Statement {
    if cc.foreignKey.Some? then cc.foreignKey.value else cc.column
  }

  predicate HasCall(cs: seq<Call>, name: string) {
    exists i :: 0 <= i < |cs| && cs[i].name == name
  }

  // ---------------------------------------------------------------------------
  // What each part of the column must be
  // ---------------------------------------------------------------------------

  /** The length arguments of the head call. A length is passed only for the
      length-bearing types and only when it is not PHP-empty; for the
      precision types a length holding a comma becomes two arguments,
      precision and scale, which are the first two comma-separated pieces. */
  function LengthArgs(colType: string, length: Option<string>): (r: seq<string>)
    ensures |r| == 0 <==> IsEmpty(length) || colType !in LengthTypes
    ensures |r| == 2 <==> !IsEmpty(length) && colType in PrecisionTypes && ',' in length.value
    ensures |r| == 1 ==> r == [length.value]
    ensures |r| == 2 ==>
      ',' !in r[0] && ',' !in r[1] &&
      (r[0] + "," + r[1] == length.value || r[0] + "," + r[1] + "," <= length.value)
  {
    if !IsEmpty(length) && colType in LengthTypes then
      if colType in PrecisionTypes && ',' in length.value then
        var parts := Split(length.value, ',');
        SplitPiecesAreSeparatorFree(length.value, ',');
        JoinSplit(length.value, ',');
        assert Join(parts, ",") == parts[0] + "," + Join(parts[1..], ",");
        assert |parts| > 2 ==> Join(parts[1..], ",") == parts[1] + "," + Join(parts[2..], ",");
        [parts[0], parts[1]]
      else
        [length.value]
    else
      []
  }

  function ModifierIsSet(row: FieldRow, name: string): bool {
    if name == "unsigned" then row.unsigned
    else if name == "nullable" then row.nullable
    else if name == "autoIncrement" then row.autoIncrement
    else if name == "unique" then row.unique
    else if name == "index" then row.index
    else false
  }

  /** The names among `names` whose flag is set, in the order of `names`. */
  function SelectModifiers(names: seq<string>, row: FieldRow): seq<string>
    decreases |names|
  {
    if names == [] then []
    else (if ModifierIsSet(row, names[0]) then [names[0]] else []) + SelectModifiers(names[1..], row)
  }

  function ModifierNames(row: FieldRow): seq<string> {
    SelectModifiers(ModifierOrder, row)
  }

  function NoArgCalls(names: seq<string>): (cs: seq<Call>)
    ensures |cs| == |names|
    ensures forall i :: 0 <= i < |names| ==> cs[i] == Call(names[i], [])
  {
    seq(|names|, i requires 0 <= i < |names| => Call(names[i], []))
  }

  function CascadeCalls(onDelete: bool, onUpdate: bool): seq<Call> {
    (if onDelete then [Call("onDelete", [Quote("cascade")])] else []) +
    (if onUpdate then [Call("onUpdate", [Quote("cascade")])] else [])
  }

  /** The short-form constrained reference on a foreignId column. With the
      constraint flag it is emitted only when singularising the name with
      `_id` stripped changes it; without the flag a cascade-on-delete or
      cascade-on-update flag alone implies it. */
  function ConstrainedCalls(row: FieldRow, inf: Inflector): seq<Call>
    requires Renderable(row)
  {
    var f := row.field.value;
    if row.colType.value != "foreignId" then []
    else if row.constraint then
      if inf.singular(StripIdSuffix(f)) != f
      then [Call("constrained", [])] + CascadeCalls(row.cascade, row.updateCascade)
      else []
    else if row.cascade || row.updateCascade then
      [Call("constrained", [])] + CascadeCalls(row.cascade, row.updateCascade)
    else []
  }

  /** The default literal is directed by the column type: booleans become a
      bare `true`/`false`, the numeric types take the raw text unquoted, every
      other type a single-quoted string. */
  function DefaultLiteral(colType: string, value: string): string {
    if colType == "boolean" then (if FilterBool(value) then "true" else "false")
    else if colType in NumericDefaultTypes then value
    else Quote(value)
  }

  /** `->default(...)` when a default is set and is not the empty string. */
  function DefaultCalls(row: FieldRow): seq<Call>
    requires Renderable(row)
  {
    if row.defaultValue.Some? && row.defaultValue.value != ""
    then [Call("default", [DefaultLiteral(row.colType.value, row.defaultValue.value)])]
    else []
  }

  /** The separate foreign-key declaration, referencing `id` on the table
      guessed by pluralising the name with `_id` stripped. */
  function ForeignStatement(row: FieldRow, inf: Inflector): Statement
    requires Renderable(row)
  {
    var f := row.field.value;
    Statement(Call("foreign", [Quote(f)]),
      [Call("references", [Quote("id")]), Call("on", [Quote(inf.plural(StripIdSuffix(f)))])]
      + CascadeCalls(row.cascade, row.updateCascade))
  }

  /** The column-type call, `type('name', ...length arguments)`. */
  function HeadCall(row: FieldRow): Call
    requires Renderable(row)
  {
    Call(row.colType.value, [Quote(row.field.value)] + LengthArgs(row.colType.value, row.length))
  }

  /** The column a renderable row must produce. The default call always comes
      last, so when a separate foreign-key statement is emitted it is that
      statement, not the column, that carries it. */
  function ColumnSpec(row: FieldRow, inf: Inflector): ColumnCode
    requires Renderable(row)
  {
    var head, modifiers := HeadCall(row), NoArgCalls(ModifierNames(row));
    if row.constraint && row.colType.value != "foreignId" then
      var fk := ForeignStatement(row, inf);
      ColumnCode(Statement(head, modifiers), Some(Statement(fk.head, fk.chain + DefaultCalls(row))))
    else
      ColumnCode(Statement(head, modifiers + ConstrainedCalls(row, inf) + DefaultCalls(row)), None)
  }

  /** The line a row contributes to the migration body; skipped rows give "". */
  function RowLine(row: FieldRow, inf: Inflector): string {
    if Renderable(row) then Indent + ColumnCodeText(ColumnSpec(row, inf)) + ";\n" else ""
  }

  /** The whole generated column block for a list of rows. */
  function SchemaCode(rows: seq<FieldRow>, inf: Inflector): string
    decreases |rows|
  {
    if rows == [] then "" else RowLine(rows[0], inf) + SchemaCode(rows[1..], inf)
  }

  // ---------------------------------------------------------------------------
  // Properties of the specification
  // ---------------------------------------------------------------------------

  predicate IsSubsequence(a: seq<string>, b: seq<string>)
    decreases |b|
  {
    a == [] || (b != [] && ((a[0] == b[0] && IsSubsequence(a[1..], b[1..])) || IsSubsequence(a, b[1..])))
  }

  lemma {:induction false} SelectModifiersSound(names: seq<string>, row: FieldRow)
    ensures forall n :: n in SelectModifiers(names, row) <==> n in names && ModifierIsSet(row, n)
    ensures IsSubsequence(SelectModifiers(names, row), names)
    decreases |names|
  {
    if names != [] {
      SelectModifiersSound(names[1..], row);
      var rest := SelectModifiers(names[1..], row);
      assert names == [names[0]] + names[1..];
      if ModifierIsSet(row, names[0]) {
        assert SelectModifiers(names, row) == [names[0]] + rest;
      } else {
        assert SelectModifiers(names, row) == rest;
        if rest != [] {
          assert IsSubsequence(rest, names[1..]);
        }
      }
    }
  }

  /** Each modifier is chained exactly when its flag is set, and the chained
      modifiers keep the fixed order unsigned, nullable, autoIncrement,
      unique, index. */
  lemma ModifiersFollowFlags(row: FieldRow)
    ensures "unsigned" in ModifierNames(row) <==> row.unsigned
    ensures "nullable" in ModifierNames(row) <==> row.nullable
    ensures "autoIncrement" in ModifierNames(row) <==> row.autoIncrement
    ensures "unique" in ModifierNames(row) <==> row.unique
    ensures "index" in ModifierNames(row) <==> row.index
    ensures IsSubsequence(ModifierNames(row), ModifierOrder)
    ensures forall n :: n in ModifierNames(row) ==> n in ModifierOrder
  {
    SelectModifiersSound(ModifierOrder, row);
  }

  /** A separate foreign-key statement is emitted exactly for a constraint on
      a type other than foreignId, and it references `id` on the pluralised
      stripped name, with the delete cascade before the update cascade. */
  lemma SeparateForeignKeyExactly(row: FieldRow, inf: Inflector)
    requires Renderable(row)
    ensures ColumnSpec(row, inf).foreignKey.Some? <==> row.constraint && row.colType.value != "foreignId"
    ensures ColumnSpec(row, inf).foreignKey.Some? ==>
      var fk := ColumnSpec(row, inf).foreignKey.value;
      var f := row.field.value;
      fk.head == Call("foreign", [Quote(f)]) &&
      fk.chain == [Call("references", [Quote("id")]), Call("on", [Quote(inf.plural(StripIdSuffix(f)))])]
        + CascadeCalls(row.cascade, row.updateCascade) + DefaultCalls(row)
  {
  }

  lemma HasCallAppend(a: seq<Call>, b: seq<Call>, name: string)
    ensures HasCall(a + b, name) <==> HasCall(a, name) || HasCall(b, name)
  {
    if HasCall(a + b, name) {
      var i :| 0 <= i < |a + b| && (a + b)[i].name == name;
      if i >= |a| {
        assert b[i - |a|].name == name;
      }
    }
    if HasCall(a, name) {
      var j :| 0 <= j < |a| && a[j].name == name;
      assert (a + b)[j].name == name;
    }
    if HasCall(b, name) {
      var j :| 0 <= j < |b| && b[j].name == name;
      assert (a + b)[|a| + j].name == name;
    }
  }

  /** Every call of the modifier part is named after one of the five modifiers. */
  lemma ModifierCallsAreModifiers(row: FieldRow, name: string)
    requires name !in ModifierOrder
    ensures !HasCall(NoArgCalls(ModifierNames(row)), name)
  {
    ModifiersFollowFlags(row);
  }

  /** The chain of the column statement, part by part. */
  lemma ColumnChain(row: FieldRow, inf: Inflector)
    requires Renderable(row)
    ensures ColumnSpec(row, inf).column.chain ==
      if row.constraint && row.colType.value != "foreignId" then NoArgCalls(ModifierNames(row))
      else NoArgCalls(ModifierNames(row)) + ConstrainedCalls(row, inf) + DefaultCalls(row)
  {
  }

  /** The column gets the short-form `constrained()` call exactly when it is a
      foreignId and either the constraint flag is set and the name does not
      follow the `_id` convention test, or the constraint flag is off and a
      cascade flag is on. */
  lemma ConstrainedExactly(row: FieldRow, inf: Inflector)
    requires Renderable(row)
    ensures HasCall(ColumnSpec(row, inf).column.chain, "constrained") <==>
      row.colType.value == "foreignId" &&
      (if row.constraint then inf.singular(StripIdSuffix(row.field.value)) != row.field.value
       else row.cascade || row.updateCascade)
  {
    var mods := NoArgCalls(ModifierNames(row));
    var cons := ConstrainedCalls(row, inf);
    var dflt := DefaultCalls(row);
    ColumnChain(row, inf);
    ModifierCallsAreModifiers(row, "constrained");
    HasCallAppend(mods, cons, "constrained");
    HasCallAppend(mods + cons, dflt, "constrained");
    assert !HasCall(dflt, "constrained");
    assert HasCall(cons, "constrained") <==> cons != [] by {
      if cons != [] {
        assert cons[0].name == "constrained";
      }
    }
  }

  /** `t` is a suffix of `s`. */
  predicate EndsWith(s: string, t: string) {
    |t| <= |s| && s[|s| - |t|..] == t
  }

  /** The emitted text ends with the text of the last call of its last statement. */
  lemma TextEndsWithLastCall(cc: ColumnCode)
    requires |LastStatement(cc).chain| > 0
    ensures var ch := LastStatement(cc).chain;
      EndsWith(ColumnCodeText(cc), "->" + CallText(ch[|ch| - 1]))
  {
    var st := LastStatement(cc);
    var ch := st.chain;
    var tail := "->" + CallText(ch[|ch| - 1]);
    Php.SeqAssoc(ChainText(ch[..|ch| - 1]), "->", CallText(ch[|ch| - 1]));
    EndsWithConcat(ChainText(ch[..|ch| - 1]), tail);
    EndsWithPrefixed("$table->" + CallText(st.head), ChainText(ch), tail);
    match cc.foreignKey
    case None =>
      assert ColumnCodeText(cc) == StatementText(st) + "";
    case Some(fk) =>
      EndsWithPrefixed(";\n" + Indent, StatementText(fk), tail);
      EndsWithPrefixed(StatementText(cc.column), ";\n" + Indent + StatementText(fk), tail);
  }

  lemma EndsWithConcat(s: string, t: string)
    ensures EndsWith(s + t, t)
  {
    assert (s + t)[|s + t| - |t|..] == t;
  }

  lemma EndsWithPrefixed(p: string, s: string, t: string)
    requires EndsWith(s, t)
    ensures EndsWith(p + s, t)
  {
    assert (p + s)[|p + s| - |t|..] == s[|s| - |t|..];
  }

  /** The chain of the last statement is the default call, if any, after calls
      none of which is named `default`. */
  lemma LastChain(row: FieldRow, inf: Inflector) returns (before: seq<Call>)
    requires Renderable(row)
    ensures LastStatement(ColumnSpec(row, inf)).chain == before + DefaultCalls(row)
    ensures !HasCall(before, "default")
  {
    if row.constraint && row.colType.value != "foreignId" {
      var fk := ForeignStatement(row, inf);
      before := fk.chain;
      assert ColumnSpec(row, inf).foreignKey == Some(Statement(fk.head, fk.chain + DefaultCalls(row)));
      ForeignChainLacks(inf.plural(StripIdSuffix(row.field.value)), row.cascade, row.updateCascade, "default");
    } else {
      var mods := NoArgCalls(ModifierNames(row));
      before := mods + ConstrainedCalls(row, inf);
      ColumnChain(row, inf);
      ModifierCallsAreModifiers(row, "default");
      ConstrainedLacks(row, inf, "default");
      HasCallAppend(mods, ConstrainedCalls(row, inf), "default");
    }
  }

  lemma CascadeLacks(onDelete: bool, onUpdate: bool, name: string)
    requires name != "onDelete" && name != "onUpdate"
    ensures !HasCall(CascadeCalls(onDelete, onUpdate), name)
  {
  }

  lemma ConstrainedLacks(row: FieldRow, inf: Inflector, name: string)
    requires Renderable(row)
    requires name != "constrained" && name != "onDelete" && name != "onUpdate"
    ensures !HasCall(ConstrainedCalls(row, inf), name)
  {
    var cons := ConstrainedCalls(row, inf);
    if cons != [] {
      CascadeLacks(row.cascade, row.updateCascade, name);
      HasCallAppend([Call("constrained", [])], CascadeCalls(row.cascade, row.updateCascade), name);
    }
  }

  lemma ForeignChainLacks(p: string, onDelete: bool, onUpdate: bool, name: string)
    requires name != "references" && name != "on" && name != "onDelete" && name != "onUpdate"
    ensures !HasCall([Call("references", [Quote("id")]), Call("on", [Quote(p)])] + CascadeCalls(onDelete, onUpdate), name)
  {
    CascadeLacks(onDelete, onUpdate, name);
    HasCallAppend([Call("references", [Quote("id")]), Call("on", [Quote(p)])], CascadeCalls(onDelete, onUpdate), name);
  }

  /** A default is rendered exactly when it is set and not "", always as the
      very last call of the last statement: after a separate foreign-key
      statement when there is one. */
  lemma DefaultComesLast(row: FieldRow, inf: Inflector)
    requires Renderable(row)
    ensures var last := LastStatement(ColumnSpec(row, inf));
      (|last.chain| > 0 && last.chain[|last.chain| - 1].name == "default") <==>
        row.defaultValue.Some? && row.defaultValue.value != ""
    ensures row.defaultValue.Some? && row.defaultValue.value != "" ==>
      var last := LastStatement(ColumnSpec(row, inf));
      |last.chain| > 0 &&
      last.chain[|last.chain| - 1] == Call("default", [DefaultLiteral(row.colType.value, row.defaultValue.value)])
  {
    var before := LastChain(row, inf);
    if DefaultCalls(row) == [] && |before| > 0 {
      assert before[|before| - 1].name != "default";
    }
  }

  lemma EndsWithCall(cc: ColumnCode, c: Call)
    requires var ch := LastStatement(cc).chain; |ch| > 0 && ch[|ch| - 1] == c
    ensures EndsWith(ColumnCodeText(cc), "->" + CallText(c))
  {
    TextEndsWithLastCall(cc);
  }

  /** At text level: a rendered default is the final `->default(...)` of the
      emitted code. */
  lemma DefaultTextAtEnd(row: FieldRow, inf: Inflector)
    requires Renderable(row)
    requires row.defaultValue.Some? && row.defaultValue.value != ""
    ensures EndsWith(ColumnCodeText(ColumnSpec(row, inf)),
      "->default(" + DefaultLiteral(row.colType.value, row.defaultValue.value) + ")")
  {
    var lit := DefaultLiteral(row.colType.value, row.defaultValue.value);
    var c := Call("default", [lit]);
    DefaultComesLast(row, inf);
    EndsWithCall(ColumnSpec(row, inf), c);
    DefaultCallText(lit);
  }

  lemma DefaultCallText(lit: string)
    ensures "->" + CallText(Call("default", [lit])) == "->default(" + lit + ")"
  {
  }

  /** The literal of a default: `true`/`false` for booleans, the raw text for
      the numeric types, a quoted string otherwise. */
  lemma DefaultLiteralByType(colType: string, value: string)
    ensures colType == "boolean" ==>
      (DefaultLiteral(colType, value) == "true" <==> FilterBool(value)) &&
      (DefaultLiteral(colType, value) == "false" <==> !FilterBool(value))
    ensures colType in NumericDefaultTypes ==> DefaultLiteral(colType, value) == value
    ensures colType != "boolean" && colType !in NumericDefaultTypes ==> DefaultLiteral(colType, value) == Quote(value)
  {
  }

  /** The generated block of a concatenation of row lists is the concatenation
      of their blocks: rows are rendered in input order, independently. */
  lemma {:induction false} SchemaCodeAppend(a: seq<FieldRow>, b: seq<FieldRow>, inf: Inflector)
    ensures SchemaCode(a + b, inf) == SchemaCode(a, inf) + SchemaCode(b, inf)
    decreases |a|
  {
    if a == [] {
      assert a + b == b;
    } else {
      var line := RowLine(a[0], inf);
      assert (a + b)[0] == a[0];
      assert (a + b)[1..] == a[1..] + b;
      SchemaCodeAppend(a[1..], b, inf);
      calc {
        SchemaCode(a + b, inf);
        line + SchemaCode(a[1..] + b, inf);
        line + (SchemaCode(a[1..], inf) + SchemaCode(b, inf));
        { SeqAssoc(line, SchemaCode(a[1..], inf), SchemaCode(b, inf)); }
        line + SchemaCode(a[1..], inf) + SchemaCode(b, inf);
      }
    }
  }

  /** A single row contributes nothing when it lacks its field or type, and
      otherwise exactly `Indent + code + ";\n"`. */
  lemma SchemaCodeOfOneRow(row: FieldRow, inf: Inflector)
    ensures !Renderable(row) ==> SchemaCode([row], inf) == ""
    ensures Renderable(row) ==> SchemaCode([row], inf) == Indent + ColumnCodeText(ColumnSpec(row, inf)) + ";\n"
  {
    assert [row][1..] == [];
  }

  // ---------------------------------------------------------------------------
  // The renderer, step by step
  // ---------------------------------------------------------------------------

  lemma ChainSnoc(cs: seq<Call>, c: Call)
    ensures ChainText(cs + [c]) == ChainText(cs) + "->" + CallText(c)
  {
    assert (cs + [c])[..|cs|] == cs;
  }

  lemma {:induction false} ChainAppend(a: seq<Call>, b: seq<Call>)
    ensures ChainText(a + b) == ChainText(a) + ChainText(b)
    decreases |b|
  {
    if b == [] {
      assert a + b == a;
    } else {
      var b', c := b[..|b| - 1], b[|b| - 1];
      assert b == b' + [c];
      assert a + b == (a + b') + [c];
      ChainAppend(a, b');
      ChainSnoc(a + b', c);
      ChainSnoc(b', c);
      SeqAssoc(ChainText(a), ChainText(b'), "->" + CallText(c));
    }
  }

  lemma OnDeleteText()
    ensures "->" + CallText(Call("onDelete", [Quote("cascade")])) == "->onDelete('cascade')"
  {
  }

  lemma OnUpdateText()
    ensures "->" + CallText(Call("onUpdate", [Quote("cascade")])) == "->onUpdate('cascade')"
  {
  }

  lemma CascadeText(onDelete: bool, onUpdate: bool)
    ensures ChainText(CascadeCalls(onDelete, onUpdate)) ==
      (if onDelete then "->onDelete('cascade')" else "") + (if onUpdate then "->onUpdate('cascade')" else "")
  {
    var d := Call("onDelete", [Quote("cascade")]);
    var u := Call("onUpdate", [Quote("cascade")]);
    OnDeleteText();
    OnUpdateText();
    if onDelete && onUpdate {
      assert CascadeCalls(onDelete, onUpdate) == [d] + [u];
      ChainSnoc([], d);
      ChainSnoc([d], u);
    } else if onDelete {
      assert CascadeCalls(onDelete, onUpdate) == [d];
      ChainSnoc([], d);
    } else if onUpdate {
      assert CascadeCalls(onDelete, onUpdate) == [u];
      ChainSnoc([], u);
    } else {
      assert CascadeCalls(onDelete, onUpdate) == [];
    }
  }

  /** The text of `constrained()` followed by the cascades. */
  lemma ConstrainedText(onDelete: bool, onUpdate: bool)
    ensures ChainText([Call("constrained", [])] + CascadeCalls(onDelete, onUpdate)) ==
      "->constrained()" + (if onDelete then "->onDelete('cascade')" else "") + (if onUpdate then "->onUpdate('cascade')" else "")
  {
    ChainSnoc([], Call("constrained", []));
    ChainAppend([Call("constrained", [])], CascadeCalls(onDelete, onUpdate));
    CascadeText(onDelete, onUpdate);
  }

  // Text of single calls, each fact proved on its own.

  lemma ReferencesIdText()
    ensures "->" + CallText(Call("references", [Quote("id")])) == "->references('id')"
  {
  }

  lemma OnTableText(p: string)
    ensures "->" + CallText(Call("on", [Quote(p)])) == "->on('" + p + "')"
  {
  }

  lemma ForeignHeadText(f: string)
    ensures "$table->" + CallText(Call("foreign", [Quote(f)])) == "$table->foreign('" + f + "')"
  {
  }

  lemma ReferencesOnText(p: string)
    ensures "->references('id')" + ("->on('" + p + "')") == "->references('id')->on('" + p + "')"
  {
  }

  /** The text of the foreign-key statement without its default. */
  lemma ForeignText(row: FieldRow, inf: Inflector)
    requires Renderable(row)
    ensures var f := row.field.value;
      StatementText(ForeignStatement(row, inf)) ==
        "$table->foreign('" + f + "')" + "->references('id')->on('" + inf.plural(StripIdSuffix(f)) + "')" +
        ((if row.cascade then "->onDelete('cascade')" else "") + (if row.updateCascade then "->onUpdate('cascade')" else ""))
  {
    ForeignStatementText(row.field.value, inf.plural(StripIdSuffix(row.field.value)), row.cascade, row.updateCascade);
  }

  lemma ForeignStatementText(f: string, p: string, onDelete: bool, onUpdate: bool)
    ensures StatementText(Statement(Call("foreign", [Quote(f)]),
        [Call("references", [Quote("id")]), Call("on", [Quote(p)])] + CascadeCalls(onDelete, onUpdate))) ==
      "$table->foreign('" + f + "')" + "->references('id')->on('" + p + "')" +
      ((if onDelete then "->onDelete('cascade')" else "") + (if onUpdate then "->onUpdate('cascade')" else ""))
  {
    var r := Call("references", [Quote("id")]);
    var o := Call("on", [Quote(p)]);
    var casc := CascadeCalls(onDelete, onUpdate);
    var cascText := (if onDelete then "->onDelete('cascade')" else "") + (if onUpdate then "->onUpdate('cascade')" else "");
    ReferencesOnChain(p);
    ChainAppend([r, o], casc);
    CascadeText(onDelete, onUpdate);
    ForeignHeadText(f);
    SeqAssoc("$table->foreign('" + f + "')", "->references('id')->on('" + p + "')", cascText);
  }

  lemma ReferencesOnChain(p: string)
    ensures ChainText([Call("references", [Quote("id")]), Call("on", [Quote(p)])]) == "->references('id')->on('" + p + "')"
  {
    var r := Call("references", [Quote("id")]);
    var o := Call("on", [Quote(p)]);
    assert [r, o] == [r] + [o];
    ChainSnoc([r], o);
    ChainSnoc([], r);
    ReferencesIdText();
    OnTableText(p);
    ReferencesOnText(p);
  }

  /** The emitted text, piece by piece: head, modifiers, then either the
      constrained chain on the column or the separate foreign-key statement,
      then the default. */
  lemma ColumnCodeTextParts(row: FieldRow, inf: Inflector)
    requires Renderable(row)
    ensures ColumnCodeText(ColumnSpec(row, inf)) ==
      "$table->" + CallText(HeadCall(row)) + ChainText(NoArgCalls(ModifierNames(row))) +
      ConstraintText(row, inf) + ChainText(DefaultCalls(row))
  {
    var mods := NoArgCalls(ModifierNames(row));
    var dflt := DefaultCalls(row);
    if row.constraint && row.colType.value != "foreignId" {
      var fs := ForeignStatement(row, inf);
      assert ColumnSpec(row, inf) == ColumnCode(Statement(HeadCall(row), mods), Some(Statement(fs.head, fs.chain + dflt)));
      SeparateStatementText(HeadCall(row), mods, fs, dflt);
    } else {
      var cons := ConstrainedCalls(row, inf);
      assert ColumnSpec(row, inf) == ColumnCode(Statement(HeadCall(row), mods + cons + dflt), None);
      InlineStatementText(HeadCall(row), mods, cons, dflt);
    }
  }

  /** The text of a column with a separate foreign-key statement that carries
      the default. */
  lemma SeparateStatementText(head: Call, mods: seq<Call>, fs: Statement, dflt: seq<Call>)
    ensures ColumnCodeText(ColumnCode(Statement(head, mods), Some(Statement(fs.head, fs.chain + dflt)))) ==
      "$table->" + CallText(head) + ChainText(mods) + (";\n" + Indent + StatementText(fs)) + ChainText(dflt)
  {
    var h := "$table->" + CallText(head) + ChainText(mods);
    var fh := "$table->" + CallText(fs.head);
    ChainAppend(fs.chain, dflt);
    calc {
      ColumnCodeText(ColumnCode(Statement(head, mods), Some(Statement(fs.head, fs.chain + dflt))));
      h + (";\n" + Indent + (fh + ChainText(fs.chain + dflt)));
      h + (";\n" + Indent + (fh + (ChainText(fs.chain) + ChainText(dflt))));
      { SeqAssoc(fh, ChainText(fs.chain), ChainText(dflt)); }
      h + (";\n" + Indent + (fh + ChainText(fs.chain) + ChainText(dflt)));
      { SeqAssoc(";\n" + Indent, fh + ChainText(fs.chain), ChainText(dflt)); }
      h + (";\n" + Indent + (fh + ChainText(fs.chain)) + ChainText(dflt));
      { SeqAssoc(h, ";\n" + Indent + (fh + ChainText(fs.chain)), ChainText(dflt)); }
      h + (";\n" + Indent + StatementText(fs)) + ChainText(dflt);
    }
  }

  /** The text of a column whose constrained chain and default sit on the
      column statement itself. */
  lemma InlineStatementText(head: Call, mods: seq<Call>, cons: seq<Call>, dflt: seq<Call>)
    ensures ColumnCodeText(ColumnCode(Statement(head, mods + cons + dflt), None)) ==
      "$table->" + CallText(head) + ChainText(mods) + ChainText(cons) + ChainText(dflt)
  {
    var h := "$table->" + CallText(head);
    ChainAppend(mods + cons, dflt);
    ChainAppend(mods, cons);
    calc {
      ColumnCodeText(ColumnCode(Statement(head, mods + cons + dflt), None));
      h + ChainText(mods + cons + dflt) + "";
      h + (ChainText(mods) + ChainText(cons) + ChainText(dflt));
      { SeqAssoc(h, ChainText(mods) + ChainText(cons), ChainText(dflt));
        SeqAssoc(h, ChainText(mods), ChainText(cons)); }
      h + ChainText(mods) + ChainText(cons) + ChainText(dflt);
    }
  }

  lemma NoArgSnoc(cs: seq<Call>, name: string)
    ensures ChainText(cs + [Call(name, [])]) == ChainText(cs) + ("->" + name + "()")
  {
    ChainSnoc(cs, Call(name, []));
    NoArgCallText(name);
    Php.SeqAssoc(ChainText(cs), "->", CallText(Call(name, [])));
  }

  lemma NoArgCallText(name: string)
    ensures "->" + CallText(Call(name, [])) == "->" + name + "()"
  {
    assert Join([], ", ") == "";
  }

  /** The modifier flags, read in their fixed order. */
  lemma ModifierNamesUnfold(row: FieldRow)
    ensures ModifierNames(row) ==
      [] + (if row.unsigned then ["unsigned"] else []) + (if row.nullable then ["nullable"] else []) +
      (if row.autoIncrement then ["autoIncrement"] else []) + (if row.unique then ["unique"] else []) +
      (if row.index then ["index"] else [])
  {
    var o := ModifierOrder;
    assert o[0] == "unsigned" && o[1..][0] == "nullable" && o[1..][1..][0] == "autoIncrement";
    assert o[1..][1..][1..][0] == "unique" && o[1..][1..][1..][1..][0] == "index";
    assert o[1..][1..][1..][1..][1..] == [];
    var s4 := SelectModifiers(o[1..][1..][1..][1..], row);
    assert SelectModifiers(o[1..][1..][1..][1..][1..], row) == [];
    assert s4 == (if row.index then ["index"] else []) + [];
    assert s4 == (if row.index then ["index"] else []);
    var s3 := SelectModifiers(o[1..][1..][1..], row);
    assert s3 == (if row.unique then ["unique"] else []) + s4;
    var s2 := SelectModifiers(o[1..][1..], row);
    assert s2 == (if row.autoIncrement then ["autoIncrement"] else []) + s3;
    var s1 := SelectModifiers(o[1..], row);
    assert s1 == (if row.nullable then ["nullable"] else []) + s2;
    var a, b, c, d, e := (if row.unsigned then ["unsigned"] else []), (if row.nullable then ["nullable"] else []),
      (if row.autoIncrement then ["autoIncrement"] else []), (if row.unique then ["unique"] else []),
      (if row.index then ["index"] else []);
    assert SelectModifiers(o, row) == a + (b + (c + (d + e)));
    SeqAssoc(a, b, c + (d + e));
    SeqAssoc(a + b, c, d + e);
    SeqAssoc(a + b + c, d, e);
    assert [] + a == a;
  }

  lemma NoArgCallsSnoc(names: seq<string>, n: string)
    ensures NoArgCalls(names + [n]) == NoArgCalls(names) + [Call(n, [])]
  {
  }

  lemma HeadTextNoLength(t: string, f: string)
    ensures "$table->" + CallText(Call(t, [Quote(f)])) == "$table->" + t + "('" + f + "')"
  {
  }

  lemma HeadTextLength(t: string, f: string, len: string)
    ensures "$table->" + CallText(Call(t, [Quote(f), len])) == "$table->" + t + "('" + f + "', " + len + ")"
  {
    assert Join([Quote(f), len], ", ") == Quote(f) + ", " + len by {
      assert [Quote(f), len][1..] == [len];
    }
  }

  lemma HeadTextPrecision(t: string, f: string, precision: string, scale: string)
    ensures "$table->" + CallText(Call(t, [Quote(f), precision, scale])) ==
      "$table->" + t + "('" + f + "', " + precision + ", " + scale + ")"
  {
    assert Join([Quote(f), precision, scale], ", ") == Quote(f) + ", " + precision + ", " + scale by {
      assert [Quote(f), precision, scale][1..] == [precision, scale];
      assert [precision, scale][1..] == [scale];
      assert Join([precision, scale], ", ") == precision + ", " + scale;
    }
  }

  /** The type call with its length parameters (lines 204-215). */
  method RenderHead(row: FieldRow) returns (code: string)
    requires Renderable(row)
    ensures code == "$table->" + CallText(HeadCall(row))
  {
    var field, colType := row.field.value, row.colType.value;
    if !IsEmpty(row.length) && colType in LengthTypes {
      if colType in PrecisionTypes && ',' in row.length.value {
        var parts := Split(row.length.value, ',');
        var precision, scale := parts[0], parts[1];
        code := "$table->" + colType + "('" + field + "', " + precision + ", " + scale + ")";
        HeadTextPrecision(colType, field, precision, scale);
      } else {
        code := "$table->" + colType + "('" + field + "', " + row.length.value + ")";
        HeadTextLength(colType, field, row.length.value);
      }
    } else {
      code := "$table->" + colType + "('" + field + "')";
      HeadTextNoLength(colType, field);
    }
  }

  /** The modifiers, chained in their fixed order (lines 217-236). */
  method AppendModifiers(row: FieldRow, code: string) returns (fieldCode: string)
    ensures fieldCode == code + ChainText(NoArgCalls(ModifierNames(row)))
  {
    ModifierCallTexts();
    fieldCode := code;
    ghost var names: seq<string> := [];
    assert fieldCode == code + ChainText(NoArgCalls(names));
    AppendNoArg(code, fieldCode, names, "unsigned", row.unsigned);
    if row.unsigned {
      fieldCode := fieldCode + "->unsigned()";
    }
    names := names + (if row.unsigned then ["unsigned"] else []);
    assert fieldCode == code + ChainText(NoArgCalls(names));
    AppendNoArg(code, fieldCode, names, "nullable", row.nullable);
    if row.nullable {
      fieldCode := fieldCode + "->nullable()";
    }
    names := names + (if row.nullable then ["nullable"] else []);
    assert fieldCode == code + ChainText(NoArgCalls(names));
    AppendNoArg(code, fieldCode, names, "autoIncrement", row.autoIncrement);
    if row.autoIncrement {
      fieldCode := fieldCode + "->autoIncrement()";
    }
    names := names + (if row.autoIncrement then ["autoIncrement"] else []);
    assert fieldCode == code + ChainText(NoArgCalls(names));
    AppendNoArg(code, fieldCode, names, "unique", row.unique);
    if row.unique {
      fieldCode := fieldCode + "->unique()";
    }
    names := names + (if row.unique then ["unique"] else []);
    assert fieldCode == code + ChainText(NoArgCalls(names));
    AppendNoArg(code, fieldCode, names, "index", row.index);
    if row.index {
      fieldCode := fieldCode + "->index()";
    }
    names := names + (if row.index then ["index"] else []);
    ModifierNamesUnfold(row);
    assert names == ModifierNames(row);
  }

  lemma ModifierCallTexts()
    ensures "->" + "unsigned" + "()" == "->unsigned()"
    ensures "->" + "nullable" + "()" == "->nullable()"
    ensures "->" + "autoIncrement" + "()" == "->autoIncrement()"
    ensures "->" + "unique" + "()" == "->unique()"
    ensures "->" + "index" + "()" == "->index()"
  {
  }

  /** Appending a modifier whose flag is set keeps the text equal to the
      chain's text; one whose flag is clear changes neither. */
  lemma AppendNoArg(code: string, fieldCode: string, names: seq<string>, name: string, set_: bool)
    requires fieldCode == code + ChainText(NoArgCalls(names))
    ensures (if set_ then fieldCode + ("->" + name + "()") else fieldCode) ==
      code + ChainText(NoArgCalls(names + (if set_ then [name] else [])))
  {
    if set_ {
      var cs := NoArgCalls(names);
      NoArgCallsSnoc(names, name);
      NoArgSnoc(cs, name);
      Php.SeqAssoc(code, ChainText(cs), "->" + name + "()");
    } else {
      assert names + [] == names;
    }
  }

  /** The default value, type-directed, always last (lines 288-302). */
  method AppendDefault(row: FieldRow, code: string) returns (fieldCode: string)
    requires Renderable(row)
    ensures fieldCode == code + ChainText(DefaultCalls(row))
  {
    fieldCode := code;
    if row.defaultValue.Some? && row.defaultValue.value != "" {
      var colType := row.colType.value;
      var defaultValue: string;
      if colType == "boolean" {
        defaultValue := if FilterBool(row.defaultValue.value) then "true" else "false";
        fieldCode := fieldCode + "->default(" + defaultValue + ")";
      } else if colType in NumericDefaultTypes {
        defaultValue := row.defaultValue.value;
        fieldCode := fieldCode + "->default(" + defaultValue + ")";
      } else {
        defaultValue := row.defaultValue.value;
        fieldCode := fieldCode + "->default('" + defaultValue + "')";
        QuotedDefaultText(code, defaultValue);
      }
      DefaultAppendText(code, DefaultLiteral(colType, row.defaultValue.value));
    } else {
      assert DefaultCalls(row) == [];
    }
  }

  lemma DefaultAppendText(code: string, lit: string)
    ensures code + ChainText([Call("default", [lit])]) == code + "->default(" + lit + ")"
  {
    ChainSnoc([], Call("default", [lit]));
    DefaultCallText(lit);
  }

  lemma QuotedDefaultText(code: string, v: string)
    ensures code + "->default('" + v + "')" == code + "->default(" + Quote(v) + ")"
  {
  }

  /** What the foreign-key handling appends to the column statement: the
      separate foreign-key statement, or the constrained chain (possibly empty). */
  function ConstraintText(row: FieldRow, inf: Inflector): string
    requires Renderable(row)
  {
    if row.constraint && row.colType.value != "foreignId"
    then ";\n" + Indent + StatementText(ForeignStatement(row, inf))
    else ChainText(ConstrainedCalls(row, inf))
  }

  /** The foreign-key handling, in the three branches of the source
      (lines 238-286). */
  method AppendConstraint(row: FieldRow, inf: Inflector, code: string) returns (fieldCode: string)
    requires Renderable(row)
    ensures fieldCode == code + ConstraintText(row, inf)
  {
    var field, colType := row.field.value, row.colType.value;
    fieldCode := code;
    if row.constraint {
      if colType == "foreignId" {
        var relationTable := inf.singular(StripIdSuffix(field));
        if relationTable != field {
          var constrainedCode := ConstrainedChain(row.cascade, row.updateCascade);
          assert constrainedCode == ConstraintText(row, inf);
          fieldCode := fieldCode + constrainedCode;
        } else {
          EmptyChainText(code);
        }
      } else {
        var constraintCode := ForeignKeyStatement(field, inf.plural(StripIdSuffix(field)), row.cascade, row.updateCascade);
        assert constraintCode == StatementText(ForeignStatement(row, inf));
        StatementSeparatorText(code, constraintCode);
        fieldCode := fieldCode + ";\n            " + constraintCode;
      }
    } else if row.cascade && colType == "foreignId" {
      fieldCode := fieldCode + "->constrained()->onDelete('cascade')";
      if row.updateCascade {
        fieldCode := fieldCode + "->onUpdate('cascade')";
      }
      ConstrainedCascadeSteps(code, row.updateCascade);
    } else if row.updateCascade && colType == "foreignId" {
      ConstrainedText(false, true);
      ConstrainedOnUpdateText();
      fieldCode := fieldCode + "->constrained()->onUpdate('cascade')";
    } else {
      EmptyChainText(code);
    }
  }

  /** The `constrained()` chain of a `foreignId` column whose name is not
      its own singular (lines 245-254). */
  method ConstrainedChain(onDelete: bool, onUpdate: bool) returns (constrainedCode: string)
    ensures constrainedCode == ChainText([Call("constrained", [])] + CascadeCalls(onDelete, onUpdate))
  {
    constrainedCode := "->constrained()";
    if onDelete {
      constrainedCode := constrainedCode + "->onDelete('cascade')";
    }
    if onUpdate {
      constrainedCode := constrainedCode + "->onUpdate('cascade')";
    }
    ConstrainedText(onDelete, onUpdate);
    CascadeAppendText("->constrained()", onDelete, onUpdate);
  }

  /** The separate `$table->foreign(...)` statement of a constrained column
      that is not a `foreignId` (lines 260-272). */
  method ForeignKeyStatement(field: string, relationTable: string, onDelete: bool, onUpdate: bool)
    returns (constraintCode: string)
    ensures constraintCode == StatementText(Statement(Call("foreign", [Quote(field)]),
      [Call("references", [Quote("id")]), Call("on", [Quote(relationTable)])] + CascadeCalls(onDelete, onUpdate)))
  {
    constraintCode := "$table->foreign('" + field + "')";
    constraintCode := constraintCode + "->references('id')->on('" + relationTable + "')";
    if onDelete {
      constraintCode := constraintCode + "->onDelete('cascade')";
    }
    if onUpdate {
      constraintCode := constraintCode + "->onUpdate('cascade')";
    }
    ForeignStatementText(field, relationTable, onDelete, onUpdate);
    CascadeAppendText("$table->foreign('" + field + "')" + "->references('id')->on('" + relationTable + "')",
      onDelete, onUpdate);
  }

  lemma ConstrainedCascadeSteps(code: string, onUpdate: bool)
    ensures (var d := code + "->constrained()->onDelete('cascade')";
             if onUpdate then d + "->onUpdate('cascade')" else d) ==
      code + ChainText([Call("constrained", [])] + CascadeCalls(true, onUpdate))
  {
    ConstrainedText(true, onUpdate);
    ConstrainedOnDeleteText();
  }

  /** Renders one row's statement (the body of the row loop of
      `buildSchemaCode`, lines 201-302) by appending to `fieldCode`. */
  method RenderFieldCode(row: FieldRow, inf: Inflector) returns (fieldCode: string)
    requires Renderable(row)
    ensures fieldCode == ColumnCodeText(ColumnSpec(row, inf))
  {
    fieldCode := RenderHead(row);
    fieldCode := AppendModifiers(row, fieldCode);
    fieldCode := AppendConstraint(row, inf, fieldCode);
    fieldCode := AppendDefault(row, fieldCode);
    ColumnCodeTextParts(row, inf);
  }

  /** Appending the cascades one by one, as the renderer does, gives the
      text of both at once. */
  lemma CascadeAppendText(s: string, onDelete: bool, onUpdate: bool)
    ensures
      (var d := if onDelete then s + "->onDelete('cascade')" else s;
       if onUpdate then d + "->onUpdate('cascade')" else d) ==
      s + ((if onDelete then "->onDelete('cascade')" else "") + (if onUpdate then "->onUpdate('cascade')" else ""))
  {
  }

  lemma EmptyChainText(code: string)
    ensures code + ChainText([]) == code
  {
  }

  lemma StatementSeparatorText(code: string, st: string)
    ensures code + ";\n            " + st == code + (";\n" + Indent + st)
  {
  }

  lemma ConstrainedOnDeleteText()
    ensures "->constrained()->onDelete('cascade')" == "->constrained()" + "->onDelete('cascade')"
  {
  }

  lemma ConstrainedOnUpdateText()
    ensures "->constrained()->onUpdate('cascade')" == "->constrained()" + "" + "->onUpdate('cascade')"
  {
  }

  /** `buildSchemaCode`: the loop over the schema definition, skipping rows
      without a field or a type and appending one indented, terminated
      statement per remaining row. */
  method BuildSchemaCode(rows: seq<FieldRow>, inf: Inflector) returns (code: string)
    ensures code == SchemaCode(rows, inf)
  {
    code := "";
    for i := 0 to |rows|
      invariant code == SchemaCode(rows[..i], inf)
    {
      var item := rows[i];
      SchemaCodeSnoc(rows, i, inf);
      if item.field.None? || item.colType.None? {
        continue;
      }
      var fieldCode := RenderFieldCode(item, inf);
      assert RowLine(item, inf) == "            " + fieldCode + ";\n";
      code := code + ("            " + fieldCode + ";\n");
    }
    assert rows[..|rows|] == rows;
  }

  lemma SchemaCodeSnoc(rows: seq<FieldRow>, i: nat, inf: Inflector)
    requires i < |rows|
    ensures SchemaCode(rows[..i + 1], inf) == SchemaCode(rows[..i], inf) + RowLine(rows[i], inf)
  {
    assert rows[..i + 1] == rows[..i] + [rows[i]];
    SchemaCodeAppend(rows[..i], [rows[i]], inf);
    SchemaCodeSingleton(rows[i], inf);
  }

  lemma SchemaCodeSingleton(row: FieldRow, inf: Inflector)
    ensures SchemaCode([row], inf) == RowLine(row, inf)
  {
    assert [row][0] == row;
    assert [row][1..] == [];
    assert SchemaCode([row], inf) == RowLine(row, inf) + SchemaCode([], inf);
  }
}
