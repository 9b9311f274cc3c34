/** The pieces of the admin resource (`SchemaGeneratorResource`) that compute
    something: the one-line summary of the schema in the records table, the
    label of a relationship entry, and the form callbacks that keep
    `has_fillable`/`has_guarded` exclusive and default a relationship's
    method name. */
module Resource {
  import opened Php
  import opened Columns
  import opened Relationships

  // ---------------------------------------------------------------------------
  // The `schema_definition` column summary (lines 335-389)
  // ---------------------------------------------------------------------------

  /** The column's state: an array of field rows, or anything else. */
  datatype FieldsState = NotArray | Items(rows: seq<FieldRow>)

  function Str(o: Option<string>): string {
    if o.Some? then o.value else ""
  }

  /** The default shown in the summary: set and not the empty string ("0"
      counts here, unlike `empty()`). */
  predicate ShowsDefault(row: FieldRow) {
    row.defaultValue.Some? && row.defaultValue.value != ""
  }

  /** The canonical order of all tags but the default one. */
  const TagOrder: seq<string> := ["U", "I", "UN", "AI", "N", "FK", "Cascade Delete", "Cascade Update"]

  /** Flag `k` of a row, in the order of `TagOrder`. */
  function TagFlag(row: FieldRow, k: nat): bool
    requires k < 8
  {
    [row.unique, row.index, row.unsigned, row.autoIncrement, row.nullable,
     row.constraint, row.cascade, row.updateCascade][k]
  }

  /** The tags of the first `k` flags that are set, in order. */
  function FlagTags(row: FieldRow, k: nat): seq<string>
    requires k <= 8
  {
    if k == 0 then [] else FlagTags(row, k - 1) + (if TagFlag(row, k - 1) then [TagOrder[k - 1]] else [])
  }

  function DefaultTag(row: FieldRow): seq<string> {
    if ShowsDefault(row) then ["Default: " + row.defaultValue.value] else []
  }

  /** The tags of one row: the set flags' tags in their fixed order, then the
      default. */
  function SummaryTags(row: FieldRow): seq<string> {
    FlagTags(row, 8) + DefaultTag(row)
  }

  /** The type, with its length in parentheses when the length is not empty. */
  function TypeDisplay(row: FieldRow): string {
    Str(row.colType) + (if !IsEmpty(row.length) then "(" + row.length.value + ")" else "")
  }

  function PropertiesText(tags: seq<string>): string {
    if tags != [] then " [" + Join(tags, ", ") + "]" else ""
  }

  /** The summary of one row. */
  function SummaryItem(row: FieldRow): string {
    Str(row.field) + " (" + TypeDisplay(row) + ")" + PropertiesText(SummaryTags(row))
  }

  function SummaryItems(rows: seq<FieldRow>): (items: seq<string>)
    ensures |items| == |rows|
    ensures forall i :: 0 <= i < |rows| ==> items[i] == SummaryItem(rows[i])
  {
    seq(|rows|, i requires 0 <= i < |rows| => SummaryItem(rows[i]))
  }

  /** The whole cell: the empty string for a state that is not an array. */
  function FormatFieldsColumn(state: FieldsState): string {
    match state
    case NotArray => ""
    case Items(rows) => Join(SummaryItems(rows), ", ")
  }

  /** The eight flag checks of the callback, in their order. */
  method FlagProps(row: FieldRow) returns (props: seq<string>)
    ensures props == FlagTags(row, 8)
  {
    props := [];
    if row.unique {
      props := props + ["U"];
    }
    assert props == FlagTags(row, 1);
    if row.index {
      props := props + ["I"];
    }
    assert props == FlagTags(row, 2);
    if row.unsigned {
      props := props + ["UN"];
    }
    assert props == FlagTags(row, 3);
    if row.autoIncrement {
      props := props + ["AI"];
    }
    assert props == FlagTags(row, 4);
    if row.nullable {
      props := props + ["N"];
    }
    assert props == FlagTags(row, 5);
    if row.constraint {
      props := props + ["FK"];
    }
    assert props == FlagTags(row, 6);
    if row.cascade {
      props := props + ["Cascade Delete"];
    }
    assert props == FlagTags(row, 7);
    if row.updateCascade {
      props := props + ["Cascade Update"];
    }
    assert props == FlagTags(row, 8);
  }

  /** The `map` callback: collects the tags one flag at a time. */
  method SummarizeItem(row: FieldRow) returns (item: string)
    ensures item == SummaryItem(row)
  {
    var props := FlagProps(row);
    var typeDisplay := Str(row.colType);
    if !IsEmpty(row.length) {
      typeDisplay := typeDisplay + ("(" + row.length.value + ")");
    }
    if row.defaultValue.Some? && row.defaultValue.value != "" {
      props := props + ["Default: " + row.defaultValue.value];
    }
    assert typeDisplay == TypeDisplay(row);
    assert props == SummaryTags(row);
    var properties := if props != [] then " [" + Join(props, ", ") + "]" else "";
    item := Str(row.field) + " (" + typeDisplay + ")" + properties;
  }

  /** The `collect(...)->map(...)->implode(', ')` over the rows. */
  method FormatFields(state: FieldsState) returns (text: string)
    ensures text == FormatFieldsColumn(state)
  {
    if !state.Items? {
      return "";
    }
    var items: seq<string> := [];
    for i := 0 to |state.rows|
      invariant items == SummaryItems(state.rows[..i])
    {
      var item := SummarizeItem(state.rows[i]);
      items := items + [item];
    }
    assert state.rows[..|state.rows|] == state.rows;
    text := Join(items, ", ");
  }

  /** A flag tag is present exactly when its flag is set. */
  lemma {:induction false} FlagTagsAreFlags(row: FieldRow, k: nat)
    requires k <= 8
    ensures forall t :: t in FlagTags(row, k) <==> exists j :: 0 <= j < k && TagFlag(row, j) && t == TagOrder[j]
  {
    if k > 0 {
      FlagTagsAreFlags(row, k - 1);
    }
  }

  /** The default tag is shown exactly when a non-empty default is set, and
      then it is the last tag. */
  lemma DefaultTagLast(row: FieldRow)
    ensures row.defaultValue.Some? ==>
      ("Default: " + row.defaultValue.value in SummaryTags(row) <==> row.defaultValue.value != "")
    ensures ShowsDefault(row) ==> SummaryTags(row)[|SummaryTags(row)| - 1] == "Default: " + row.defaultValue.value
  {
    if row.defaultValue.Some? && row.defaultValue.value == "" {
      FlagTagsAreFlags(row, 8);
      forall t | t in TagOrder
        ensures t != "Default: "
      {
        DefaultTagIsNoFlag("", t);
      }
    }
  }

  lemma DefaultTagIsNoFlag(v: string, t: string)
    requires t in TagOrder
    ensures t != "Default: " + v
  {
    var d := "Default: " + v;
    assert d[0] == 'D';
  }

  /** Each tag is in the summary exactly when its flag is set. */
  lemma TagPresentIffFlag(row: FieldRow, j: nat)
    requires j < 8
    ensures TagOrder[j] in SummaryTags(row) <==> TagFlag(row, j)
  {
    FlagTagsAreFlags(row, 8);
    if ShowsDefault(row) {
      DefaultTagIsNoFlag(row.defaultValue.value, TagOrder[j]);
    }
    TagOrderDistinct(j);
  }

  lemma TagOrderDistinct(j: nat)
    requires j < 8
    ensures forall i :: 0 <= i < 8 && TagOrder[i] == TagOrder[j] ==> i == j
  {
  }

  /** The bracketed suffix appears exactly when there is a tag, and the
      type shows a length exactly when the length is not empty. */
  lemma SummaryItemShape(row: FieldRow)
    ensures SummaryTags(row) == [] ==> SummaryItem(row) == Str(row.field) + " (" + TypeDisplay(row) + ")"
    ensures SummaryTags(row) != [] ==>
      SummaryItem(row) == Str(row.field) + " (" + TypeDisplay(row) + ") [" + Join(SummaryTags(row), ", ") + "]"
    ensures TypeDisplay(row) == Str(row.colType) <==> IsEmpty(row.length)
  {
    var f, t := Str(row.field), TypeDisplay(row);
    if SummaryTags(row) != [] {
      var j := Join(SummaryTags(row), ", ");
      assert f + " (" + t + ")" + (" [" + j + "]") == f + " (" + t + ") [" + j + "]";
    }
    if !IsEmpty(row.length) {
      assert |TypeDisplay(row)| > |Str(row.colType)|;
    }
  }

  /** The summaries of two row lists join with one separator. */
  lemma FormatAppend(a: seq<FieldRow>, b: seq<FieldRow>)
    requires a != [] && b != []
    ensures FormatFieldsColumn(Items(a + b)) == FormatFieldsColumn(Items(a)) + ", " + FormatFieldsColumn(Items(b))
  {
    assert SummaryItems(a + b) == SummaryItems(a) + SummaryItems(b);
    JoinAppend(SummaryItems(a), SummaryItems(b), ", ");
  }

  lemma {:induction false} JoinAppend(x: seq<string>, y: seq<string>, glue: string)
    requires x != [] && y != []
    ensures Join(x + y, glue) == Join(x, glue) + glue + Join(y, glue)
    decreases |x|
  {
    if |x| == 1 {
      assert (x + y)[1..] == y;
    } else {
      assert (x + y)[1..] == x[1..] + y;
      JoinAppend(x[1..], y, glue);
      SeqAssoc(x[0] + glue, Join(x[1..], glue), glue + Join(y, glue));
      SeqAssoc(x[0] + glue + Join(x[1..], glue), glue, Join(y, glue));
    }
  }

  // ---------------------------------------------------------------------------
  // The relationship repeater's item label (lines 266-271)
  // ---------------------------------------------------------------------------

  const Arrow: char := '→'

  /** `"{type} {method} → {related}"` when all three are set, null otherwise. */
  function ItemLabel(r: RelRow): (lbl: Option<string>)
    ensures lbl.Some? <==> r.relType.Some? && r.methodName.Some? && r.relatedModel.Some?
  {
    if r.relType.Some? && r.methodName.Some? && r.relatedModel.Some? then
      Some(r.relType.value + " " + r.methodName.value + " " + [Arrow] + " " + r.relatedModel.value)
    else None
  }

  /** The label is the type, a space, the method name, ` → ` and the related
      model, at the positions their lengths give. */
  lemma ItemLabelParts(r: RelRow)
    requires r.relType.Some? && r.methodName.Some? && r.relatedModel.Some?
    ensures var l := ItemLabel(r).value;
      var t, m, rel := r.relType.value, r.methodName.value, r.relatedModel.value;
      l[..|t|] == t && l[|t|] == ' ' &&
      l[|t| + 1..|t| + 1 + |m|] == m &&
      l[|t| + 1 + |m|..|t| + 4 + |m|] == [' ', Arrow, ' '] &&
      l[|t| + 4 + |m|..] == rel
  {
  }

  // ---------------------------------------------------------------------------
  // Form callbacks
  // ---------------------------------------------------------------------------

  /** The two model-flag checkboxes of the form. */
  class ModelFlagsForm {
    var hasFillable: bool
    var hasGuarded: bool

    constructor (fillable: bool, guarded: bool)
      ensures hasFillable == fillable && hasGuarded == guarded
    {
      hasFillable, hasGuarded := fillable, guarded;
    }

    /** Setting `has_fillable` to `state`; its `afterStateUpdated` callback
        clears `has_guarded` when `state` is true (line 169). */
    method UpdateFillable(state: bool)
      modifies this
      ensures hasFillable == state
      ensures hasGuarded == (if state then false else old(hasGuarded))
      ensures !(hasFillable && hasGuarded)
    {
      hasFillable := state;
      if state {
        hasGuarded := false;
      }
    }

    /** Setting `has_guarded`, symmetric (line 174). */
    method UpdateGuarded(state: bool)
      modifies this
      ensures hasGuarded == state
      ensures hasFillable == (if state then false else old(hasFillable))
      ensures !(hasFillable && hasGuarded)
    {
      hasGuarded := state;
      if state {
        hasFillable := false;
      }
    }
  }

  /** The related-model select and method-name input of one relationship. */
  class RelationshipItemForm {
    var relatedModel: Option<string>
    var methodName: Option<string>

    constructor (related: Option<string>, method_: Option<string>)
      ensures relatedModel == related && methodName == method_
    {
      relatedModel, methodName := related, method_;
    }

    /** Choosing a related model; a non-empty choice sets the method name to
        its lower-case form (lines 239-244). */
    method SelectRelatedModel(state: Option<string>)
      modifies this
      ensures relatedModel == state
      ensures methodName == if !IsEmpty(state) then Some(Lower(state.value)) else old(methodName)
    {
      relatedModel := state;
      if !IsEmpty(state) {
        methodName := Some(Lower(state.value));
      }
    }

    /** Hydrating the method name: an empty one is filled from the related
        model in the same way (lines 253-257). */
    method HydrateMethodName()
      modifies this
      ensures relatedModel == old(relatedModel)
      ensures methodName == if IsEmpty(old(methodName)) && !IsEmpty(relatedModel) then Some(Lower(relatedModel.value)) else old(methodName)
    {
      if IsEmpty(methodName) && !IsEmpty(relatedModel) {
        methodName := Some(Lower(relatedModel.value));
      }
    }
  }

  /** The value both callbacks derive from a related model is itself a valid
      method name in their sense: not empty, and already lower case, so a
      second hydration or selection of the same model changes nothing. */
  lemma DerivedMethodNameStable(related: string)
    requires !IsEmptyString(related)
    ensures !IsEmptyString(Lower(related))
    ensures Lower(Lower(related)) == Lower(related)
  {
    LowerPreservesEmptiness(related);
    LowerIdempotent(related);
  }
}
