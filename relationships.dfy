/** `SchemaGenerator::generateRelationshipMethods`: one Eloquent relationship
    method per entry of `model_relationships`. */
module Relationships {
  import opened Php

  /** One entry of `model_relationships`; an absent or null key is `None`. */
  datatype RelRow = RelRow(
    relType: Option<string>,
    methodName: Option<string>,
    relatedModel: Option<string>,
    foreignKey: Option<string>,
    localKey: Option<string>,
    parameters: Option<string>)

  /** An entry with an empty type, method name or related model is skipped. */
  predicate Skipped(r: RelRow) {
    IsEmpty(r.relType) || IsEmpty(r.methodName) || IsEmpty(r.relatedModel)
  }

  /** The extra parameters: the trimmed lines that are not PHP-empty, in order. */
  function ExtraParams(lines: seq<string>): (ps: seq<string>)
    ensures |ps| <= |lines|
    decreases |lines|
  {
    if lines == [] then []
    else
      KeptParam(lines[0]) + ExtraParams(lines[1..])
  }

  /** One parameter line as it enters the argument list: trimmed, and dropped
      when nothing is left. */
  function KeptParam(line: string): seq<string> {
    if !IsEmptyString(Trim(line)) then [Trim(line)] else []
  }

  /** A key argument, single-quoted, present only when the key is not empty. */
  function QuotedKey(key: Option<string>): seq<string> {
    if !IsEmpty(key) then ["'" + key.value + "'"] else []
  }

  /** The argument list of the returned relation call: the related class, then
      the quoted foreign key and local key when they are not empty, then the
      extra parameter lines. */
  function RelParams(r: RelRow): seq<string>
    requires !Skipped(r)
  {
    [r.relatedModel.value + "::class"]
    + QuotedKey(r.foreignKey)
    + QuotedKey(r.localKey)
    + (if !IsEmpty(r.parameters) then ExtraParams(Split(r.parameters.value, '\n')) else [])
  }

  /** The lines of the method text for one entry; `modelName` is the owning
      model's name. */
  function RelMethodLines(r: RelRow, modelName: string, inf: Inflector): (ls: seq<string>)
    requires !Skipped(r)
    ensures |ls| == 7
  {
    var m := r.methodName.value;
    ["    /**\n",
     "     * Get the " + inf.snake(m, " ") + " for the " + inf.camel(modelName) + "\n",
     "     */\n",
     "    public function " + m + "()\n",
     "    {\n",
     "        return $this->" + r.relType.value + "(" + Join(RelParams(r), ", ") + ");\n",
     "    }\n\n"]
  }

  function RelMethodText(r: RelRow, modelName: string, inf: Inflector): string
    requires !Skipped(r)
  {
    var ls := RelMethodLines(r, modelName, inf);
    ls[0] + ls[1] + ls[2] + ls[3] + ls[4] + ls[5] + ls[6]
  }

  /** The text after one more entry has been processed, line by line. */
  function AppendRelMethod(acc: string, r: RelRow, modelName: string, inf: Inflector): string {
    if Skipped(r) then acc
    else
      var ls := RelMethodLines(r, modelName, inf);
      acc + ls[0] + ls[1] + ls[2] + ls[3] + ls[4] + ls[5] + ls[6]
  }

  /** The text for a list of entries, processed left to right. */
  function RelationshipsCode(rows: seq<RelRow>, modelName: string, inf: Inflector): string
    decreases |rows|
  {
    if rows == [] then ""
    else AppendRelMethod(RelationshipsCode(rows[..|rows| - 1], modelName, inf), rows[|rows| - 1], modelName, inf)
  }

  // ---------------------------------------------------------------------------
  // Properties
  // ---------------------------------------------------------------------------

  /** Every extra parameter is a trimmed, non-empty line of the input ... */
  lemma {:induction false} ExtraParamsSound(lines: seq<string>, x: string)
    requires x in ExtraParams(lines)
    ensures !IsEmptyString(x) && Trim(x) == x
    ensures exists k :: 0 <= k < |lines| && Trim(lines[k]) == x
    decreases |lines|
  {
    var line := Trim(lines[0]);
    if !IsEmptyString(line) && x == line {
      TrimIdempotent(lines[0]);
    } else {
      assert x in ExtraParams(lines[1..]);
      ExtraParamsSound(lines[1..], x);
      var k :| 0 <= k < |lines[1..]| && Trim(lines[1..][k]) == x;
      assert lines[k + 1] == lines[1..][k];
    }
  }

  /** ... and every such line is kept. */
  lemma {:induction false} ExtraParamsComplete(lines: seq<string>, k: nat)
    requires k < |lines| && !IsEmptyString(Trim(lines[k]))
    ensures Trim(lines[k]) in ExtraParams(lines)
    decreases |lines|
  {
    if k > 0 {
      assert lines[1..][k - 1] == lines[k];
      ExtraParamsComplete(lines[1..], k - 1);
    }
  }

  /** The shape of the argument list: related class first, the keys exactly
      when they are not empty, then the extra lines. */
  lemma RelParamsShape(r: RelRow)
    requires !Skipped(r)
    ensures var ps := RelParams(r);
      var nf := if !IsEmpty(r.foreignKey) then 1 else 0;
      var nl := if !IsEmpty(r.localKey) then 1 else 0;
      var extra := if !IsEmpty(r.parameters) then ExtraParams(Split(r.parameters.value, '\n')) else [];
      |ps| == 1 + nf + nl + |extra| &&
      ps[0] == r.relatedModel.value + "::class" &&
      (nf == 1 ==> ps[1] == Quote(r.foreignKey.value)) &&
      (nl == 1 ==> ps[1 + nf] == Quote(r.localKey.value)) &&
      ps[1 + nf + nl..] == extra
  {
  }

  /** A skipped entry adds nothing; any other adds exactly its method text. */
  lemma AppendRelMethodSkip(acc: string, r: RelRow, modelName: string, inf: Inflector)
    ensures AppendRelMethod(acc, r, modelName, inf) == acc <==> Skipped(r)
    ensures !Skipped(r) ==> AppendRelMethod(acc, r, modelName, inf) == acc + RelMethodText(r, modelName, inf)
  {
    if !Skipped(r) {
      var ls := RelMethodLines(r, modelName, inf);
      var a, b, c, d, e, f, g := ls[0], ls[1], ls[2], ls[3], ls[4], ls[5], ls[6];
      calc {
        acc + a + b + c + d + e + f + g;
        { SeqAssoc(acc, a, b); }
        acc + (a + b) + c + d + e + f + g;
        { SeqAssoc(acc, a + b, c); }
        acc + (a + b + c) + d + e + f + g;
        { SeqAssoc(acc, a + b + c, d); }
        acc + (a + b + c + d) + e + f + g;
        { SeqAssoc(acc, a + b + c + d, e); }
        acc + (a + b + c + d + e) + f + g;
        { SeqAssoc(acc, a + b + c + d + e, f); }
        acc + (a + b + c + d + e + f) + g;
        { SeqAssoc(acc, a + b + c + d + e + f, g); }
        acc + (a + b + c + d + e + f + g);
      }
      assert |a| == 8;
    }
  }

  /** The text of a concatenation of entry lists is the concatenation of their
      texts: entries are rendered in order and independently. */
  lemma {:induction false} RelationshipsCodeAppend(a: seq<RelRow>, b: seq<RelRow>, modelName: string, inf: Inflector)
    ensures RelationshipsCode(a + b, modelName, inf) == RelationshipsCode(a, modelName, inf) + RelationshipsCode(b, modelName, inf)
    decreases |b|
  {
    if b == [] {
      assert a + b == a;
    } else {
      var b', last := b[..|b| - 1], b[|b| - 1];
      assert (a + b)[..|a + b| - 1] == a + b';
      assert (a + b)[|a + b| - 1] == last;
      RelationshipsCodeAppend(a, b', modelName, inf);
      var x, y := RelationshipsCode(a, modelName, inf), RelationshipsCode(b', modelName, inf);
      if !Skipped(last) {
        AppendRelMethodSkip(x + y, last, modelName, inf);
        AppendRelMethodSkip(y, last, modelName, inf);
        SeqAssoc(x, y, RelMethodText(last, modelName, inf));
      }
    }
  }

  // ---------------------------------------------------------------------------
  // The renderer
  // ---------------------------------------------------------------------------

  /** Collects the argument list (lines 655-678). */
  method BuildParams(r: RelRow) returns (params: seq<string>)
    requires !Skipped(r)
    ensures params == RelParams(r)
  {
    params := [r.relatedModel.value + "::class"];
    if !IsEmpty(r.foreignKey) {
      params := params + ["'" + r.foreignKey.value + "'"];
    }
    assert params == [r.relatedModel.value + "::class"] + QuotedKey(r.foreignKey);
    if !IsEmpty(r.localKey) {
      params := params + ["'" + r.localKey.value + "'"];
    }
    assert params == [r.relatedModel.value + "::class"] + QuotedKey(r.foreignKey) + QuotedKey(r.localKey);
    if !IsEmpty(r.parameters) {
      var extra := CollectExtraParams(Split(r.parameters.value, '\n'));
      params := params + extra;
    }
  }

  /** The loop over the lines of `parameters`, keeping each trimmed line that
      is not empty (lines 669-676). */
  method CollectExtraParams(paramLines: seq<string>) returns (extra: seq<string>)
    ensures extra == ExtraParams(paramLines)
  {
    extra := [];
    for i := 0 to |paramLines|
      invariant extra == ExtraParams(paramLines[..i])
    {
      var line := Trim(paramLines[i]);
      ExtraParamsSnoc(paramLines, i);
      if !IsEmptyString(line) {
        extra := extra + [line];
      }
    }
    assert paramLines[..|paramLines|] == paramLines;
  }

  lemma {:induction false} ExtraParamsAppend(a: seq<string>, b: seq<string>)
    ensures ExtraParams(a + b) == ExtraParams(a) + ExtraParams(b)
    decreases |a|
  {
    if a == [] {
      assert a + b == b;
    } else {
      var h := KeptParam(a[0]);
      assert (a + b)[0] == a[0];
      assert (a + b)[1..] == a[1..] + b;
      assert ExtraParams(a + b) == h + ExtraParams(a[1..] + b);
      ExtraParamsAppend(a[1..], b);
      SeqAssoc(h, ExtraParams(a[1..]), ExtraParams(b));
    }
  }

  lemma ExtraParamsSnoc(lines: seq<string>, i: nat)
    requires i < |lines|
    ensures ExtraParams(lines[..i + 1]) == ExtraParams(lines[..i]) + KeptParam(lines[i])
  {
    assert lines[..i + 1] == lines[..i] + [lines[i]];
    ExtraParamsAppend(lines[..i], [lines[i]]);
    assert [lines[i]][1..] == [];
    assert ExtraParams([lines[i]]) == KeptParam(lines[i]) + [];
  }

  /** `generateRelationshipMethods`: the loop over the entries, skipping the
      incomplete ones and appending each method's text. */
  method GenerateRelationshipMethods(rows: seq<RelRow>, modelName: string, inf: Inflector) returns (modelCode: string)
    ensures modelCode == RelationshipsCode(rows, modelName, inf)
  {
    modelCode := "";
    if rows != [] {
      for i := 0 to |rows|
        invariant modelCode == RelationshipsCode(rows[..i], modelName, inf)
      {
        var relationship := rows[i];
        assert rows[..i + 1][..i] == rows[..i];
        if IsEmpty(relationship.relType) || IsEmpty(relationship.methodName) || IsEmpty(relationship.relatedModel) {
          continue;
        }
        var methodName := relationship.methodName.value;
        var relatedModel := relationship.relatedModel.value;
        var relType := relationship.relType.value;
        var params := BuildParams(relationship);
        ghost var before := modelCode;
        modelCode := modelCode + "    /**\n";
        modelCode := modelCode + ("     * Get the " + inf.snake(methodName, " ") + " for the " + inf.camel(modelName) + "\n");
        modelCode := modelCode + "     */\n";
        modelCode := modelCode + ("    public function " + methodName + "()\n");
        modelCode := modelCode + "    {\n";
        modelCode := modelCode + ("        return $this->" + relType + "(" + Join(params, ", ") + ");\n");
        modelCode := modelCode + "    }\n\n";
      }
      assert rows[..|rows|] == rows;
    } else {
      assert RelationshipsCode(rows, modelName, inf) == "";
    }
  }
}
