/** The migration side of `SchemaGenerator::generateMigration`: the migration
    name, the `Schema::create` block that replaces the one in the migration
    file, and the search for the freshly created migration file. */
module Migration {
  import opened Php

  /** `Str::plural(Str::snake($tableName))`, the table part of the migration name. */
  function MigrationTableName(tableName: string, inf: Inflector): string {
    inf.plural(inf.snake(tableName, "_"))
  }

  /** The name passed to `make:migration`. */
  function MigrationName(tableName: string, inf: Inflector): (r: string)
    ensures |r| == |MigrationTableName(tableName, inf)| + 13
    ensures "create_" <= r
    ensures EndsWith(r, "_table")
    ensures r[7..|r| - 6] == MigrationTableName(tableName, inf)
  {
    "create_" + MigrationTableName(tableName, inf) + "_table"
  }

  predicate EndsWith(s: string, t: string) {
    |t| <= |s| && s[|s| - |t|..] == t
  }

  /** The table named in the regenerated `Schema::create` call. */
  function CreateTable(tableName: string, inf: Inflector): string {
    Lower(inf.plural(tableName))
  }

  // ---------------------------------------------------------------------------
  // The migration file and its Schema::create block
  // ---------------------------------------------------------------------------

  /** A migration file's text, cut at the places where the pattern
      `Schema::create('<table>', function (Blueprint $table) {<body>});`
      matches: everything between matches is kept verbatim. */
  datatype Piece = Verbatim(text: string) | CreateCall(table: string, body: string)

  function PieceText(p: Piece): string {
    match p
    case Verbatim(text) => text
    case CreateCall(table, body) => "Schema::create('" + table + "', function (Blueprint $table) {" + body + "});"
  }

  function DocText(doc: seq<Piece>): string
    decreases |doc|
  {
    if doc == [] then "" else PieceText(doc[0]) + DocText(doc[1..])
  }

  /** The block body: the id column, the generated columns, the timestamps. */
  function BlockBody(schemaCode: string): string {
    "\n            $table->id();\n" + schemaCode + "            $table->timestamps();\n        "
  }

  /** The replacement text of the `preg_replace` call, as the source writes it. */
  function Replacement(table: string, schemaCode: string): string {
    "Schema::create('" + table + "', function (Blueprint $table) {\n            $table->id();\n"
      + schemaCode + "            $table->timestamps();\n        });"
  }

  /** The replacement is the text of a create-call piece whose body is the
      block body, so a patched file is again split into the same pieces. */
  lemma ReplacementIsCreateCall(table: string, schemaCode: string)
    ensures Replacement(table, schemaCode) == PieceText(CreateCall(table, BlockBody(schemaCode)))
  {
    var pre := "Schema::create('" + table + "', function (Blueprint $table) {";
    var tail := "            $table->timestamps();\n        ";
    calc {
      PieceText(CreateCall(table, BlockBody(schemaCode)));
      pre + BlockBody(schemaCode) + "});";
      pre + ("\n            $table->id();\n" + schemaCode + tail) + "});";
      { SplitOpen(table); }
      "Schema::create('" + table + "', function (Blueprint $table) {\n            $table->id();\n" + schemaCode + tail + "});";
      { SplitClose(tail); }
      Replacement(table, schemaCode);
    }
  }

  lemma SplitOpen(table: string)
    ensures "Schema::create('" + table + "', function (Blueprint $table) {" + "\n            $table->id();\n" ==
      "Schema::create('" + table + "', function (Blueprint $table) {\n            $table->id();\n"
  {
  }

  lemma SplitClose(tail: string)
    ensures tail == "            $table->timestamps();\n        " ==>
      tail + "});" == "            $table->timestamps();\n        });"
  {
  }

  /** `preg_replace` without a limit: every match is replaced by the new block;
      the text between matches is left as it was. */
  function Patch(doc: seq<Piece>, table: string, schemaCode: string): (r: seq<Piece>)
    ensures |r| == |doc|
    ensures forall i :: 0 <= i < |doc| && doc[i].Verbatim? ==> r[i] == doc[i]
    ensures forall i :: 0 <= i < |doc| && doc[i].CreateCall? ==> r[i] == CreateCall(table, BlockBody(schemaCode))
    decreases |doc|
  {
    if doc == [] then []
    else
      (if doc[0].Verbatim? then [doc[0]] else [CreateCall(table, BlockBody(schemaCode))])
      + Patch(doc[1..], table, schemaCode)
  }

  /** Two documents that differ only inside their create calls. */
  predicate SameShape(a: seq<Piece>, b: seq<Piece>) {
    |a| == |b| &&
    forall i :: 0 <= i < |a| ==> (a[i].Verbatim? <==> b[i].Verbatim?) && (a[i].Verbatim? ==> a[i] == b[i])
  }

  /** Patching is idempotent: regenerating with the same columns changes
      nothing more. */
  lemma PatchIdempotent(doc: seq<Piece>, table: string, schemaCode: string)
    ensures Patch(Patch(doc, table, schemaCode), table, schemaCode) == Patch(doc, table, schemaCode)
  {
  }

  /** The previous columns and table name are forgotten: the patched file
      depends only on the text around the create calls. */
  lemma PatchForgetsOldBlock(a: seq<Piece>, b: seq<Piece>, table: string, schemaCode: string)
    requires SameShape(a, b)
    ensures Patch(a, table, schemaCode) == Patch(b, table, schemaCode)
  {
  }

  /** A file with no create call is written back unchanged. */
  lemma {:induction false} PatchWithoutMatch(doc: seq<Piece>, table: string, schemaCode: string)
    requires forall i :: 0 <= i < |doc| ==> doc[i].Verbatim?
    ensures DocText(Patch(doc, table, schemaCode)) == DocText(doc)
    decreases |doc|
  {
    if doc != [] {
      PatchWithoutMatch(doc[1..], table, schemaCode);
      var r := Patch(doc, table, schemaCode);
      assert r[1..] == Patch(doc[1..], table, schemaCode);
    }
  }

  /** The usual stub, text around a single create call, gets exactly the
      replacement text in its place. */
  lemma PatchSingleBlock(pre: string, table0: string, body0: string, post: string, table: string, schemaCode: string)
    ensures DocText(Patch([Verbatim(pre), CreateCall(table0, body0), Verbatim(post)], table, schemaCode)) ==
      pre + Replacement(table, schemaCode) + post
  {
    var doc := [Verbatim(pre), CreateCall(table0, body0), Verbatim(post)];
    var r := Patch(doc, table, schemaCode);
    assert r == [Verbatim(pre), CreateCall(table, BlockBody(schemaCode)), Verbatim(post)];
    assert r[1..][1..][1..] == [];
    assert DocText(r[1..][1..]) == post + "";
    assert DocText(r[1..]) == Replacement(table, schemaCode) + (post + "") by {
      ReplacementIsCreateCall(table, schemaCode);
    }
    assert post + "" == post;
  }

  // ---------------------------------------------------------------------------
  // Locating the migration file that make:migration created
  // ---------------------------------------------------------------------------

  /** An entry of `File::files(database_path('migrations'))`. */
  datatype MigrationFile = MigrationFile(filename: string, pathname: string, mtime: int, content: seq<Piece>)

  predicate NewestFirst(files: seq<MigrationFile>) {
    forall i, j :: 0 <= i < j < |files| ==> files[i].mtime >= files[j].mtime
  }

  /** Inserts `f` before the first entry that is not newer than it. */
  function InsertByMtime(f: MigrationFile, sorted: seq<MigrationFile>): (r: seq<MigrationFile>)
    ensures multiset(r) == multiset(sorted) + multiset{f}
    decreases |sorted|
  {
    if sorted == [] || f.mtime >= sorted[0].mtime then [f] + sorted
    else
      assert sorted == [sorted[0]] + sorted[1..];
      [sorted[0]] + InsertByMtime(f, sorted[1..])
  }

  lemma {:induction false} InsertKeepsNewestFirst(f: MigrationFile, sorted: seq<MigrationFile>)
    requires NewestFirst(sorted)
    ensures NewestFirst(InsertByMtime(f, sorted))
    ensures |InsertByMtime(f, sorted)| == |sorted| + 1
    ensures sorted != [] ==> InsertByMtime(f, sorted)[0] == (if f.mtime >= sorted[0].mtime then f else sorted[0])
    decreases |sorted|
  {
    if sorted != [] && f.mtime < sorted[0].mtime {
      var rest := InsertByMtime(f, sorted[1..]);
      InsertKeepsNewestFirst(f, sorted[1..]);
      var r := [sorted[0]] + rest;
      assert r == InsertByMtime(f, sorted);
      forall i, j | 0 <= i < j < |r| ensures r[i].mtime >= r[j].mtime {
        if i == 0 {
          // every later entry is `f` or one of the older ones
          if j >= 2 {
            assert rest[0].mtime >= rest[j - 1].mtime;
          }
          if sorted[1..] != [] {
            assert sorted[0].mtime >= sorted[1].mtime;
          }
        }
      }
    }
  }

  /** `usort` with the comparator `filemtime($b) - filemtime($a)`: the same
      files, newest first. */
  function SortNewestFirst(files: seq<MigrationFile>): (r: seq<MigrationFile>)
    ensures multiset(r) == multiset(files)
    decreases |files|
  {
    if files == [] then []
    else
      assert files == [files[0]] + files[1..];
      InsertByMtime(files[0], SortNewestFirst(files[1..]))
  }

  lemma {:induction false} SortIsNewestFirst(files: seq<MigrationFile>)
    ensures NewestFirst(SortNewestFirst(files))
    ensures |SortNewestFirst(files)| == |files|
    decreases |files|
  {
    if files != [] {
      SortIsNewestFirst(files[1..]);
      InsertKeepsNewestFirst(files[0], SortNewestFirst(files[1..]));
    }
  }

  /** The first file, in order, whose name contains `needle` (`Str::contains`,
      so an empty needle matches nothing). */
  function FirstMatch(files: seq<MigrationFile>, needle: string): (r: Option<nat>)
    ensures r.Some? ==> r.value < |files| && StrContains(files[r.value].filename, needle)
    ensures r.Some? ==> forall k :: 0 <= k < r.value ==> !StrContains(files[k].filename, needle)
    ensures r.None? <==> forall k :: 0 <= k < |files| ==> !StrContains(files[k].filename, needle)
    decreases |files|
  {
    if files == [] then None
    else if StrContains(files[0].filename, needle) then Some(0)
    else
      var rest := FirstMatch(files[1..], needle);
      if rest.None? then
        assert forall k :: 1 <= k < |files| ==> files[k] == files[1..][k - 1];
        None
      else Some(rest.value + 1)
  }

  /** The `foreach ... break` search over the sorted listing. */
  method FindMigrationFile(files: seq<MigrationFile>, needle: string) returns (found: Option<MigrationFile>)
    ensures found.Some? <==> FirstMatch(files, needle).Some?
    ensures found.Some? ==> found.value == files[FirstMatch(files, needle).value]
  {
    found := None;
    var i := 0;
    while i < |files|
      invariant 0 <= i <= |files|
      invariant found.None?
      invariant forall k :: 0 <= k < i ==> !StrContains(files[k].filename, needle)
    {
      if StrContains(files[i].filename, needle) {
        found := Some(files[i]);
        FirstMatchIsFirst(files, needle, i);
        break;
      }
      i := i + 1;
    }
  }

  /** The first match is determined by where the first matching file is. */
  lemma FirstMatchIsFirst(files: seq<MigrationFile>, needle: string, i: nat)
    requires i < |files| && StrContains(files[i].filename, needle)
    requires forall k :: 0 <= k < i ==> !StrContains(files[k].filename, needle)
    ensures FirstMatch(files, needle) == Some(i)
  {
    var r := FirstMatch(files, needle);
    assert r.Some?;
  }

  /** What the listing search finds: a file of the directory whose name
      contains the needle and that is at least as new as every other such
      file; and nothing exactly when no file name contains it. */
  lemma LocateFindsNewestMatch(files: seq<MigrationFile>, needle: string)
    ensures var sorted := SortNewestFirst(files);
      var r := FirstMatch(sorted, needle);
      (r.None? <==> forall f :: f in files ==> !StrContains(f.filename, needle)) &&
      (r.Some? ==>
        sorted[r.value] in files && StrContains(sorted[r.value].filename, needle) &&
        forall f :: f in files && StrContains(f.filename, needle) ==> f.mtime <= sorted[r.value].mtime)
  {
    var sorted := SortNewestFirst(files);
    var r := FirstMatch(sorted, needle);
    SortIsNewestFirst(files);
    SortKeepsFiles(files);
    if r.None? {
      forall f | f in files ensures !StrContains(f.filename, needle) {
        var k :| 0 <= k < |sorted| && sorted[k] == f;
      }
    } else {
      NewestMatch(sorted, needle, r.value);
    }
  }

  lemma SortKeepsFiles(files: seq<MigrationFile>)
    ensures forall f :: f in files <==> f in SortNewestFirst(files)
  {
    var sorted := SortNewestFirst(files);
    forall f ensures f in files <==> f in sorted {
      assert f in files <==> f in multiset(files);
      assert f in sorted <==> f in multiset(sorted);
    }
  }

  /** In a newest-first listing the first match is newer than every other match. */
  lemma NewestMatch(sorted: seq<MigrationFile>, needle: string, m: nat)
    requires NewestFirst(sorted)
    requires m < |sorted| && forall k :: 0 <= k < m ==> !StrContains(sorted[k].filename, needle)
    ensures forall f :: f in sorted && StrContains(f.filename, needle) ==> f.mtime <= sorted[m].mtime
  {
    forall f | f in sorted && StrContains(f.filename, needle) ensures f.mtime <= sorted[m].mtime {
      var k :| 0 <= k < |sorted| && sorted[k] == f;
    }
  }
}
