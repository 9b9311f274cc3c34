/** The column-type to cast-type lookup behind a generated model's `$casts`
    block (`SchemaGenerator::mapDatabaseTypeToPhpType`). */
module TypeMap {
  import opened Php

  /** The lookup table, entry for entry. */
  const CastTable: map<string, string> := map[
    "integer" := "integer",
    "bigInteger" := "integer",
    "smallInteger" := "integer",
    "tinyInteger" := "integer",
    "mediumInteger" := "integer",
    "unsignedInteger" := "integer",
    "unsignedBigInteger" := "integer",
    "unsignedSmallInteger" := "integer",
    "unsignedTinyInteger" := "integer",
    "unsignedMediumInteger" := "integer",
    "float" := "float",
    "double" := "float",
    "decimal" := "decimal",
    "boolean" := "boolean",
    "date" := "date",
    "dateTime" := "datetime",
    "dateTimeTz" := "datetime",
    "time" := "string",
    "timeTz" := "string",
    "timestamp" := "timestamp",
    "timestampTz" := "timestamp",
    "year" := "integer",
    "binary" := "string",
    "uuid" := "string",
    "ipAddress" := "string",
    "macAddress" := "string",
    "json" := "array",
    "jsonb" := "array",
    "text" := "string",
    "mediumText" := "string",
    "longText" := "string",
    "string" := "string",
    "char" := "string",
    "enum" := "string"
  ]

  /** The closed set of cast types the table can produce. */
  const CastTypes: set<string> :=
    {"integer", "float", "decimal", "boolean", "date", "datetime", "string", "timestamp", "array"}

  /** The column types that have a cast, grouped by the cast they get: the
      table read backwards. */
  function ColumnTypesCastTo(cast: string): set<string> {
    if cast == "integer" then
      {"integer", "bigInteger", "smallInteger", "tinyInteger", "mediumInteger", "unsignedInteger",
       "unsignedBigInteger", "unsignedSmallInteger", "unsignedTinyInteger", "unsignedMediumInteger", "year"}
    else if cast == "float" then {"float", "double"}
    else if cast == "decimal" then {"decimal"}
    else if cast == "boolean" then {"boolean"}
    else if cast == "date" then {"date"}
    else if cast == "datetime" then {"dateTime", "dateTimeTz"}
    else if cast == "timestamp" then {"timestamp", "timestampTz"}
    else if cast == "array" then {"json", "jsonb"}
    else if cast == "string" then
      {"time", "timeTz", "binary", "uuid", "ipAddress", "macAddress", "text", "mediumText",
       "longText", "string", "char", "enum"}
    else {}
  }

  /** `mapDatabaseTypeToPhpType($databaseType)`: the cast for a listed column
      type, null for every other token. The result is always one of the nine
      cast types. */
  function MapDatabaseTypeToPhpType(columnType: string): (r: Option<string>)
    ensures r.Some? <==> columnType in CastTable
    ensures r.Some? ==> r.value in CastTypes
  {
    if columnType in CastTable then Some(CastTable[columnType]) else None
  }

  /** The lookup agrees with the grouped view in both directions: a column
      type maps to a cast exactly when it is listed under that cast; any other
      token, "foreignId" among them, has no cast. */
  lemma CastInverse(columnType: string, cast: string)
    ensures MapDatabaseTypeToPhpType(columnType) == Some(cast) <==> columnType in ColumnTypesCastTo(cast)
  {
    if columnType in ColumnTypesCastTo(cast) {
      if cast == "integer" {
        IntegerGroupMaps(columnType);
      } else if cast == "string" {
        StringGroupMaps(columnType);
      } else {
        OtherGroupsMap(columnType, cast);
      }
    }
  }

  lemma IntegerGroupMaps(columnType: string)
    requires columnType in ColumnTypesCastTo("integer")
    ensures MapDatabaseTypeToPhpType(columnType) == Some("integer")
  {
  }

  lemma StringGroupMaps(columnType: string)
    requires columnType in ColumnTypesCastTo("string")
    ensures MapDatabaseTypeToPhpType(columnType) == Some("string")
  {
  }

  lemma OtherGroupsMap(columnType: string, cast: string)
    requires cast != "integer" && cast != "string"
    requires columnType in ColumnTypesCastTo(cast)
    ensures MapDatabaseTypeToPhpType(columnType) == Some(cast)
  {
    if cast == "float" || cast == "decimal" || cast == "boolean" || cast == "date" {
      NumericAndDateGroupsMap(columnType, cast);
    } else {
      TemporalAndArrayGroupsMap(columnType, cast);
    }
  }

  lemma NumericAndDateGroupsMap(columnType: string, cast: string)
    requires cast == "float" || cast == "decimal" || cast == "boolean" || cast == "date"
    requires columnType in ColumnTypesCastTo(cast)
    ensures MapDatabaseTypeToPhpType(columnType) == Some(cast)
  {
  }

  lemma TemporalAndArrayGroupsMap(columnType: string, cast: string)
    requires cast == "datetime" || cast == "timestamp" || cast == "array"
    requires columnType in ColumnTypesCastTo(cast)
    ensures MapDatabaseTypeToPhpType(columnType) == Some(cast)
  {
  }
}
