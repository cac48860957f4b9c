/** The OleDb (Access) dialect's SQL fragments: date formatting, conditional
    expressions, built-in function names, string-to-date literals and table
    qualification. Each is a pure string template; arguments are embedded
    verbatim, without quoting or escaping, and an unrecognised enumeration
    member falls back to the input unchanged or to the empty string. */
module Dialect {
  import opened Values

  datatype DateFormat = MMDDYYYY | MMDDYYYY_Hyphen | MonDDYYYY | OtherFormat(ordinal: int)

  datatype DatePart = DAY | MONTH | YEAR | OtherPart(ordinal: int)

  datatype FunctionName = SUBSTRING | ISNULL | CURRENTDATE | CONCATENATE | OtherFunction(ordinal: int)

  const WildCardCharacter: string := "%"

  const DefaultSessionSchemaNameQuery: string := "SELECT DATABASE()"

  /** The function name used for null validation. */
  const IfNullFunctionName: string := "IsNULL"

  /** The function that returns the current date. */
  const CurrentDateFunction: string := "Now()"

  predicate IsRecognised(f: DateFormat)
  {
    !f.OtherFormat?
  }

  /** What a recognised format puts after a column in `FORMAT(column, "pattern")`. */
  function ColumnFormatSuffix(f: DateFormat): string
    requires IsRecognised(f)
  {
    match f
    case MMDDYYYY => ", \"mm/dd/yyyy\") "
    case MMDDYYYY_Hyphen => ", \"mm-dd-yyyy\") "
    case MonDDYYYY => ", \"mmm d yyyy\") "
  }

  /** What a recognised format puts after a quoted value in `FORMAT("value", "pattern")`. */
  function ValueFormatSuffix(f: DateFormat): string
    requires IsRecognised(f)
  {
    match f
    case MMDDYYYY => "\", \"mm/dd/yyyy\") "
    case MMDDYYYY_Hyphen => "\", \"mm-dd-yyyy\") "
    case MonDDYYYY => "\", \"mmm d yyyy\") "
  }

  function ConvertToChar(columnName: string): string
  {
    "CONVERT(varchar, " + columnName + ")"
  }

  function GetTableName(defaultSchema: string, tableName: string): string
  {
    if defaultSchema != "" then defaultSchema + "." + tableName else tableName
  }

  function GetYearSqlSyntax(dateString: string): string
  {
    "FORMAT(#" + dateString + "#, \"yyyy\")"
  }

  function GetFunctionName(functionName: FunctionName): string
  {
    match functionName
    case SUBSTRING => "LEFT"
    case ISNULL => "ISNULL"
    case CURRENTDATE => "NOW()"
    case CONCATENATE => "&"
    case OtherFunction(_) => ""
  }

  function GetDateToStringForColumn(columnName: string, dateFormat: DateFormat): string
  {
    match dateFormat
    case MMDDYYYY => " FORMAT(" + columnName + ", \"mm/dd/yyyy\") "
    case MMDDYYYY_Hyphen => " FORMAT(" + columnName + ", \"mm-dd-yyyy\") "
    case MonDDYYYY => " FORMAT(" + columnName + ", \"mmm d yyyy\") "
    case OtherFormat(_) => columnName
  }

  function GetDateToStringForValue(value: string, dateFormat: DateFormat): string
  {
    match dateFormat
    case MMDDYYYY => " FORMAT(\"" + value + "\", \"mm/dd/yyyy\") "
    case MMDDYYYY_Hyphen => " FORMAT(\"" + value + "\", \"mm-dd-yyyy\") "
    case MonDDYYYY => " FORMAT(\"" + value + "\", \"mmm d yyyy\") "
    case OtherFormat(_) => value
  }

  function GetCaseDecode(columnName: string, equalValue: string, trueValue: string, falseValue: string, alias: string)
    : string
  {
    " (CASE " + columnName + " WHEN " + equalValue + " THEN " + trueValue + " ELSE " + falseValue + " END) " + alias + " "
  }

  function GetIfNullFunction(validateColumnName: string, optionColumnName: string): string
  {
    " IsNULL(" + validateColumnName + ", " + optionColumnName + ") "
  }

  function GetDateOnlySqlSyntax(dateColumn: string): string
  {
    "CSTR(" + dateColumn + ")"
  }

  function GetStringToDateSqlSyntax(dateString: string): string
  {
    "#" + dateString + "# "
  }

  /** The date format is not consulted. */
  function GetDatePart(dateString: string, dateFormat: DateFormat, datePart: DatePart): string
  {
    match datePart
    case DAY => "DAY(" + dateString + ")"
    case MONTH => "MONTH(" + dateString + ")"
    case YEAR => "YEAR(" + dateString + ")"
    case OtherPart(_) => ""
  }

  /** The date format is not consulted; `singleQuote` is the base class's `__singleQuote`. */
  function ToDate(dateString: string, dateFormat: DateFormat, singleQuote: string): string
  {
    singleQuote + dateString + singleQuote
  }

  // ---------------------------------------------------------------------------
  // Taking a fragment apart again

  /** The text between a known prefix and a known suffix, if the fragment has them. */
  function StripAffixes(fragment: string, prefix: string, suffix: string): Option<string>
  {
    if |prefix| + |suffix| <= |fragment| && fragment[..|prefix|] == prefix && fragment[|fragment| - |suffix|..] == suffix
    then Some(fragment[|prefix|..|fragment| - |suffix|])
    else None
  }

  /** Stripping the affixes a template wrapped around an argument gives the argument back. */
  lemma StripAffixesInverts(prefix: string, argument: string, suffix: string)
    ensures StripAffixes(prefix + argument + suffix, prefix, suffix) == Some(argument)
  {
    var fragment := prefix + argument + suffix;
    assert fragment[..|prefix|] == prefix;
    assert fragment[|fragment| - |suffix|..] == suffix;
    assert fragment[|prefix|..|fragment| - |suffix|] == argument;
  }

  // ---------------------------------------------------------------------------
  // Properties

  /** The function vocabulary: a name is produced exactly for SUBSTRING,
      ISNULL, CURRENTDATE and CONCATENATE, and distinct members produce
      distinct names; anything else yields the empty string. */
  lemma FunctionNameVocabulary(f: FunctionName, g: FunctionName)
    ensures GetFunctionName(f) == "" <==> f.OtherFunction?
    ensures GetFunctionName(f) != "" && GetFunctionName(f) == GetFunctionName(g) ==> f == g
  {
  }

  /** A date-to-string fragment for a column is the column itself exactly when
      the format is unrecognised; otherwise it wraps the column, unescaped, in
      a FORMAT call with the format's pattern, so the column and the format can
      both be read back from the fragment. */
  lemma DateToStringForColumnFallback(columnName: string, f: DateFormat)
    ensures GetDateToStringForColumn(columnName, f) == columnName <==> !IsRecognised(f)
    ensures IsRecognised(f) ==>
      StripAffixes(GetDateToStringForColumn(columnName, f), " FORMAT(", ColumnFormatSuffix(f)) == Some(columnName)
  {
    match f
    case MMDDYYYY => StripAffixesInverts(" FORMAT(", columnName, ", \"mm/dd/yyyy\") ");
    case MMDDYYYY_Hyphen => StripAffixesInverts(" FORMAT(", columnName, ", \"mm-dd-yyyy\") ");
    case MonDDYYYY => StripAffixesInverts(" FORMAT(", columnName, ", \"mmm d yyyy\") ");
    case OtherFormat(_) =>
  }

  /** The same for a literal value, which is placed between double quotes. */
  lemma DateToStringForValueFallback(value: string, f: DateFormat)
    ensures GetDateToStringForValue(value, f) == value <==> !IsRecognised(f)
    ensures IsRecognised(f) ==>
      StripAffixes(GetDateToStringForValue(value, f), " FORMAT(\"", ValueFormatSuffix(f)) == Some(value)
  {
    match f
    case MMDDYYYY => StripAffixesInverts(" FORMAT(\"", value, "\", \"mm/dd/yyyy\") ");
    case MMDDYYYY_Hyphen => StripAffixesInverts(" FORMAT(\"", value, "\", \"mm-dd-yyyy\") ");
    case MonDDYYYY => StripAffixesInverts(" FORMAT(\"", value, "\", \"mmm d yyyy\") ");
    case OtherFormat(_) =>
  }

  /** Different recognised formats give different fragments for the same column. */
  lemma DateFormatsDistinct(columnName: string, f: DateFormat, g: DateFormat)
    requires IsRecognised(f) && IsRecognised(g) && f != g
    ensures GetDateToStringForColumn(columnName, f) != GetDateToStringForColumn(columnName, g)
    ensures GetDateToStringForValue(columnName, f) != GetDateToStringForValue(columnName, g)
  {
    var k := |" FORMAT(" + columnName + ", \"mm"|;
    var c1 := GetDateToStringForColumn(columnName, f);
    var c2 := GetDateToStringForColumn(columnName, g);
    var v1 := GetDateToStringForValue(columnName, f);
    var v2 := GetDateToStringForValue(columnName, g);
    if |c1| == |c2| {
      assert c1[k] != c2[k];
    }
    if |v1| == |v2| {
      assert v1[k + 2] != v2[k + 2];
    }
  }

  /** A date part is produced exactly for DAY, MONTH and YEAR, wrapping the
      date expression verbatim; the format never matters. */
  lemma DatePartFallback(dateString: string, f: DateFormat, g: DateFormat, p: DatePart)
    ensures GetDatePart(dateString, f, p) == "" <==> p.OtherPart?
    ensures GetDatePart(dateString, f, p) == GetDatePart(dateString, g, p)
    ensures p == DAY ==> StripAffixes(GetDatePart(dateString, f, p), "DAY(", ")") == Some(dateString)
    ensures p == MONTH ==> StripAffixes(GetDatePart(dateString, f, p), "MONTH(", ")") == Some(dateString)
    ensures p == YEAR ==> StripAffixes(GetDatePart(dateString, f, p), "YEAR(", ")") == Some(dateString)
  {
    StripAffixesInverts("DAY(", dateString, ")");
    StripAffixesInverts("MONTH(", dateString, ")");
    StripAffixesInverts("YEAR(", dateString, ")");
  }

  /** A table name is qualified exactly when the schema is non-empty, and then
      as `schema.table`: the schema, a dot, and the table. */
  lemma TableNameQualification(defaultSchema: string, tableName: string)
    ensures GetTableName(defaultSchema, tableName) == tableName <==> defaultSchema == ""
    ensures defaultSchema != "" ==>
      var r := GetTableName(defaultSchema, tableName);
      && r[..|defaultSchema|] == defaultSchema
      && r[|defaultSchema|] == '.'
      && r[|defaultSchema| + 1..] == tableName
  {
    if defaultSchema != "" {
      assert |GetTableName(defaultSchema, tableName)| > |tableName|;
    }
  }

  /** The conversion to text wraps its column verbatim. */
  lemma ConvertToCharEmbeds(columnName: string)
    ensures StripAffixes(ConvertToChar(columnName), "CONVERT(varchar, ", ")") == Some(columnName)
  {
    StripAffixesInverts("CONVERT(varchar, ", columnName, ")");
  }

  /** The year of a date literal: the date string between `#` marks, formatted as "yyyy". */
  lemma YearSyntaxEmbeds(dateString: string)
    ensures StripAffixes(GetYearSqlSyntax(dateString), "FORMAT(#", "#, \"yyyy\")") == Some(dateString)
  {
    StripAffixesInverts("FORMAT(#", dateString, "#, \"yyyy\")");
  }

  /** The date-only form wraps its column verbatim in `CSTR`. */
  lemma DateOnlySyntaxEmbeds(dateColumn: string)
    ensures StripAffixes(GetDateOnlySqlSyntax(dateColumn), "CSTR(", ")") == Some(dateColumn)
  {
    StripAffixesInverts("CSTR(", dateColumn, ")");
  }

  /** A date literal is the string between `#` marks, followed by a space. */
  lemma StringToDateSyntaxEmbeds(dateString: string)
    ensures StripAffixes(GetStringToDateSqlSyntax(dateString), "#", "# ") == Some(dateString)
  {
    StripAffixesInverts("#", dateString, "# ");
  }

  /** `ToDate` quotes the date string verbatim and never consults the format. */
  lemma ToDateQuotes(dateString: string, quote: string, f: DateFormat, g: DateFormat)
    ensures StripAffixes(ToDate(dateString, f, quote), quote, quote) == Some(dateString)
    ensures ToDate(dateString, f, quote) == ToDate(dateString, g, quote)
  {
    StripAffixesInverts(quote, dateString, quote);
  }

  /** The conditional expression opens with the tested column, closes with
      the alias and a space, and keeps its five arguments in order. */
  lemma CaseDecodeLayout(columnName: string, equalValue: string, trueValue: string, falseValue: string, alias: string)
    ensures var r := GetCaseDecode(columnName, equalValue, trueValue, falseValue, alias);
      var head := " (CASE " + columnName + " WHEN ";
      var tail := " END) " + alias + " ";
      && StripAffixes(r, head, tail) == Some(equalValue + " THEN " + trueValue + " ELSE " + falseValue)
  {
    StripAffixesInverts(" (CASE " + columnName + " WHEN ", equalValue + " THEN " + trueValue + " ELSE " + falseValue,
      " END) " + alias + " ");
    assert GetCaseDecode(columnName, equalValue, trueValue, falseValue, alias)
        == (" (CASE " + columnName + " WHEN ") + (equalValue + " THEN " + trueValue + " ELSE " + falseValue)
           + (" END) " + alias + " ");
  }

  /** The null-coalescing call wraps both columns, the tested one first. */
  lemma IfNullLayout(validateColumnName: string, optionColumnName: string)
    ensures StripAffixes(GetIfNullFunction(validateColumnName, optionColumnName), " IsNULL(", ") ")
         == Some(validateColumnName + ", " + optionColumnName)
    ensures IfNullFunctionName == GetIfNullFunction(validateColumnName, optionColumnName)[1..7]
  {
    StripAffixesInverts(" IsNULL(", validateColumnName + ", " + optionColumnName, ") ");
    assert GetIfNullFunction(validateColumnName, optionColumnName)
        == " IsNULL(" + (validateColumnName + ", " + optionColumnName) + ") ";
  }
}
