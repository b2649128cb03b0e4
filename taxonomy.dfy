/// The three taxonomy mappers of the converter: SSAS attribute types to
/// Mondrian level types (convertLevelType, Program.cs:43-85), OLE DB column
/// types to Mondrian data types (convertDataType, Program.cs:87-108) and
/// SSAS aggregate functions to Mondrian aggregators (the switch inside
/// Main, Program.cs:470-489, lifted into its own function here).
module Taxonomy {
  import opened Strings

  /** Every value convertLevelType can return. */
  const TimeLevelTypes: set<string> :=
    {"TimeHalfYears", "TimeHalfYear", "TimeWeeks", "TimeDays",
     "TimeMonths", "TimeQuarters", "TimeYears", "TimeUndefined"}

  /** Ordered, first-match-wins classification of an SSAS attribute type. */
  function ConvertLevelType(sin: string): (r: string)
    ensures r in TimeLevelTypes
  {
    if sin == "HalfYears" then "TimeHalfYears"
    else if sin == "HalfYearOfYear" then "TimeHalfYear"
    else if Contains(sin, "Week") then "TimeWeeks"
    else if Contains(sin, "Day") || Contains(sin, "Date") then "TimeDays"
    else if Contains(sin, "Month") then "TimeMonths"
    else if Contains(sin, "Quarter") then "TimeQuarters"
    else if Contains(sin, "Year") then "TimeYears"
    else "TimeUndefined"
  }

  /** The input names some unit of time that a substring test looks for. */
  predicate MentionsTimeUnit(sin: string) {
    Contains(sin, "Week") || Contains(sin, "Day") || Contains(sin, "Date") ||
    Contains(sin, "Month") || Contains(sin, "Quarter") || Contains(sin, "Year")
  }

  lemma HalfYearNamesMentionYearOnly()
    ensures Contains("HalfYears", "Year") && Contains("HalfYearOfYear", "Year")
    ensures !Contains("HalfYears", "Week") && !Contains("HalfYearOfYear", "Week")
    ensures !Contains("HalfYears", "Day") && !Contains("HalfYearOfYear", "Day")
    ensures !Contains("HalfYears", "Date") && !Contains("HalfYearOfYear", "Date")
    ensures !Contains("HalfYears", "Month") && !Contains("HalfYearOfYear", "Month")
    ensures !Contains("HalfYears", "Quarter") && !Contains("HalfYearOfYear", "Quarter")
  {
    assert OccursAt("HalfYears", "Year", 4);
    assert OccursAt("HalfYearOfYear", "Year", 4);
    NotContainsByChar("HalfYears", "Week", 0);
    NotContainsByChar("HalfYearOfYear", "Week", 0);
    NotContainsByChar("HalfYears", "Day", 0);
    NotContainsByChar("HalfYearOfYear", "Day", 0);
    NotContainsByChar("HalfYears", "Date", 0);
    NotContainsByChar("HalfYearOfYear", "Date", 0);
    NotContainsByChar("HalfYears", "Month", 0);
    NotContainsByChar("HalfYearOfYear", "Month", 0);
    NotContainsByChar("HalfYears", "Quarter", 0);
    NotContainsByChar("HalfYearOfYear", "Quarter", 0);
  }

  /** TimeUndefined is returned exactly for the inputs that name no unit of time. */
  lemma LevelTypeUndefinedIff(sin: string)
    ensures ConvertLevelType(sin) == "TimeUndefined" <==> !MentionsTimeUnit(sin)
  {
    HalfYearNamesMentionYearOnly();
  }

  /** The substring tests rank Week over Day/Date over Month over Quarter over
      Year, and only the two exact half-year names beat them. */
  lemma LevelTypePriority(sin: string)
    ensures Contains(sin, "Week") ==> ConvertLevelType(sin) == "TimeWeeks"
    ensures !Contains(sin, "Week") && (Contains(sin, "Day") || Contains(sin, "Date"))
      ==> ConvertLevelType(sin) == "TimeDays"
    ensures !Contains(sin, "Week") && !Contains(sin, "Day") && !Contains(sin, "Date") && Contains(sin, "Month")
      ==> ConvertLevelType(sin) == "TimeMonths"
    ensures !Contains(sin, "Week") && !Contains(sin, "Day") && !Contains(sin, "Date") &&
            !Contains(sin, "Month") && Contains(sin, "Quarter")
      ==> ConvertLevelType(sin) == "TimeQuarters"
    ensures sin != "HalfYears" && sin != "HalfYearOfYear" && Contains(sin, "Year") &&
            !Contains(sin, "Week") && !Contains(sin, "Day") && !Contains(sin, "Date") &&
            !Contains(sin, "Month") && !Contains(sin, "Quarter")
      ==> ConvertLevelType(sin) == "TimeYears"
  {
    HalfYearNamesMentionYearOnly();
  }

  /** Sample classifications: the exact half-year names win over "Year", and
      "DayOfWeek" and "FiscalQuarter" follow the substring order. */
  lemma LevelTypeExamples()
    ensures ConvertLevelType("HalfYears") == "TimeHalfYears"
    ensures ConvertLevelType("HalfYearOfYear") == "TimeHalfYear"
    ensures ConvertLevelType("DayOfWeek") == "TimeWeeks"
    ensures ConvertLevelType("FiscalQuarter") == "TimeQuarters"
    ensures ConvertLevelType("Regular") == "TimeUndefined"
  {
    assert OccursAt("DayOfWeek", "Week", 5);
    NotContainsByChar("FiscalQuarter", "Week", 0);
    NotContainsByChar("FiscalQuarter", "Day", 0);
    NotContainsByChar("FiscalQuarter", "Date", 0);
    NotContainsByChar("FiscalQuarter", "Month", 0);
    assert OccursAt("FiscalQuarter", "Quarter", 6);
    NotContainsByChar("Regular", "Week", 0);
    NotContainsByChar("Regular", "Day", 0);
    NotContainsByChar("Regular", "Date", 0);
    NotContainsByChar("Regular", "Month", 0);
    NotContainsByChar("Regular", "Quarter", 0);
    NotContainsByChar("Regular", "Year", 0);
  }

  /** OLE DB type names that the switch maps regardless of the "int" test. */
  predicate SwitchedType(sin: string) {
    sin == "Currency" || sin == "Double" || sin == "WChar"
  }

  /** convertDataType: the "int" test first, then the switch, which wins. */
  function ConvertDataType(sin: string): string {
    var dt1 := if Contains(ToLower(sin), "int") then "Integer" else sin;
    if sin == "Currency" || sin == "Double" then "Numeric"
    else if sin == "WChar" then "String"
    else dt1
  }

  lemma SwitchedTypesLackInt()
    ensures !Contains(ToLower("Currency"), "int")
    ensures !Contains(ToLower("Double"), "int")
    ensures !Contains(ToLower("WChar"), "int")
  {
    assert ToLower("Currency") == "currency";
    assert ToLower("Double") == "double";
    assert ToLower("WChar") == "wchar";
    NotContainsByChar("currency", "int", 0);
    NotContainsByChar("double", "int", 0);
    NotContainsByChar("wchar", "int", 0);
  }

  /** Any type whose name contains "int" in any case becomes Integer; Currency
      and Double become Numeric, WChar becomes String, every other name is
      passed through unchanged. */
  lemma DataTypeMapping(sin: string)
    ensures Contains(ToLower(sin), "int") ==> ConvertDataType(sin) == "Integer"
    ensures sin == "Currency" || sin == "Double" ==> ConvertDataType(sin) == "Numeric"
    ensures sin == "WChar" ==> ConvertDataType(sin) == "String"
    ensures !Contains(ToLower(sin), "int") && !SwitchedType(sin) ==> ConvertDataType(sin) == sin
  {
    SwitchedTypesLackInt();
  }

  lemma TargetTypeNames()
    ensures Contains(ToLower("Integer"), "int")
    ensures !Contains(ToLower("Numeric"), "int")
    ensures !Contains(ToLower("String"), "int")
  {
    assert ToLower("Integer") == "integer";
    assert OccursAt("integer", "int", 0);
    assert ToLower("Numeric") == "numeric";
    NotContainsByChar("numeric", "int", 2);
    assert ToLower("String") == "string";
    var s := "string";
    assert !OccursAt(s, "int", 0) && !OccursAt(s, "int", 1) && !OccursAt(s, "int", 2) && !OccursAt(s, "int", 3);
  }

  /** Mapping a mapped type again changes nothing. */
  lemma DataTypeIdempotent(sin: string)
    ensures ConvertDataType(ConvertDataType(sin)) == ConvertDataType(sin)
  {
    TargetTypeNames();
    SwitchedTypesLackInt();
  }

  /** The lower-cased SSAS aggregate-function names that Mondrian lacks. */
  predicate RemappedTag(t: string) {
    t == "distinctcount" || t == "none" || t == "byaccount" || t == "averageofchildren" || t == "lastnonempty"
  }

  /** The aggregation switch of Program.cs:470-489: lower-case, then remap. */
  function ConvertAggregation(tag: string): string {
    var mtl := ToLower(tag);
    if mtl == "distinctcount" then "distinct count"
    else if mtl == "none" || mtl == "byaccount" then "sum"
    else if mtl == "averageofchildren" then "avg"
    else if mtl == "lastnonempty" then "sum"
    else mtl
  }

  lemma ToLowerIdempotent(s: string)
    ensures ToLower(ToLower(s)) == ToLower(s)
  {
  }

  /** Every aggregator is lower case and none of the remapped SSAS names. */
  lemma AggregationResult(tag: string)
    ensures ToLower(ConvertAggregation(tag)) == ConvertAggregation(tag)
    ensures !RemappedTag(ConvertAggregation(tag))
    ensures RemappedTag(ToLower(tag)) ==> ConvertAggregation(tag) in {"distinct count", "sum", "avg"}
    ensures !RemappedTag(ToLower(tag)) ==> ConvertAggregation(tag) == ToLower(tag)
  {
    ToLowerIdempotent(tag);
    assert ToLower("distinct count") == "distinct count";
    assert ToLower("sum") == "sum";
    assert ToLower("avg") == "avg";
  }

  /** Mapping an aggregator twice gives the same aggregator, for every tag. */
  lemma AggregationIdempotent(tag: string)
    ensures ConvertAggregation(ConvertAggregation(tag)) == ConvertAggregation(tag)
  {
    AggregationResult(tag);
  }

  lemma AggregationExamples()
    ensures ConvertAggregation("Sum") == "sum"
    ensures ConvertAggregation("DistinctCount") == "distinct count"
    ensures ConvertAggregation("LastNonEmpty") == "sum"
    ensures ConvertAggregation("AverageOfChildren") == "avg"
    ensures ConvertAggregation("Max") == "max"
  {
    assert ToLower("Sum") == "sum";
    assert ToLower("DistinctCount") == "distinctcount";
    assert ToLower("LastNonEmpty") == "lastnonempty";
    assert ToLower("AverageOfChildren") == "averageofchildren";
    assert ToLower("Max") == "max";
  }
}
