/// The part of the Analysis Management Objects (AMO) tree that the
/// converter reads, as plain values, and the run's command-line options.
/// Lookups that the provider may fail to answer (and whose exceptions the
/// converter swallows) are `Option`s.
module Amo {
  import opened Strings

  /** A dimension attribute, seen through its first key column only
      (composite keys are not supported). */
  datatype Attribute = Attribute(
    name: string,
    keyColumn: string,        // KeyColumns[0].ToString(), "table.column"
    keyDataType: string,      // KeyColumns[0].DataType, an OLE DB type name
    attributeType: string,    // Attribute.Type, e.g. "Days", "FiscalQuarters"
    hierarchyVisible: bool,   // CubeAttribute.AttributeHierarchyVisible
    nameColumn: Option<string>) // NameColumn.ToString(); None when the attribute has no name column

  datatype Level = Level(name: string, source: Attribute)

  datatype Hierarchy = Hierarchy(
    name: string,
    visible: bool,
    allMemberName: string,
    levels: seq<Level>)

  datatype CubeDimension = CubeDimension(
    name: string,
    visible: bool,
    dimensionType: string,    // Dimension.Type, e.g. "Regular", "Time"
    attributes: seq<Attribute>,
    hierarchies: seq<Hierarchy>)

  /** How a measure group reaches a dimension. A reference link carries the
      three provider lookups of Program.cs:255-257; None stands for a lookup
      that threw. */
  datatype LinkKind =
    | Regular
    | ManyToMany
    | DataMining
    | Reference(
        baseKey: Option<string>,          // referenced dimension's key attribute key column
        granularityKey: Option<string>,   // intermediate granularity attribute key column
        intermediateKey: Option<string>)  // intermediate dimension's key attribute key column

  /** A MeasureGroupDimension: the cube dimension's name, the underlying
      database dimension's name, and the kind of link. */
  datatype Link = Link(cubeDimension: string, dimension: string, kind: LinkKind)

  /** The source binding of a measure. */
  datatype Binding =
    | ColumnBinding(tableId: string, columnId: string)
    | OtherBinding(text: string)

  /** The binding's ToString(): "table.column" for a column binding. */
  function BindingText(b: Binding): string {
    match b
    case ColumnBinding(t, c) => t + "." + c
    case OtherBinding(text) => text
  }

  datatype Measure = Measure(
    name: string,
    source: Binding,
    aggregateFunction: string,
    formatString: string,
    expression: Option<string>,   // MeasureExpression; None when reading it threw
    visible: bool)

  datatype MeasureGroup = MeasureGroup(name: string, measures: seq<Measure>, links: seq<Link>)

  datatype Cube = Cube(name: string, dimensions: seq<CubeDimension>, measureGroups: seq<MeasureGroup>)

  datatype Database = Database(name: string, cubes: seq<Cube>)

  /** Parsed command-line switches: /D, /C, /N, /A and /L. A switch that was
      not given is None. */
  datatype Options = Options(
    database: Option<string>,
    cube: Option<string>,
    schemaName: Option<string>,
    includeSchema: bool,
    allMember: bool)

  /** The database and cube filters of Program.cs:228 and 233: an empty filter
      selects everything; a missing one (null) selects nothing. */
  predicate Selected(filter: Option<string>, name: string) {
    filter.Some? && (filter.value == "" || name == filter.value)
  }

  /** The Mondrian schema name: /N, else the /D database name (Program.cs:200);
      null prints as the empty string. */
  function SchemaName(opts: Options): string {
    if opts.schemaName.Some? then opts.schemaName.value
    else if opts.database.Some? then opts.database.value
    else ""
  }
}
