/// The Mondrian schema the converter writes, as a tree of element records
/// instead of XML text. Attributes that are constant in every element of a
/// kind (highCardinality="false", hideMemberIf="Never", cache="true",
/// enabled="true", visible="true" on cubes and virtual-cube measures) are
/// left to the renderer.
module Mondrian {
  import opened Strings

  /** <Table name=.. schema=.. alias=..> */
  datatype TableRef = TableRef(name: string, schema: Option<string>, alias: Option<string>)

  /** What a hierarchy reads its members from: one table, or a join of two. */
  datatype Relation =
    | Table(table: TableRef)
    | Join(leftAlias: string, leftKey: string, rightAlias: string, rightKey: string,
           left: TableRef, right: TableRef)

  datatype Level = Level(
    name: string,
    visible: bool,
    table: Option<string>,
    column: string,
    dataType: string,
    levelType: string)

  datatype Hierarchy = Hierarchy(
    name: string,
    visible: bool,
    allMemberName: Option<string>,
    primaryKey: string,
    primaryKeyTable: Option<string>,
    relation: Relation,
    levels: seq<Level>)

  datatype DimensionType = StandardDimension | TimeDimension

  /** The attributes shared by <Dimension> and <DimensionUsage>: the converter
      builds this text once per dimension (`dname`) and reuses it. */
  datatype DimHeader = DimHeader(visible: bool, dimensionType: DimensionType, name: string)

  datatype Dimension = Dimension(header: DimHeader, hierarchies: seq<Hierarchy>)

  datatype DimensionUsage = DimensionUsage(source: string, foreignKey: string, header: DimHeader)

  datatype Measure = Measure(name: string, column: string, formatString: string, aggregator: string)

  /** <CalculatedMember dimension="Measures"> with its formula and FORMAT_STRING. */
  datatype CalculatedMember = CalculatedMember(name: string, visible: bool, formula: string, formatString: string)

  datatype Cube = Cube(
    name: string,
    fact: TableRef,
    usages: seq<DimensionUsage>,
    measures: seq<Measure>,
    calculatedMembers: seq<CalculatedMember>)

  /** The children of <Schema> before the virtual cube, in output order. */
  datatype Item = SharedDimension(dimension: Dimension) | PhysicalCube(cube: Cube)

  /** <VirtualCubeDimension cubeName name> and
      <VirtualCubeMeasure cubeName name="[Measures].[measure]">. */
  datatype VirtualEntry =
    | VirtualCubeDimension(cubeName: string, dimension: string)
    | VirtualCubeMeasure(cubeName: string, measure: string)

  datatype VirtualCube = VirtualCube(name: string, entries: seq<VirtualEntry>, calculatedMembers: seq<CalculatedMember>)

  datatype Schema = Schema(name: string, items: seq<Item>, virtualCube: VirtualCube)
}
