/**
 * The compiler's table metadata, as the processor builds it and the table
 * generator reads it.
 */
module Definition {
  import opened Poet
  import opened Ksp

  /**
   * One column of the entity: its five components, in the order the processor
   * passes them and the generator destructures them.
   */
  datatype ColumnDefinition = ColumnDefinition(
    columnName: string,
    isPrimaryKey: bool,
    propertyDeclaration: PropertyDeclaration,
    propertyTypeName: TypeName,
    property: MemberName)
  {
    /** The entity property's simple name, `property.simpleName`. */
    function PropertyName(): string { property.simpleName }
  }

  /** One table to generate, with the fields of the processor's constructor call. */
  datatype TableDefinition = TableDefinition(
    tableName: string,
    tableClassName: ClassName,
    alias: string,
    catalog: string,
    schema: string,
    entityClassName: ClassName,
    columns: seq<ColumnDefinition>,
    containingFile: string,
    entityClassDeclaration: ClassDeclaration)

  /** The property names of the columns, in column order (duplicates kept). */
  function PropertyNames(columns: seq<ColumnDefinition>): (r: seq<string>)
    ensures |r| == |columns|
    ensures forall i :: 0 <= i < |columns| ==> r[i] == columns[i].PropertyName()
  {
    seq(|columns|, i requires 0 <= i < |columns| => columns[i].PropertyName())
  }
}
