/**
 * The facts the KSP resolver supplies about annotated entity classes. Resolution,
 * `validate()` and annotation lookup are done by KSP; here their results are data.
 */
module Ksp {
  import opened Wrappers
  import opened Poet

  /** The annotations on an entity property that the processor looks for. */
  datatype Annotation =
    | TransientAnnotation                    // @Transient
    | ColumnAnnotation(columnName: string)   // @Column(columnName = ...)
    | IdAnnotation                           // @Id
    | OtherAnnotation(name: string)

  /** The arguments of the class-level `@Table` annotation that the processor reads. */
  datatype TableAnnotation = TableAnnotation(tableClassName: string, alias: string, catalog: string, schema: string)

  /** A property of the entity, as `getAllProperties()` yields it, with its resolved type. */
  datatype PropertyDeclaration = PropertyDeclaration(
    simpleName: string,
    isMutable: bool,
    typeName: TypeName,
    annotations: seq<Annotation>)

  /** A parameter of the primary constructor: its name and whether it has a default value. */
  datatype Parameter = Parameter(name: string, hasDefault: bool)

  /** A class declaration annotated with `@Table`. */
  datatype ClassDeclaration = ClassDeclaration(
    className: ClassName,
    table: TableAnnotation,
    allProperties: seq<PropertyDeclaration>,
    primaryConstructor: Option<seq<Parameter>>,
    containingFile: string)

  /** A symbol returned by `getSymbolsWithAnnotation`: a class declaration or another kind of declaration. */
  datatype Symbol =
    | ClassSymbol(declaration: ClassDeclaration, valid: bool)
    | OtherSymbol(name: string, valid: bool)
  {
    /** The outcome of KSP's `validate()` on this symbol. */
    predicate Validate() { valid }
  }
}
