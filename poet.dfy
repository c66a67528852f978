/**
 * The KotlinPoet name values the generator reads and builds: class names,
 * member names and (possibly nullable) type names.
 */
module Poet {

  /** `ClassName(packageName, simpleName)` of a top-level class. */
  datatype ClassName = ClassName(packageName: string, simpleName: string) {

    /** The dotted name `toString()` renders; no leading dot in the default package. */
    function CanonicalName(): (r: string)
      ensures |r| == if packageName == "" then |simpleName| else |packageName| + 1 + |simpleName|
      ensures packageName == "" ==> r == simpleName
      ensures packageName != "" ==> r[..|packageName|] == packageName && r[|packageName|] == '.'
      ensures r[|r| - |simpleName|..] == simpleName
    {
      if packageName == "" then simpleName else packageName + "." + simpleName
    }
  }

  /** `MemberName(enclosingClassName, simpleName)`: a property of a class, such as `Employees.id`. */
  datatype MemberName = MemberName(enclosingClassName: ClassName, simpleName: string) {

    /** `<enclosing class>.<member>`, which is also its `toString()`. */
    function CanonicalName(): (r: string)
      ensures r == enclosingClassName.CanonicalName() + "." + simpleName
      ensures r[|r| - |simpleName|..] == simpleName
    {
      enclosingClassName.CanonicalName() + "." + simpleName
    }
  }

  /** A resolved type name: its canonical text and whether it carries `?`. */
  datatype TypeName = TypeName(canonicalName: string, isNullable: bool) {

    /** `copy(nullable = false)`: the same type without `?`. */
    function NonNull(): (r: TypeName)
      ensures !r.isNullable && r.canonicalName == canonicalName
      ensures !isNullable ==> r == this
    {
      this.(isNullable := false)
    }
  }
}
