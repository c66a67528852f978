/**
 * The code-generation module's column record: the resolved column facts plus
 * the flags it derives from the property's declaration and type.
 */
module CodegenDefinition {
  import opened Wrappers
  import opened Poet
  import opened Ksp

  /** KSP's nullability of a resolved type; `Platform` is a Java type of unknown nullability. */
  datatype Nullability = Nullable | NotNull | Platform

  datatype ClassKind = InterfaceKind | ClassKindClass | EnumClass | EnumEntry | ObjectKind | AnnotationClass

  /** What a property type's `declaration` is: a class declaration, or something else such as a type parameter. */
  datatype TypeDeclaration = ClassTypeDeclaration(classKind: ClassKind) | OtherTypeDeclaration(name: string)

  /** The resolved property type, as far as the record reads it. */
  datatype KsType = KsType(nullability: Nullability, declaration: TypeDeclaration)

  /** A converter; `ConverterDefinition.kt` is not part of this model, so only its `toString` text is kept. */
  datatype ConverterDefinition = ConverterDefinition(text: string)

  /** The owning table; the codegen `TableDefinition` is not part of this model, so it is an opaque handle. */
  datatype TableHandle = TableHandle(name: string)

  /** The primary-constructor components, in declaration order. */
  datatype ColumnDefinition = ColumnDefinition(
    columnName: string,
    isPrimaryKey: bool,
    propertyClassName: ClassName,
    entityPropertyName: MemberName,
    tablePropertyName: MemberName,
    converterDefinition: Option<ConverterDefinition>,
    propertyDeclaration: PropertyDeclaration,
    propertyType: KsType,
    tableDefinition: TableHandle,
    isReferences: bool,
    referencesColumn: Option<ColumnDefinition>)
  {
    /**
     * The derived-flag initialisers run at construction; the `isEnum` cast throws
     * unless the property type's declaration is a class declaration, so only such
     * records can exist.
     */
    predicate Constructible()
    {
      propertyType.declaration.ClassTypeDeclaration?
    }

    /** `isMutable`: the property declaration's own mutability. */
    function IsMutable(): (r: bool)
      ensures r == propertyDeclaration.isMutable
    {
      propertyDeclaration.isMutable
    }

    /** `isNullable`: anything but `NOT_NULL`, so platform types count as nullable. */
    function IsNullable(): (r: bool)
      ensures r <==> propertyType.nullability == Nullable || propertyType.nullability == Platform
    {
      propertyType.nullability != NotNull
    }

    /** `isEnum`: the property type is declared as an enum class. */
    function IsEnum(): (r: bool)
      requires Constructible()
      ensures r <==> propertyType.declaration == ClassTypeDeclaration(EnumClass)
    {
      propertyType.declaration.classKind == EnumClass
    }

    /** Assigning the one `var`, `referencesColumn`. */
    function WithReferencesColumn(column: Option<ColumnDefinition>): (r: ColumnDefinition)
      ensures r.referencesColumn == column
      ensures r.columnName == columnName && r.isPrimaryKey == isPrimaryKey
      ensures r.propertyClassName == propertyClassName && r.entityPropertyName == entityPropertyName
      ensures r.tablePropertyName == tablePropertyName && r.converterDefinition == converterDefinition
      ensures r.propertyDeclaration == propertyDeclaration && r.propertyType == propertyType
      ensures r.tableDefinition == tableDefinition && r.isReferences == isReferences
    {
      this.(referencesColumn := column)
    }

    /** The overridden `toString`, recursing into the referenced column. */
    function ToString(): (s: string)
      ensures |s| > 0 && s[0] == 'C' && s[|s| - 1] == ')'
      decreases this, 1
    {
      assert NameText()[0] == ToStringPrefix[0] == 'C';
      NameText() + (ListedText() + ReferenceText() + ")")
    }

    /** The text up to and including `isPrimaryKey=`. */
    function NameText(): string
    {
      ToStringPrefix + columnName + ToStringAfterName
    }

    /** The listed fields after the column name, up to `referencesColumn=`. */
    function ListedText(): string
    {
      BoolText(isPrimaryKey) + NamesText()
    }

    /** The class and member names and the converter, up to `referencesColumn=`. */
    function NamesText(): string
    {
      ", propertyClassName=" + propertyClassName.CanonicalName()
      + ", entityPropertyName=" + entityPropertyName.CanonicalName()
      + ", tablePropertyName=" + tablePropertyName.CanonicalName()
      + ", converterDefinition=" + (match converterDefinition case None => "null" case Some(c) => c.text)
      + ", referencesColumn="
    }

    /** `null`, or the referenced column's own `toString`. */
    function ReferenceText(): string
      decreases this, 0
    {
      match referencesColumn
      case None => "null"
      case Some(r) => r.ToString()
    }
  }

  const ToStringPrefix: string := "ColumnDefinition(columnName='"
  const ToStringAfterName: string := "', isPrimaryKey="

  /** Kotlin's rendering of a `Boolean` in a string template. */
  function BoolText(b: bool): (s: string)
    ensures s == "true" || s == "false"
    ensures b <==> s == "true"
    ensures s[0] == if b then 't' else 'f'
  {
    if b then "true" else "false"
  }

  /** The derived flags depend only on the declaration and the type, so setting `referencesColumn` keeps them. */
  lemma SettingReferenceKeepsDerivedFlags(c: ColumnDefinition, r: Option<ColumnDefinition>)
    requires c.Constructible()
    ensures c.WithReferencesColumn(r).Constructible()
    ensures c.WithReferencesColumn(r).IsMutable() == c.IsMutable()
    ensures c.WithReferencesColumn(r).IsNullable() == c.IsNullable()
    ensures c.WithReferencesColumn(r).IsEnum() == c.IsEnum()
  {
  }

  /** `toString` omits the property declaration, the property type, the table and `isReferences`. */
  lemma ToStringOmitsUnlistedFields(c: ColumnDefinition, d: PropertyDeclaration, t: KsType, h: TableHandle, isReferences: bool)
    ensures c.(propertyDeclaration := d, propertyType := t, tableDefinition := h, isReferences := isReferences).ToString() == c.ToString()
  {
  }

  /** The character after `isPrimaryKey=` and the first one after `referencesColumn=`. */
  lemma ToStringAtPrimaryKey(c: ColumnDefinition)
    ensures c.ToString()[|c.NameText()|] == BoolText(c.isPrimaryKey)[0]
  {
    assert c.ToString()[|c.NameText()|] == c.ListedText()[0];
  }

  lemma ToStringAtReference(c: ColumnDefinition)
    ensures |c.ToString()| > |c.NameText()| + |c.ListedText()|
    ensures c.ToString()[|c.NameText()| + |c.ListedText()|] == c.ReferenceText()[0]
  {
    var n, l, r := c.NameText(), c.ListedText(), c.ReferenceText();
    ReferenceTextStart(c);
    assert c.ToString() == n + (l + r + ")");
    assert (l + r + ")")[|l|] == r[0];
  }

  /** `toString` shows `isPrimaryKey`: two records differing only there render differently. */
  lemma ToStringShowsPrimaryKey(c: ColumnDefinition, d: ColumnDefinition)
    requires d == c.(isPrimaryKey := !c.isPrimaryKey)
    ensures d.ToString() != c.ToString()
  {
    ToStringAtPrimaryKey(c);
    ToStringAtPrimaryKey(d);
    assert d.NameText() == c.NameText();
  }

  /** `toString` shows the referenced column: dropping it changes the text. */
  lemma ToStringShowsReference(c: ColumnDefinition, d: ColumnDefinition)
    requires c.referencesColumn.Some? && d == c.(referencesColumn := None)
    ensures d.ToString() != c.ToString()
  {
    HeadIgnoresReference(c);
    ReferenceTextStart(c);
    ReferenceTextStart(d);
    ToStringAtReference(c);
    ToStringAtReference(d);
  }

  /** The text before the reference does not depend on it. */
  lemma HeadIgnoresReference(c: ColumnDefinition)
    ensures var d := c.(referencesColumn := None);
            d.NameText() == c.NameText() && d.ListedText() == c.ListedText()
  {
    var d := c.(referencesColumn := None);
    assert d.NamesText() == c.NamesText();
  }

  /** The reference text starts with `n` for `null`, or with the `C` of the referenced column's text. */
  lemma ReferenceTextStart(c: ColumnDefinition)
    ensures |c.ReferenceText()| > 0
    ensures c.ReferenceText()[0] == if c.referencesColumn.Some? then 'C' else 'n'
  {
  }

  /** A column name may be empty: such a record exists and renders `columnName=''`. */
  lemma EmptyColumnNameIsAllowed(c: ColumnDefinition)
    requires c.columnName == ""
    ensures c.ToString()[..|ToStringPrefix| + |ToStringAfterName|] == ToStringPrefix + ToStringAfterName
  {
    assert c.NameText() == ToStringPrefix + ToStringAfterName;
  }
}
