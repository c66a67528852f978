/**
 * The table generators: the column properties of the generated table object and
 * their initializers, the `Database.<sequence>` property, and the functions of a
 * `BaseTable` object. The emitted code is kept as values, not as text.
 */
module TableGenerator {
  import opened Wrappers
  import opened Poet
  import opened Ksp
  import opened Definition
  import opened CreateEntity
  import KtormProcessor

  /** `TableGenerator` extends `Table<E>`; `BaseTableGenerator` extends `BaseTable<E>` and writes `doCreateEntity`. */
  datatype GeneratorKind = TableKind | BaseTableKind

  /** One piece of a column property's initializer, in the order the code block receives them. */
  datatype InitializerPart =
    | ColumnFunction(column: ColumnDefinition)  // what the column initializer generator emits for the column
    | BindTo(entityProperty: string)            // `.bindTo { it.<entityProperty> }`
    | PrimaryKey                                // `.primaryKey()`

  /** A column property of the table object: `val <name>: Column<<columnType>> = <initializer>`. */
  datatype PropertySpec = PropertySpec(name: string, columnType: TypeName, initializer: seq<InitializerPart>)

  /** `Database.<name>: EntitySequence<<entityClassName>, <tableClassName>>`, whose getter is `this.sequenceOf(<tableClassName>)`. */
  datatype SequenceProperty = SequenceProperty(name: string, entityClassName: ClassName, tableClassName: ClassName, receiver: ClassName)

  /** `override fun doCreateEntity(row: QueryRowSet, withReferences: Boolean): <returnType>` with its body. */
  datatype FunctionSpec = DoCreateEntity(returnType: ClassName, body: seq<Statement>)

  const Database := ClassName("org.ktorm.database", "Database")

  /** Property names a table object already has, so no column property is generated for them. */
  const IgnoredDefinitionProperties := ["entityClass", "properties"]

  // ---------------------------------------------------------------------------
  // Column properties
  // ---------------------------------------------------------------------------

  /**
   * `generatePropertyInitializer`: the column function first; a `Table` then binds
   * the column; `.primaryKey()` comes last, exactly for a primary key column.
   */
  function GeneratePropertyInitializer(kind: GeneratorKind, column: ColumnDefinition): (r: seq<InitializerPart>)
    ensures |r| > 0 && r[0] == ColumnFunction(column)
    ensures forall k :: 1 <= k < |r| ==> !r[k].ColumnFunction?
    ensures (PrimaryKey in r <==> column.isPrimaryKey) && (column.isPrimaryKey ==> r[|r| - 1] == PrimaryKey)
    ensures forall k :: 0 <= k < |r| - 1 ==> r[k] != PrimaryKey
    ensures forall k :: 0 <= k < |r| ==> (r[k].BindTo? <==> kind == TableKind && k == 1)
    ensures kind == TableKind ==> |r| > 1 && r[1] == BindTo(column.columnName)
  {
    [ColumnFunction(column)]
    + (if kind == TableKind then [BindTo(column.columnName)] else [])
    + (if column.isPrimaryKey then [PrimaryKey] else [])
  }

  /** `generateProperty`: named after the column name, typed by the non-null property type. */
  function GenerateProperty(kind: GeneratorKind, column: ColumnDefinition): (p: PropertySpec)
    ensures p.name == column.columnName
    ensures !p.columnType.isNullable && p.columnType.canonicalName == column.propertyTypeName.canonicalName
    ensures p.initializer == GeneratePropertyInitializer(kind, column)
    ensures kind == TableKind ==> |p.initializer| > 1 && p.initializer[1] == BindTo(p.name)
  {
    PropertySpec(column.columnName, column.propertyTypeName.NonNull(), GeneratePropertyInitializer(kind, column))
  }

  predicate IsIgnored(column: ColumnDefinition)
  {
    column.PropertyName() in IgnoredDefinitionProperties
  }

  /** The columns that get a property, in column order. */
  function KeptColumns(columns: seq<ColumnDefinition>): (r: seq<ColumnDefinition>)
    ensures forall c :: c in r <==> c in columns && !IsIgnored(c)
    ensures |r| <= |columns|
  {
    if columns == [] then []
    else (if IsIgnored(columns[0]) then [] else [columns[0]]) + KeptColumns(columns[1..])
  }

  lemma {:induction false} KeptColumnsAppend(a: seq<ColumnDefinition>, b: seq<ColumnDefinition>)
    ensures KeptColumns(a + b) == KeptColumns(a) + KeptColumns(b)
  {
    if a == [] {
      assert a + b == b;
    } else {
      var ab := a + b;
      var head := if IsIgnored(a[0]) then [] else [a[0]];
      assert ab[0] == a[0] && ab[1..] == a[1..] + b;
      assert KeptColumns(ab) == head + KeptColumns(a[1..] + b);
      KeptColumnsAppend(a[1..], b);
      assert KeptColumns(a) == head + KeptColumns(a[1..]);
      ConcatAssociates(head, KeptColumns(a[1..]), KeptColumns(b));
    }
  }

  /** `generateProperties`: one property per kept column, in column order. */
  function GenerateProperties(kind: GeneratorKind, columns: seq<ColumnDefinition>): (r: seq<PropertySpec>)
    ensures |r| == |KeptColumns(columns)|
    ensures forall i :: 0 <= i < |r| ==> r[i] == GenerateProperty(kind, KeptColumns(columns)[i])
  {
    var kept := KeptColumns(columns);
    seq(|kept|, i requires 0 <= i < |kept| => GenerateProperty(kind, kept[i]))
  }

  /** The property names the table object declares. */
  function DeclaredNames(properties: seq<PropertySpec>): (r: seq<string>)
    ensures |r| == |properties| && forall i :: 0 <= i < |properties| ==> r[i] == properties[i].name
  {
    seq(|properties|, i requires 0 <= i < |properties| => properties[i].name)
  }

  /** A column gets a property exactly when its property is not an ignored name; that property carries the column name. */
  lemma GeneratedPropertiesCoverColumns(kind: GeneratorKind, columns: seq<ColumnDefinition>)
    ensures forall c :: c in columns && !IsIgnored(c) ==> GenerateProperty(kind, c) in GenerateProperties(kind, columns)
    ensures forall p :: p in GenerateProperties(kind, columns) ==>
              exists c :: c in columns && !IsIgnored(c) && p == GenerateProperty(kind, c)
    ensures forall n :: n in DeclaredNames(GenerateProperties(kind, columns)) ==>
              exists c :: c in columns && !IsIgnored(c) && n == c.columnName
  {
    var r := GenerateProperties(kind, columns);
    var kept := KeptColumns(columns);
    forall c | c in columns && !IsIgnored(c)
      ensures GenerateProperty(kind, c) in r
    {
      var i :| 0 <= i < |kept| && kept[i] == c;
      assert r[i] == GenerateProperty(kind, c);
    }
    forall p | p in r
      ensures exists c :: c in columns && !IsIgnored(c) && p == GenerateProperty(kind, c)
    {
      var i :| 0 <= i < |r| && r[i] == p;
      assert kept[i] in kept;
    }
    forall n | n in DeclaredNames(r)
      ensures exists c :: c in columns && !IsIgnored(c) && n == c.columnName
    {
      var i :| 0 <= i < |r| && DeclaredNames(r)[i] == n;
      assert r[i] in r;
    }
  }

  // ---------------------------------------------------------------------------
  // The sequence property
  // ---------------------------------------------------------------------------

  /** `lowercase()` on a one-character string, for ASCII letters. */
  function LowerAscii(ch: char): (r: char)
    ensures 'A' <= ch <= 'Z' ==> 'a' <= r <= 'z' && r as int - 'a' as int == ch as int - 'A' as int
    ensures !('A' <= ch <= 'Z') ==> r == ch
  {
    if 'A' <= ch <= 'Z' then (ch as int + 32) as char else ch
  }

  /**
   * `substring(0, 1).lowercase() + substring(1)`: the first character lowercased and
   * the rest unchanged; `substring(0, 1)` throws on an empty name.
   */
  function SequenceName(tableClassName: string): (r: Option<string>)
    ensures r.None? <==> tableClassName == ""
    ensures r.Some? ==> |r.value| == |tableClassName| && r.value[1..] == tableClassName[1..]
    ensures r.Some? ==> r.value[0] == LowerAscii(tableClassName[0]) && !('A' <= r.value[0] <= 'Z')
  {
    if tableClassName == "" then None else Some([LowerAscii(tableClassName[0])] + tableClassName[1..])
  }

  /** Lowercasing a lowered name changes nothing more. */
  lemma SequenceNameIdempotent(tableClassName: string)
    requires tableClassName != ""
    ensures SequenceName(SequenceName(tableClassName).value) == SequenceName(tableClassName)
  {
    var s := SequenceName(tableClassName).value;
    assert [LowerAscii(s[0])] + s[1..] == s;
  }

  /** `generateTopLevelProperties`: the one sequence property, or nothing when the name cannot be derived. */
  function GenerateTopLevelProperties(table: TableDefinition): (r: Option<seq<SequenceProperty>>)
    ensures r.Some? <==> table.tableClassName.simpleName != ""
    ensures r.Some? ==> (&& |r.value| == 1 && r.value[0].receiver == Database
                         && r.value[0].entityClassName == table.entityClassName && r.value[0].tableClassName == table.tableClassName
                         && Some(r.value[0].name) == SequenceName(table.tableClassName.simpleName))
  {
    match SequenceName(table.tableClassName.simpleName)
    case None => None
    case Some(name) => Some([SequenceProperty(name, table.entityClassName, table.tableClassName, Database)])
  }

  /**
   * For a resolved table the sequence property always exists: its name is the
   * entity name with the first character lowercased, followed by `s`.
   */
  lemma ResolvedTableSequenceName(d: ClassDeclaration)
    ensures var t := KtormProcessor.ResolveTable(d);
            var r := GenerateTopLevelProperties(t);
            var e := d.className.simpleName;
            && r.Some?
            && |r.value[0].name| == |e| + 1 && r.value[0].name[|e|] == 's'
            && (e != "" ==> r.value[0].name[0] == LowerAscii(e[0]) && r.value[0].name[1..|e|] == e[1..])
  {
    var t := KtormProcessor.ResolveTable(d);
    var e := d.className.simpleName;
    var n := t.tableClassName.simpleName;
    assert n == e + "s";
    var name := GenerateTopLevelProperties(t).value[0].name;
    assert name[1..] == n[1..];
    if e != "" {
      assert n[0] == e[0];
      assert name[1..|e|] == n[1..][..|e| - 1];
      assert n[1..][..|e| - 1] == e[1..];
    }
  }

  // ---------------------------------------------------------------------------
  // Functions of the table object
  // ---------------------------------------------------------------------------

  /** `generateFunctions`: none for a `Table`; for a `BaseTable` the `doCreateEntity` function, or the generation error. */
  method GenerateFunctions(kind: GeneratorKind, table: TableDefinition, allowReflectionCreateEntity: bool)
    returns (r: Result<seq<FunctionSpec>, GenerationError>)
    ensures kind == TableKind ==> r == Ok([])
    ensures kind == BaseTableKind ==>
              var body := CreateEntityBody(table, allowReflectionCreateEntity);
              && (r.Ok? <==> body.Ok?)
              && (r.Ok? ==> r.value == [DoCreateEntity(table.entityClassName, body.value)])
              && (r.Err? ==> r.error == body.error)
  {
    if kind == TableKind {
      return Ok([]);
    }
    var body := GenerateCreateEntity(table, allowReflectionCreateEntity);
    match body {
      case Ok(code) => r := Ok([DoCreateEntity(table.entityClassName, code)]);
      case Err(e) => r := Err(e);
    }
  }

  // ---------------------------------------------------------------------------
  // The members `doCreateEntity` reads, against the properties declared
  // ---------------------------------------------------------------------------

  /** The table member a statement reads from the row, if any. */
  ghost predicate StatementReads(s: Statement, m: MemberName)
  {
    match s
    case PutIfNonNull(_, column) => column == m
    case Put(_, column, _) => column == m
    case DirectCall(arguments) => exists i :: 0 <= i < |arguments| && arguments[i].column == m
    case Assign(_, column, _) => column == m
    case _ => false
  }

  ghost predicate BodyReads(code: seq<Statement>, m: MemberName)
  {
    exists k :: 0 <= k < |code| && StatementReads(code[k], m)
  }

  /** Every column's member is `<table class>.<property name>`, as the processor builds it. */
  ghost predicate ColumnsBelongToTable(table: TableDefinition)
  {
    forall c :: c in table.columns ==> c.property == MemberName(table.tableClassName, c.PropertyName())
  }

  /** The code reads only members of `tableClassName` whose names are among `names`. */
  ghost predicate ReadsOnly(code: seq<Statement>, tableClassName: ClassName, names: seq<string>)
  {
    forall m :: BodyReads(code, m) ==> m.enclosingClassName == tableClassName && m.simpleName in names
  }

  /** The column map of a table whose columns belong to it maps each property name to `<table class>.<name>`. */
  lemma ColumnMapMembers(table: TableDefinition)
    requires ColumnsBelongToTable(table)
    ensures forall name :: name in ColumnMap(table.columns) ==>
              name in PropertyNames(table.columns)
              && ColumnMap(table.columns)[name].property == MemberName(table.tableClassName, name)
  {
  }

  /** The reflective entries read only the members the column map holds. */
  lemma EntriesReadMapMembers(parameters: seq<Parameter>, columnMap: map<string, ColumnDefinition>,
                              tableClassName: ClassName, names: seq<string>)
    requires forall name :: name in columnMap ==> name in names && columnMap[name].property == MemberName(tableClassName, name)
    requires ReflectiveEntries(parameters, columnMap).Ok?
    ensures ReadsOnly(ReflectiveEntries(parameters, columnMap).value, tableClassName, names)
  {
    var entries := ReflectiveEntries(parameters, columnMap).value;
    forall m | BodyReads(entries, m)
      ensures m.enclosingClassName == tableClassName && m.simpleName in names
    {
      var k :| 0 <= k < |entries| && StatementReads(entries[k], m);
      var name := parameters[k].name;
      assert entries[k] == ReflectiveEntry(parameters[k], columnMap[name]);
      assert m == MemberName(tableClassName, name);
    }
  }

  /** The direct call reads `<table class>.<property>` of each parameter's column. */
  lemma ArgumentsReadColumnMembers(table: TableDefinition, parameters: seq<Parameter>)
    requires DirectArguments(parameters, table).Ok?
    ensures ReadsOnly([DirectCall(DirectArguments(parameters, table).value)], table.tableClassName, PropertyNames(table.columns))
  {
    var arguments := DirectArguments(parameters, table).value;
    forall m | BodyReads([DirectCall(arguments)], m)
      ensures m.enclosingClassName == table.tableClassName && m.simpleName in PropertyNames(table.columns)
    {
      assert StatementReads([DirectCall(arguments)][0], m);
      var i :| 0 <= i < |arguments| && arguments[i].column == m;
      var c := FirstColumn(table.columns, parameters[i].name).value;
      assert arguments[i] == DirectArgument(table.tableClassName, parameters[i], c);
    }
  }

  /** Statements that read nothing can be added around code without changing what it reads. */
  lemma ReadsOnlyConcat(a: seq<Statement>, b: seq<Statement>, tableClassName: ClassName, names: seq<string>)
    requires ReadsOnly(a, tableClassName, names) && ReadsOnly(b, tableClassName, names)
    ensures ReadsOnly(a + b, tableClassName, names)
  {
    forall m | BodyReads(a + b, m)
      ensures m.enclosingClassName == tableClassName && m.simpleName in names
    {
      var k :| 0 <= k < |a + b| && StatementReads((a + b)[k], m);
      if k < |a| {
        assert StatementReads(a[k], m);
      } else {
        assert StatementReads(b[k - |a|], m);
      }
    }
  }

  lemma InstanceReadsColumnMembers(table: TableDefinition, parameters: seq<Parameter>, allowReflectionCreateEntity: bool)
    requires ColumnsBelongToTable(table)
    requires InstanceCode(table, parameters, allowReflectionCreateEntity).Ok?
    ensures ReadsOnly(InstanceCode(table, parameters, allowReflectionCreateEntity).value, table.tableClassName, PropertyNames(table.columns))
  {
    var names := PropertyNames(table.columns);
    if UsesCallBy(parameters, allowReflectionCreateEntity) {
      var entries := ReflectiveEntries(parameters, ColumnMap(table.columns)).value;
      ColumnMapMembers(table);
      EntriesReadMapMembers(parameters, ColumnMap(table.columns), table.tableClassName, names);
      assert ReadsOnly([LookupPrimaryConstructor], table.tableClassName, names);
      assert ReadsOnly([CallBy], table.tableClassName, names);
      ReadsOnlyConcat([LookupPrimaryConstructor], entries, table.tableClassName, names);
      ReadsOnlyConcat([LookupPrimaryConstructor] + entries, [CallBy], table.tableClassName, names);
    } else {
      ArgumentsReadColumnMembers(table, parameters);
    }
  }

  /** The assignments after construction read only `<table class>.<property>` of column properties. */
  lemma AssignmentsReadColumnMembers(table: TableDefinition, parameters: seq<Parameter>)
    ensures ReadsOnly(PostAssignments(table, parameters), table.tableClassName, PropertyNames(table.columns))
  {
    var a := PostAssignments(table, parameters);
    AssignmentReads(table, parameters);
    forall m | BodyReads(a, m)
      ensures m.enclosingClassName == table.tableClassName && m.simpleName in PropertyNames(table.columns)
    {
      var k :| 0 <= k < |a| && StatementReads(a[k], m);
      assert a[k].Assign?;
    }
  }

  /** Everything the body reads is a member of the table class named after a column's property. */
  lemma BodyReadsColumnMembers(table: TableDefinition, allowReflectionCreateEntity: bool)
    requires ColumnsBelongToTable(table)
    requires CreateEntityBody(table, allowReflectionCreateEntity).Ok?
    ensures var code := CreateEntityBody(table, allowReflectionCreateEntity).value;
            forall m :: BodyReads(code, m) ==>
              m.enclosingClassName == table.tableClassName && m.simpleName in PropertyNames(table.columns)
  {
    var parameters := table.entityClassDeclaration.primaryConstructor.value;
    var names := PropertyNames(table.columns);
    BodyParts(table, allowReflectionCreateEntity);
    var instance := InstanceCode(table, parameters, allowReflectionCreateEntity).value;
    var a := PostAssignments(table, parameters);
    InstanceReadsColumnMembers(table, parameters, allowReflectionCreateEntity);
    AssignmentsReadColumnMembers(table, parameters);
    assert ReadsOnly([Return], table.tableClassName, names);
    ReadsOnlyConcat(instance, a, table.tableClassName, names);
    ReadsOnlyConcat(instance + a, [Return], table.tableClassName, names);
    assert ReadsOnly(CreateEntityBody(table, allowReflectionCreateEntity).value, table.tableClassName, names);
  }

  /** A property whose column name differs from its property name: `@Column(columnName = "emp_name") val name: String`. */
  const RenamedColumnTable := ClassName("demo", "Employees")

  predicate IsRenamedColumnTable(table: TableDefinition)
  {
    && table.tableClassName == RenamedColumnTable
    && table.entityClassDeclaration.primaryConstructor == Some([Parameter("name", false)])
    && |table.columns| == 1
    && table.columns[0].columnName == "emp_name"
    && table.columns[0].property == MemberName(RenamedColumnTable, "name")
    && !table.columns[0].propertyTypeName.isNullable
  }

  /**
   * As written: the body reads `Employees.name`, but the table object declares
   * only `emp_name` (which a `Table` binds to `it.emp_name`, not an entity property).
   */
  lemma RenamedColumnIsNotDeclared(kind: GeneratorKind, table: TableDefinition)
    requires IsRenamedColumnTable(table)
    ensures CreateEntityBody(table, false) == Ok([DirectCall([NamedArgument("name", MemberName(RenamedColumnTable, "name"), true)])] + [Return])
    ensures BodyReads(CreateEntityBody(table, false).value, MemberName(RenamedColumnTable, "name"))
    ensures DeclaredNames(GenerateProperties(kind, table.columns)) == ["emp_name"]
    ensures kind == TableKind ==> GenerateProperties(kind, table.columns)[0].initializer[1] == BindTo("emp_name")
  {
    RenamedColumnBody(table);
    var code := CreateEntityBody(table, false).value;
    var argument := NamedArgument("name", MemberName(RenamedColumnTable, "name"), true);
    assert code[0] == DirectCall([argument]) && [argument][0].column == MemberName(RenamedColumnTable, "name");
    assert StatementReads(code[0], MemberName(RenamedColumnTable, "name"));
    RenamedColumnProperties(kind, table);
  }

  /** The body for the renamed column: a direct call that reads `Employees.name`. */
  lemma RenamedColumnBody(table: TableDefinition)
    requires IsRenamedColumnTable(table)
    ensures CreateEntityBody(table, false) == Ok([DirectCall([NamedArgument("name", MemberName(RenamedColumnTable, "name"), true)])] + [Return])
  {
    var c := table.columns[0];
    var parameters := [Parameter("name", false)];
    var arguments := [NamedArgument("name", MemberName(RenamedColumnTable, "name"), true)];
    assert PropertyNames(table.columns) == ["name"];
    assert Distinct(["name"]) == ["name"] by {
      assert ["name"][..0] == [];
    }
    assert UnknownParameters(parameters, ["name"]) == [];
    assert ParameterNames(parameters) == ["name"];
    assert NonStructural(table, parameters) == [];
    assert FirstColumn(table.columns, "name") == Some(c);
    var d := DirectArguments(parameters, table);
    assert d.Ok? && d.value[0] == arguments[0];
    assert d.value == arguments;
    BodyWithoutAssignments(table, parameters, false, [DirectCall(arguments)]);
  }

  /** The properties for the renamed column: only `emp_name`, bound in a `Table` to `it.emp_name`. */
  lemma RenamedColumnProperties(kind: GeneratorKind, table: TableDefinition)
    requires IsRenamedColumnTable(table)
    ensures DeclaredNames(GenerateProperties(kind, table.columns)) == ["emp_name"]
    ensures kind == TableKind ==> GenerateProperties(kind, table.columns)[0].initializer[1] == BindTo("emp_name")
  {
    var c := table.columns[0];
    assert KeptColumns(table.columns) == [c] by {
      assert table.columns == [c];
      assert !IsIgnored(c);
    }
    assert GenerateProperties(kind, table.columns)[0] == GenerateProperty(kind, c);
  }

  /** As evidently intended: the property is named after, and bound to, the entity property. */
  function GeneratePropertyCorrected(kind: GeneratorKind, column: ColumnDefinition): (p: PropertySpec)
    ensures p.name == column.PropertyName()
    ensures !p.columnType.isNullable && p.columnType.canonicalName == column.propertyTypeName.canonicalName
    ensures kind == TableKind ==> |p.initializer| > 1 && p.initializer[1] == BindTo(column.PropertyName())
    ensures (PrimaryKey in p.initializer) <==> column.isPrimaryKey
  {
    var initializer := [ColumnFunction(column)]
                       + (if kind == TableKind then [BindTo(column.PropertyName())] else [])
                       + (if column.isPrimaryKey then [PrimaryKey] else []);
    PropertySpec(column.PropertyName(), column.propertyTypeName.NonNull(), initializer)
  }

  function GeneratePropertiesCorrected(kind: GeneratorKind, columns: seq<ColumnDefinition>): (r: seq<PropertySpec>)
    ensures |r| == |KeptColumns(columns)|
    ensures forall i :: 0 <= i < |r| ==> r[i] == GeneratePropertyCorrected(kind, KeptColumns(columns)[i])
  {
    var kept := KeptColumns(columns);
    seq(|kept|, i requires 0 <= i < |kept| => GeneratePropertyCorrected(kind, kept[i]))
  }

  /** Corrected: every member the body reads is a property of the table object, or one a table object already has. */
  lemma CorrectedDeclaresEveryRead(kind: GeneratorKind, table: TableDefinition, allowReflectionCreateEntity: bool)
    requires ColumnsBelongToTable(table)
    requires CreateEntityBody(table, allowReflectionCreateEntity).Ok?
    ensures var code := CreateEntityBody(table, allowReflectionCreateEntity).value;
            forall m :: BodyReads(code, m) ==>
              && m.enclosingClassName == table.tableClassName
              && (m.simpleName in IgnoredDefinitionProperties
                  || m.simpleName in DeclaredNames(GeneratePropertiesCorrected(kind, table.columns)))
  {
    var code := CreateEntityBody(table, allowReflectionCreateEntity).value;
    BodyReadsColumnMembers(table, allowReflectionCreateEntity);
    forall m | BodyReads(code, m) && m.simpleName !in IgnoredDefinitionProperties
      ensures m.simpleName in DeclaredNames(GeneratePropertiesCorrected(kind, table.columns))
    {
      CorrectedDeclaresKeptName(kind, table.columns, m.simpleName);
    }
  }

  /** Corrected: every property name that is not an ignored one is declared. */
  lemma CorrectedDeclaresKeptName(kind: GeneratorKind, columns: seq<ColumnDefinition>, name: string)
    requires name in PropertyNames(columns) && name !in IgnoredDefinitionProperties
    ensures name in DeclaredNames(GeneratePropertiesCorrected(kind, columns))
  {
    var r := GeneratePropertiesCorrected(kind, columns);
    var kept := KeptColumns(columns);
    var i :| 0 <= i < |columns| && PropertyNames(columns)[i] == name;
    var c := columns[i];
    assert c in kept;
    var j :| 0 <= j < |kept| && kept[j] == c;
    assert DeclaredNames(r)[j] == name;
  }

  /** For a table the processor resolved, the corrected generator declares every member the body reads. */
  lemma ResolvedTableDeclaresEveryRead(kind: GeneratorKind, d: ClassDeclaration, allowReflectionCreateEntity: bool)
    requires CreateEntityBody(KtormProcessor.ResolveTable(d), allowReflectionCreateEntity).Ok?
    ensures var t := KtormProcessor.ResolveTable(d);
            var code := CreateEntityBody(t, allowReflectionCreateEntity).value;
            forall m :: BodyReads(code, m) ==>
              && m.enclosingClassName == t.tableClassName
              && (m.simpleName in IgnoredDefinitionProperties
                  || m.simpleName in DeclaredNames(GeneratePropertiesCorrected(kind, t.columns)))
  {
    KtormProcessor.ResolvedMembersBelongToTable(d);
    CorrectedDeclaresEveryRead(kind, KtormProcessor.ResolveTable(d), allowReflectionCreateEntity);
  }
}
