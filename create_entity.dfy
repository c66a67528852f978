/**
 * `BaseTableGenerator.generateFunctions`: the body of `doCreateEntity`, which
 * rebuilds an entity from a query row. The emitted code is kept as abstract
 * statements, in the order the code builder receives them.
 */
module CreateEntity {
  import opened Wrappers
  import opened Poet
  import opened Ksp
  import opened Definition

  /** One named argument of the direct constructor call: `<parameter> = row[<column>]`, plus `!!` when `notNull`. */
  datatype NamedArgument = NamedArgument(parameter: string, column: MemberName, notNull: bool)

  datatype Statement =
    | LookupPrimaryConstructor                                     // `val constructor = E::class.primaryConstructor!!`, then an empty `parameterMap`
    | PutIfNonNull(parameter: string, column: MemberName)          // `"p" -> { val value = row[col]; if (value != null) parameterMap[parameter] = value }`
    | Put(parameter: string, column: MemberName, notNull: bool)    // `"p" -> { val value = row[col]; parameterMap[parameter] = value!! }`
    | CallBy                                                       // `val instance = constructor.callBy(parameterMap)`
    | DirectCall(arguments: seq<NamedArgument>)                    // `val instance = E(p = row[T.p]!!, ...)`
    | Assign(property: string, column: MemberName, notNull: bool)  // `instance.p = row[T.p]!!`
    | Return                                                       // `return instance`

  /** What generation throws instead of emitting a body. */
  datatype GenerationError =
    | NoPrimaryConstructor                              // `primaryConstructor!!` on a class without one
    | UnknownConstructorParameters(names: seq<string>)  // `error("unknown constructor parameter ...")`
    | ParameterColumnMissing(name: string)              // `columnMap[parameterName]!!` in the reflective branch
    | ParameterNotInTable(name: string)                 // `error("Construct parameter not exists in table: ...")`

  // ---------------------------------------------------------------------------
  // The collections the generator derives from the table
  // ---------------------------------------------------------------------------

  /** `columns.associateBy { it.property.simpleName }`: a later column replaces an earlier one of the same name. */
  function ColumnMap(columns: seq<ColumnDefinition>): (m: map<string, ColumnDefinition>)
    ensures forall name :: name in m <==> name in PropertyNames(columns)
    ensures forall name :: name in m ==> m[name] in columns && m[name].PropertyName() == name
  {
    if columns == [] then map[]
    else
      var init := columns[..|columns| - 1];
      var last := columns[|columns| - 1];
      assert PropertyNames(columns) == PropertyNames(init) + [last.PropertyName()];
      ColumnMap(init)[last.PropertyName() := last]
  }

  /** `columns.firstOrNull { it.property.simpleName == name }`. */
  function FirstColumn(columns: seq<ColumnDefinition>, name: string): (r: Option<ColumnDefinition>)
    ensures r.None? <==> name !in PropertyNames(columns)
    ensures r.Some? ==> r.value in columns && r.value.PropertyName() == name
  {
    if columns == [] then None
    else if columns[0].PropertyName() == name then Some(columns[0])
    else
      assert PropertyNames(columns) == [columns[0].PropertyName()] + PropertyNames(columns[1..]);
      FirstColumn(columns[1..], name)
  }

  /** `associateBy` keeps, for each name, the last column with that property name. */
  lemma {:induction false} ColumnMapKeepsLast(columns: seq<ColumnDefinition>, name: string)
    requires name in PropertyNames(columns)
    ensures exists i :: 0 <= i < |columns| && columns[i] == ColumnMap(columns)[name]
                        && forall j :: i < j < |columns| ==> columns[j].PropertyName() != name
  {
    var init := columns[..|columns| - 1];
    var last := columns[|columns| - 1];
    assert PropertyNames(columns) == PropertyNames(init) + [last.PropertyName()];
    if last.PropertyName() == name {
      assert columns[|columns| - 1] == ColumnMap(columns)[name];
    } else {
      assert name in PropertyNames(init);
      ColumnMapKeepsLast(init, name);
      var i :| 0 <= i < |init| && init[i] == ColumnMap(init)[name]
               && forall j :: i < j < |init| ==> init[j].PropertyName() != name;
      assert ColumnMap(columns)[name] == ColumnMap(init)[name];
      assert columns[i] == init[i];
      forall j | i < j < |columns| ensures columns[j].PropertyName() != name {
        if j < |init| { assert columns[j] == init[j]; }
      }
    }
  }

  /** `firstOrNull` finds the first column with that property name. */
  lemma {:induction false} FirstColumnIsFirst(columns: seq<ColumnDefinition>, name: string)
    ensures FirstColumn(columns, name).Some? ==>
              exists i :: 0 <= i < |columns| && columns[i] == FirstColumn(columns, name).value
                          && forall j :: 0 <= j < i ==> columns[j].PropertyName() != name
  {
    if columns != [] && columns[0].PropertyName() != name {
      var tail := columns[1..];
      FirstColumnIsFirst(tail, name);
      assert FirstColumn(columns, name) == FirstColumn(tail, name);
      if FirstColumn(tail, name).Some? {
        var i :| 0 <= i < |tail| && tail[i] == FirstColumn(tail, name).value
                 && forall j :: 0 <= j < i ==> tail[j].PropertyName() != name;
        assert columns[i + 1] == tail[i];
        forall j | 0 <= j < i + 1 ensures columns[j].PropertyName() != name {
          if j > 0 { assert columns[j] == tail[j - 1]; }
        }
      }
    }
  }

  /** With two columns of one property name, the map entries and assignments see the second, the direct call the first. */
  lemma DuplicateNameColumns(a: ColumnDefinition, b: ColumnDefinition)
    requires a.PropertyName() == b.PropertyName()
    ensures ColumnMap([a, b])[a.PropertyName()] == b
    ensures FirstColumn([a, b], a.PropertyName()) == Some(a)
  {
    assert [a, b][..1] == [a];
  }

  /** `toMutableSet()`: a LinkedHashSet, which keeps each name once, where it first occurs. */
  function Distinct(names: seq<string>): (r: seq<string>)
    ensures forall x :: x in r <==> x in names
  {
    if names == [] then []
    else
      var init := names[..|names| - 1];
      var last := names[|names| - 1];
      assert names == init + [last];
      Distinct(init) + (if last in init then [] else [last])
  }

  /** The ordered set with the names of `removed` taken out. */
  function Without(names: seq<string>, removed: seq<string>): (r: seq<string>)
    ensures forall x :: x in r <==> x in names && x !in removed
    ensures |r| <= |names|
  {
    if names == [] then []
    else (if names[0] in removed then [] else [names[0]]) + Without(names[1..], removed)
  }

  /** `remove(name)` on the ordered set. */
  function Remove(names: seq<string>, name: string): seq<string>
  {
    Without(names, [name])
  }

  function ParameterNames(parameters: seq<Parameter>): (r: seq<string>)
    ensures |r| == |parameters| && forall i :: 0 <= i < |parameters| ==> r[i] == parameters[i].name
  {
    seq(|parameters|, i requires 0 <= i < |parameters| => parameters[i].name)
  }

  /** `parameters.filter { !it.hasDefault && it.name !in properties }`, as names. */
  function UnknownParameters(parameters: seq<Parameter>, properties: seq<string>): (r: seq<string>)
    ensures forall n :: n in r <==> exists p :: p in parameters && !p.hasDefault && p.name !in properties && p.name == n
  {
    if parameters == [] then []
    else
      var p := parameters[0];
      assert forall q :: q in parameters <==> q == p || q in parameters[1..];
      (if !p.hasDefault && p.name !in properties then [p.name] else []) + UnknownParameters(parameters[1..], properties)
  }

  /** `parameters.any { it.hasDefault }`. */
  predicate AnyDefault(parameters: seq<Parameter>)
  {
    exists i :: 0 <= i < |parameters| && parameters[i].hasDefault
  }

  // ---------------------------------------------------------------------------
  // Specification of the generated body
  // ---------------------------------------------------------------------------

  /** The `when` branch for one parameter of the reflective strategy, given its column. */
  function ReflectiveEntry(parameter: Parameter, column: ColumnDefinition): Statement
  {
    if parameter.hasDefault then PutIfNonNull(parameter.name, column.property)
    else Put(parameter.name, column.property, !column.propertyTypeName.isNullable)
  }

  /** The `when` branches, failing at the first parameter that has no column. */
  function ReflectiveEntries(parameters: seq<Parameter>, columnMap: map<string, ColumnDefinition>): (r: Result<seq<Statement>, GenerationError>)
    ensures r.Ok? <==> forall i :: 0 <= i < |parameters| ==> parameters[i].name in columnMap
    ensures r.Ok? ==> (|r.value| == |parameters| &&
              forall i {:trigger r.value[i]} :: 0 <= i < |parameters| ==> r.value[i] == ReflectiveEntry(parameters[i], columnMap[parameters[i].name]))
    ensures r.Err? ==> (exists i :: 0 <= i < |parameters| && parameters[i].name !in columnMap
                                  && r.error == ParameterColumnMissing(parameters[i].name))
  {
    if parameters == [] then Ok([])
    else
      var p := parameters[0];
      if p.name !in columnMap then Err(ParameterColumnMissing(p.name))
      else
        var rest := ReflectiveEntries(parameters[1..], columnMap);
        assert forall i :: 1 <= i < |parameters| ==> parameters[i] == parameters[1..][i - 1];
        match rest
        case Ok(entries) => Ok([ReflectiveEntry(p, columnMap[p.name])] + entries)
        case Err(e) => Err(e)
  }

  /** The named argument for one parameter of the direct strategy, given its column. */
  function DirectArgument(tableClassName: ClassName, parameter: Parameter, column: ColumnDefinition): NamedArgument
  {
    NamedArgument(parameter.name, MemberName(tableClassName, column.PropertyName()), !column.propertyTypeName.isNullable)
  }

  /** The named arguments, failing at the first parameter that has no column. */
  function DirectArguments(parameters: seq<Parameter>, table: TableDefinition): (r: Result<seq<NamedArgument>, GenerationError>)
    ensures r.Ok? <==> forall i :: 0 <= i < |parameters| ==> parameters[i].name in PropertyNames(table.columns)
    ensures r.Ok? ==> (|r.value| == |parameters| &&
              forall i {:trigger r.value[i]} :: 0 <= i < |parameters| ==>
                r.value[i] == DirectArgument(table.tableClassName, parameters[i], FirstColumn(table.columns, parameters[i].name).value))
    ensures r.Err? ==> (exists i :: 0 <= i < |parameters| && parameters[i].name !in PropertyNames(table.columns)
                                  && r.error == ParameterNotInTable(parameters[i].name))
  {
    if parameters == [] then Ok([])
    else
      var p := parameters[0];
      match FirstColumn(table.columns, p.name)
      case None => Err(ParameterNotInTable(p.name))
      case Some(column) =>
        var rest := DirectArguments(parameters[1..], table);
        assert forall i :: 1 <= i < |parameters| ==> parameters[i] == parameters[1..][i - 1];
        match rest
        case Err(e) => Err(e)
        case Ok(more) => Ok([DirectArgument(table.tableClassName, p, column)] + more)
  }

  /** The assignment after construction for one remaining property: none when the property is read-only. */
  function Assignment(tableClassName: ClassName, property: string, column: ColumnDefinition): seq<Statement>
  {
    if !column.propertyDeclaration.isMutable then []
    else [Assign(property, MemberName(tableClassName, column.PropertyName()), !column.propertyTypeName.isNullable)]
  }

  /** The assignments for the remaining (non-structural) properties, in the set's order. */
  function Assignments(tableClassName: ClassName, properties: seq<string>, columnMap: map<string, ColumnDefinition>): (r: seq<Statement>)
    requires forall k :: 0 <= k < |properties| ==> properties[k] in columnMap
    ensures |r| <= |properties|
    ensures forall k :: 0 <= k < |r| ==> r[k].Assign?
  {
    if properties == [] then []
    else Assignment(tableClassName, properties[0], columnMap[properties[0]]) + Assignments(tableClassName, properties[1..], columnMap)
  }

  /** The properties left for assignment: column properties that are not constructor parameters, in first-occurrence order. */
  function NonStructural(table: TableDefinition, parameters: seq<Parameter>): (r: seq<string>)
    ensures forall x :: x in r <==> x in PropertyNames(table.columns) && x !in ParameterNames(parameters)
    ensures forall x :: x in r ==> x in ColumnMap(table.columns)
  {
    Without(Distinct(PropertyNames(table.columns)), ParameterNames(parameters))
  }

  /** Whether the reflective `callBy` strategy is used. */
  predicate UsesCallBy(parameters: seq<Parameter>, allowReflectionCreateEntity: bool)
  {
    allowReflectionCreateEntity && AnyDefault(parameters)
  }

  /** The statements that create `instance`: by `callBy` over the parameter map, or by a direct call. */
  function InstanceCode(table: TableDefinition, parameters: seq<Parameter>, allowReflectionCreateEntity: bool)
    : Result<seq<Statement>, GenerationError>
  {
    if UsesCallBy(parameters, allowReflectionCreateEntity) then
      match ReflectiveEntries(parameters, ColumnMap(table.columns))
      case Err(e) => Err(e)
      case Ok(entries) => Ok([LookupPrimaryConstructor] + entries + [CallBy])
    else
      match DirectArguments(parameters, table)
      case Err(e) => Err(e)
      case Ok(arguments) => Ok([DirectCall(arguments)])
  }

  /** The assignments after construction. */
  function PostAssignments(table: TableDefinition, parameters: seq<Parameter>): seq<Statement>
  {
    Assignments(table.tableClassName, NonStructural(table, parameters), ColumnMap(table.columns))
  }

  /** The body of `doCreateEntity`, or the error generation throws. */
  function CreateEntityBody(table: TableDefinition, allowReflectionCreateEntity: bool): Result<seq<Statement>, GenerationError>
  {
    match table.entityClassDeclaration.primaryConstructor
    case None => Err(NoPrimaryConstructor)
    case Some(parameters) =>
      var unknown := UnknownParameters(parameters, Distinct(PropertyNames(table.columns)));
      if unknown != [] then Err(UnknownConstructorParameters(unknown))
      else
        match InstanceCode(table, parameters, allowReflectionCreateEntity)
        case Err(e) => Err(e)
        case Ok(code) => Ok(code + PostAssignments(table, parameters) + [Return])
  }

  lemma {:induction false} WithoutNothing(names: seq<string>)
    ensures Without(names, []) == names
  {
    if names != [] {
      WithoutNothing(names[1..]);
      assert names == [names[0]] + names[1..];
    }
  }

  lemma {:induction false} WithoutRemove(names: seq<string>, removed: seq<string>, name: string)
    ensures Remove(Without(names, removed), name) == Without(names, removed + [name])
  {
    if names != [] {
      WithoutRemove(names[1..], removed, name);
      var x := names[0];
      if x in removed {
        assert Without(names, removed) == Without(names[1..], removed);
      } else {
        var w := Without(names, removed);
        assert w == [x] + Without(names[1..], removed);
        assert w[0] == x && w[1..] == Without(names[1..], removed);
      }
    }
  }

  lemma {:induction false} WithoutEverything(names: seq<string>, removed: seq<string>)
    requires forall x :: x in names ==> x in removed
    ensures Without(names, removed) == []
  {
    if names != [] {
      assert names[0] in names;
      WithoutEverything(names[1..], removed);
    }
  }

  /** The first parameter without a column decides the reflective branch's error. */
  lemma {:induction false} ReflectiveEntriesFailAt(parameters: seq<Parameter>, columnMap: map<string, ColumnDefinition>, i: nat)
    requires i < |parameters| && parameters[i].name !in columnMap
    requires forall k :: 0 <= k < i ==> parameters[k].name in columnMap
    ensures ReflectiveEntries(parameters, columnMap) == Err(ParameterColumnMissing(parameters[i].name))
  {
    if i > 0 {
      assert parameters[1..][i - 1] == parameters[i];
      ReflectiveEntriesFailAt(parameters[1..], columnMap, i - 1);
    }
  }

  /** The first parameter without a column decides the direct branch's error. */
  lemma {:induction false} DirectArgumentsFailAt(parameters: seq<Parameter>, table: TableDefinition, i: nat)
    requires i < |parameters| && parameters[i].name !in PropertyNames(table.columns)
    requires forall k :: 0 <= k < i ==> parameters[k].name in PropertyNames(table.columns)
    ensures DirectArguments(parameters, table) == Err(ParameterNotInTable(parameters[i].name))
  {
    if i > 0 {
      assert parameters[1..][i - 1] == parameters[i];
      DirectArgumentsFailAt(parameters[1..], table, i - 1);
    }
  }

  // ---------------------------------------------------------------------------
  // The generator itself
  // ---------------------------------------------------------------------------

  /**
   * The `for` loop over the constructor parameters in the reflective branch: one
   * `when` branch per parameter, each parameter's name taken out of the set.
   */
  method EmitReflectiveEntries(parameters: seq<Parameter>, columnMap: map<string, ColumnDefinition>, properties: seq<string>)
    returns (r: Result<seq<Statement>, GenerationError>, nonStructuralProperties: seq<string>)
    ensures r == ReflectiveEntries(parameters, columnMap)
    ensures r.Ok? ==> nonStructuralProperties == Without(properties, ParameterNames(parameters))
  {
    nonStructuralProperties := properties;
    WithoutNothing(properties);
    assert parameters[..0] == [];
    var code: seq<Statement> := [];
    var i := 0;
    while i < |parameters|
      invariant 0 <= i <= |parameters|
      invariant nonStructuralProperties == Without(properties, ParameterNames(parameters[..i]))
      invariant |code| == i
      invariant forall k :: 0 <= k < i ==> parameters[k].name in columnMap && code[k] == ReflectiveEntry(parameters[k], columnMap[parameters[k].name])
    {
      var parameter := parameters[i];
      var parameterName := parameter.name;
      if parameterName !in columnMap {
        ReflectiveEntriesFailAt(parameters, columnMap, i);
        return Err(ParameterColumnMissing(parameterName)), nonStructuralProperties;
      }
      var column := columnMap[parameterName];
      if parameter.hasDefault {
        code := code + [PutIfNonNull(parameterName, column.property)];
      } else {
        code := code + [Put(parameterName, column.property, !column.propertyTypeName.isNullable)];
      }
      WithoutRemove(properties, ParameterNames(parameters[..i]), parameterName);
      assert ParameterNames(parameters[..i + 1]) == ParameterNames(parameters[..i]) + [parameterName];
      nonStructuralProperties := Remove(nonStructuralProperties, parameterName);
      i := i + 1;
    }
    assert parameters[..i] == parameters;
    assert ReflectiveEntries(parameters, columnMap).Ok?;
    assert ReflectiveEntries(parameters, columnMap).value == code;
    r := Ok(code);
  }

  /**
   * The `for` loop of the direct branch: one named argument per parameter, read
   * from the first column of that name, whose name is taken out of the set.
   */
  method EmitDirectArguments(parameters: seq<Parameter>, table: TableDefinition, properties: seq<string>)
    returns (r: Result<seq<NamedArgument>, GenerationError>, nonStructuralProperties: seq<string>)
    ensures r == DirectArguments(parameters, table)
    ensures r.Ok? ==> nonStructuralProperties == Without(properties, ParameterNames(parameters))
  {
    nonStructuralProperties := properties;
    WithoutNothing(properties);
    assert parameters[..0] == [];
    var arguments: seq<NamedArgument> := [];
    var i := 0;
    while i < |parameters|
      invariant 0 <= i <= |parameters|
      invariant nonStructuralProperties == Without(properties, ParameterNames(parameters[..i]))
      invariant |arguments| == i
      invariant forall k :: 0 <= k < i ==> (parameters[k].name in PropertyNames(table.columns) &&
                  arguments[k] == DirectArgument(table.tableClassName, parameters[k], FirstColumn(table.columns, parameters[k].name).value))
    {
      var parameter := parameters[i];
      var found := FirstColumn(table.columns, parameter.name);
      if found.None? {
        DirectArgumentsFailAt(parameters, table, i);
        return Err(ParameterNotInTable(parameter.name)), nonStructuralProperties;
      }
      var column := found.value;
      arguments := arguments + [NamedArgument(parameter.name, MemberName(table.tableClassName, column.PropertyName()), !column.propertyTypeName.isNullable)];
      WithoutRemove(properties, ParameterNames(parameters[..i]), column.PropertyName());
      assert ParameterNames(parameters[..i + 1]) == ParameterNames(parameters[..i]) + [column.PropertyName()];
      nonStructuralProperties := Remove(nonStructuralProperties, column.PropertyName());
      i := i + 1;
    }
    assert parameters[..i] == parameters;
    assert DirectArguments(parameters, table).Ok?;
    assert DirectArguments(parameters, table).value == arguments;
    r := Ok(arguments);
  }

  /** The `for` loop over the non-structural properties: read-only ones are skipped with `continue`. */
  method EmitAssignments(tableClassName: ClassName, nonStructuralProperties: seq<string>, columnMap: map<string, ColumnDefinition>)
    returns (code: seq<Statement>)
    requires forall k :: 0 <= k < |nonStructuralProperties| ==> nonStructuralProperties[k] in columnMap
    ensures code == Assignments(tableClassName, nonStructuralProperties, columnMap)
  {
    code := [];
    var j := 0;
    while j < |nonStructuralProperties|
      invariant 0 <= j <= |nonStructuralProperties|
      invariant code + Assignments(tableClassName, nonStructuralProperties[j..], columnMap)
             == Assignments(tableClassName, nonStructuralProperties, columnMap)
    {
      var property := nonStructuralProperties[j];
      var column := columnMap[property];
      ghost var rest := nonStructuralProperties[j..];
      assert rest[0] == property && rest[1..] == nonStructuralProperties[j + 1..];
      AssignmentsCons(tableClassName, rest, columnMap);
      ghost var step := Assignment(tableClassName, property, column);
      ghost var before := code;
      if column.propertyDeclaration.isMutable {
        code := code + [Assign(property, MemberName(tableClassName, column.PropertyName()), !column.propertyTypeName.isNullable)];
      }
      assert code == before + step;
      ConcatAssociates(before, step, Assignments(tableClassName, rest[1..], columnMap));
      j := j + 1;
    }
    assert nonStructuralProperties[j..] == [];
  }

  /** Concatenation is associative; stated on its own so the loop's proof need not unfold the statements. */
  lemma ConcatAssociates<T>(a: seq<T>, b: seq<T>, c: seq<T>)
    ensures (a + b) + c == a + (b + c)
  {
  }

  lemma AssignmentsCons(tableClassName: ClassName, properties: seq<string>, columnMap: map<string, ColumnDefinition>)
    requires properties != [] && forall k :: 0 <= k < |properties| ==> properties[k] in columnMap
    ensures forall k :: 0 <= k < |properties[1..]| ==> properties[1..][k] in columnMap
    ensures Assignments(tableClassName, properties, columnMap)
         == Assignment(tableClassName, properties[0], columnMap[properties[0]]) + Assignments(tableClassName, properties[1..], columnMap)
  {
  }

  /** `generateFunctions` of the `BaseTable` generator: the body of `doCreateEntity`, or the error it throws. */
  method GenerateCreateEntity(table: TableDefinition, allowReflectionCreateEntity: bool)
    returns (r: Result<seq<Statement>, GenerationError>)
    ensures r == CreateEntityBody(table, allowReflectionCreateEntity)
  {
    if table.entityClassDeclaration.primaryConstructor.None? {
      return Err(NoPrimaryConstructor);
    }
    var parameters := table.entityClassDeclaration.primaryConstructor.value;
    var nonStructuralProperties := Distinct(PropertyNames(table.columns));
    var columnMap := ColumnMap(table.columns);
    var unknownParameters := UnknownParameters(parameters, nonStructuralProperties);
    if unknownParameters != [] {
      return Err(UnknownConstructorParameters(unknownParameters));
    }
    var code: seq<Statement>;
    if allowReflectionCreateEntity && AnyDefault(parameters) {
      var entries;
      entries, nonStructuralProperties := EmitReflectiveEntries(parameters, columnMap, nonStructuralProperties);
      if entries.Err? {
        return Err(entries.error);
      }
      code := [LookupPrimaryConstructor] + entries.value + [CallBy];
    } else {
      var arguments;
      arguments, nonStructuralProperties := EmitDirectArguments(parameters, table, nonStructuralProperties);
      if arguments.Err? {
        return Err(arguments.error);
      }
      code := [DirectCall(arguments.value)];
    }
    assert InstanceCode(table, parameters, allowReflectionCreateEntity) == Ok(code);
    assert nonStructuralProperties == NonStructural(table, parameters);
    var assignments := EmitAssignments(table.tableClassName, nonStructuralProperties, columnMap);
    r := Ok(code + assignments + [Return]);
  }

  // ---------------------------------------------------------------------------
  // What the generated body does
  // ---------------------------------------------------------------------------

  /** A required parameter is one without a default value. */
  predicate HasUnknownRequiredParameter(table: TableDefinition, parameters: seq<Parameter>)
  {
    exists p :: p in parameters && !p.hasDefault && p.name !in PropertyNames(table.columns)
  }

  /**
   * Generation fails with the unknown-parameter error exactly when some required
   * parameter names no column property; the error lists exactly those names.
   */
  lemma UnknownRequiredParameterFails(table: TableDefinition, allowReflectionCreateEntity: bool)
    requires table.entityClassDeclaration.primaryConstructor.Some?
    ensures var r := CreateEntityBody(table, allowReflectionCreateEntity);
            (r.Err? && r.error.UnknownConstructorParameters?)
            <==> HasUnknownRequiredParameter(table, table.entityClassDeclaration.primaryConstructor.value)
    ensures var r := CreateEntityBody(table, allowReflectionCreateEntity);
            r.Err? && r.error.UnknownConstructorParameters? ==>
              forall n :: n in r.error.names <==>
                exists p :: p in table.entityClassDeclaration.primaryConstructor.value && !p.hasDefault
                            && p.name !in PropertyNames(table.columns) && p.name == n
  {
    var parameters := table.entityClassDeclaration.primaryConstructor.value;
    var unknown := UnknownParameters(parameters, Distinct(PropertyNames(table.columns)));
    if HasUnknownRequiredParameter(table, parameters) {
      var p :| p in parameters && !p.hasDefault && p.name !in PropertyNames(table.columns);
      assert p.name in unknown;
    }
    if unknown != [] {
      assert unknown[0] in unknown;
    }
  }

  /** Without defaulted parameters the reflection flag makes no difference, and the direct call is used. */
  lemma NoDefaultsMeansDirectCall(table: TableDefinition)
    requires table.entityClassDeclaration.primaryConstructor.Some?
    requires !AnyDefault(table.entityClassDeclaration.primaryConstructor.value)
    ensures CreateEntityBody(table, true) == CreateEntityBody(table, false)
    ensures CreateEntityBody(table, true).Ok? ==> CreateEntityBody(table, true).value[0].DirectCall?
  {
  }

  /** The `callBy` strategy is chosen exactly when reflection is allowed and some parameter has a default. */
  lemma StrategyChoice(table: TableDefinition, allowReflectionCreateEntity: bool)
    requires CreateEntityBody(table, allowReflectionCreateEntity).Ok?
    ensures var code := CreateEntityBody(table, allowReflectionCreateEntity).value;
            var parameters := table.entityClassDeclaration.primaryConstructor.value;
            && (code[0] == LookupPrimaryConstructor <==> allowReflectionCreateEntity && AnyDefault(parameters))
            && (code[0].DirectCall? <==> !(allowReflectionCreateEntity && AnyDefault(parameters)))
  {
  }

  /**
   * The parameter map of the `callBy` strategy: one branch per parameter in
   * constructor order; a defaulted parameter is put only when the value is not
   * null; any other is always put, with `!!` exactly when its column is not nullable.
   */
  lemma ReflectiveMapRules(table: TableDefinition, allowReflectionCreateEntity: bool)
    requires CreateEntityBody(table, allowReflectionCreateEntity).Ok?
    requires UsesCallBy(table.entityClassDeclaration.primaryConstructor.value, allowReflectionCreateEntity)
    ensures var code := CreateEntityBody(table, allowReflectionCreateEntity).value;
            var parameters := table.entityClassDeclaration.primaryConstructor.value;
            var columnMap := ColumnMap(table.columns);
            && |code| >= |parameters| + 2
            && code[0] == LookupPrimaryConstructor && code[|parameters| + 1] == CallBy
            && forall i :: 0 <= i < |parameters| ==>
                 && parameters[i].name in columnMap
                 && (parameters[i].hasDefault ==> code[i + 1] == PutIfNonNull(parameters[i].name, columnMap[parameters[i].name].property))
                 && (!parameters[i].hasDefault ==>
                       code[i + 1] == Put(parameters[i].name, columnMap[parameters[i].name].property,
                                          !columnMap[parameters[i].name].propertyTypeName.isNullable))
  {
    var parameters := table.entityClassDeclaration.primaryConstructor.value;
    var columnMap := ColumnMap(table.columns);
    var entries := ReflectiveEntries(parameters, columnMap);
    BodyParts(table, allowReflectionCreateEntity);
    var instance := InstanceCode(table, parameters, allowReflectionCreateEntity);
    assert entries.Ok? && instance.value == [LookupPrimaryConstructor] + entries.value + [CallBy];
    CallByLayout(CreateEntityBody(table, allowReflectionCreateEntity).value, instance.value, PostAssignments(table, parameters), parameters, columnMap);
  }

  /** Where the entries and `callBy` sit in a reflective body, and what each entry is. */
  lemma CallByLayout(code: seq<Statement>, instance: seq<Statement>, a: seq<Statement>,
                     parameters: seq<Parameter>, columnMap: map<string, ColumnDefinition>)
    requires ReflectiveEntries(parameters, columnMap).Ok?
    requires instance == [LookupPrimaryConstructor] + ReflectiveEntries(parameters, columnMap).value + [CallBy]
    requires code == instance + a + [Return]
    ensures && |code| >= |parameters| + 2
            && code[0] == LookupPrimaryConstructor && code[|parameters| + 1] == CallBy
            && forall i :: 0 <= i < |parameters| ==>
                 && parameters[i].name in columnMap
                 && (parameters[i].hasDefault ==> code[i + 1] == PutIfNonNull(parameters[i].name, columnMap[parameters[i].name].property))
                 && (!parameters[i].hasDefault ==>
                       code[i + 1] == Put(parameters[i].name, columnMap[parameters[i].name].property,
                                          !columnMap[parameters[i].name].propertyTypeName.isNullable))
  {
    var entries := ReflectiveEntries(parameters, columnMap).value;
    forall i | 0 <= i < |parameters|
      ensures code[i + 1] == entries[i]
    {
      assert code[i + 1] == instance[i + 1];
    }
  }

  /**
   * Once the required parameters are known, the `callBy` strategy still needs a
   * column for every parameter, defaulted ones included; it fails on a defaulted
   * parameter that has none.
   */
  lemma ReflectiveNeedsEveryColumn(table: TableDefinition, allowReflectionCreateEntity: bool)
    requires table.entityClassDeclaration.primaryConstructor.Some?
    requires UsesCallBy(table.entityClassDeclaration.primaryConstructor.value, allowReflectionCreateEntity)
    requires !HasUnknownRequiredParameter(table, table.entityClassDeclaration.primaryConstructor.value)
    ensures var r := CreateEntityBody(table, allowReflectionCreateEntity);
            var parameters := table.entityClassDeclaration.primaryConstructor.value;
            && (r.Ok? <==> forall p :: p in parameters ==> p.name in PropertyNames(table.columns))
            && (r.Err? ==> exists p :: p in parameters && p.hasDefault && p.name !in PropertyNames(table.columns)
                                       && r.error == ParameterColumnMissing(p.name))
  {
    var parameters := table.entityClassDeclaration.primaryConstructor.value;
    var names := PropertyNames(table.columns);
    CheckPasses(parameters, Distinct(names), names);
    BodyAfterCheck(table, parameters, allowReflectionCreateEntity);
    EntriesNeedEveryColumn(parameters, ColumnMap(table.columns), names);
  }

  /** No unknown-parameter error when every required parameter names a property. */
  lemma CheckPasses(parameters: seq<Parameter>, properties: seq<string>, names: seq<string>)
    requires forall x :: x in properties <==> x in names
    requires forall p :: p in parameters && !p.hasDefault ==> p.name in names
    ensures UnknownParameters(parameters, properties) == []
  {
    var unknown := UnknownParameters(parameters, properties);
    assert forall n :: n !in unknown;
  }

  /** The `when` branches exist exactly when every parameter has a column; otherwise one without fails. */
  lemma EntriesNeedEveryColumn(parameters: seq<Parameter>, columnMap: map<string, ColumnDefinition>, names: seq<string>)
    requires forall x :: x in columnMap <==> x in names
    ensures var r := ReflectiveEntries(parameters, columnMap);
            && (r.Ok? <==> forall p :: p in parameters ==> p.name in names)
            && (r.Err? ==> exists p :: p in parameters && p.name !in names && r.error == ParameterColumnMissing(p.name))
  {
    var r := ReflectiveEntries(parameters, columnMap);
    if forall p :: p in parameters ==> p.name in names {
      assert forall i :: 0 <= i < |parameters| ==> parameters[i] in parameters;
    }
    if r.Err? {
      var i :| 0 <= i < |parameters| && parameters[i].name !in columnMap && r.error == ParameterColumnMissing(parameters[i].name);
      assert parameters[i] in parameters;
    }
  }

  /** The named arguments exist exactly when every parameter has a column; otherwise one without fails. */
  lemma ArgumentsNeedEveryColumn(parameters: seq<Parameter>, table: TableDefinition)
    ensures var r := DirectArguments(parameters, table);
            && (r.Ok? <==> forall p :: p in parameters ==> p.name in PropertyNames(table.columns))
            && (r.Err? ==> exists p :: p in parameters && p.name !in PropertyNames(table.columns) && r.error == ParameterNotInTable(p.name))
  {
    var r := DirectArguments(parameters, table);
    if forall p :: p in parameters ==> p.name in PropertyNames(table.columns) {
      assert forall i :: 0 <= i < |parameters| ==> parameters[i] in parameters;
    }
    if r.Err? {
      var i :| 0 <= i < |parameters| && parameters[i].name !in PropertyNames(table.columns) && r.error == ParameterNotInTable(parameters[i].name);
      assert parameters[i] in parameters;
    }
  }

  /**
   * The direct strategy: one named argument per parameter, in constructor order,
   * reading the table member of that property, with `!!` exactly when the first
   * column of that name is not nullable.
   */
  lemma DirectCallRules(table: TableDefinition, allowReflectionCreateEntity: bool)
    requires CreateEntityBody(table, allowReflectionCreateEntity).Ok?
    requires !UsesCallBy(table.entityClassDeclaration.primaryConstructor.value, allowReflectionCreateEntity)
    ensures var code := CreateEntityBody(table, allowReflectionCreateEntity).value;
            var parameters := table.entityClassDeclaration.primaryConstructor.value;
            && code[0].DirectCall? && |code[0].arguments| == |parameters|
            && forall i :: 0 <= i < |parameters| ==>
                 && parameters[i].name in PropertyNames(table.columns)
                 && code[0].arguments[i].parameter == parameters[i].name
                 && code[0].arguments[i].column == MemberName(table.tableClassName, parameters[i].name)
                 && code[0].arguments[i].notNull == !FirstColumn(table.columns, parameters[i].name).value.propertyTypeName.isNullable
  {
  }

  /** The direct strategy fails exactly when a (necessarily defaulted) parameter has no column. */
  lemma DirectNeedsEveryColumn(table: TableDefinition, allowReflectionCreateEntity: bool)
    requires table.entityClassDeclaration.primaryConstructor.Some?
    requires !UsesCallBy(table.entityClassDeclaration.primaryConstructor.value, allowReflectionCreateEntity)
    requires !HasUnknownRequiredParameter(table, table.entityClassDeclaration.primaryConstructor.value)
    ensures var r := CreateEntityBody(table, allowReflectionCreateEntity);
            var parameters := table.entityClassDeclaration.primaryConstructor.value;
            && (r.Ok? <==> forall p :: p in parameters ==> p.name in PropertyNames(table.columns))
            && (r.Err? ==> exists p :: p in parameters && p.hasDefault && p.name !in PropertyNames(table.columns)
                                       && r.error == ParameterNotInTable(p.name))
  {
    var parameters := table.entityClassDeclaration.primaryConstructor.value;
    var names := PropertyNames(table.columns);
    CheckPasses(parameters, Distinct(names), names);
    BodyAfterCheck(table, parameters, allowReflectionCreateEntity);
    ArgumentsNeedEveryColumn(parameters, table);
  }

  // ---------------------------------------------------------------------------
  // The assignments after construction
  // ---------------------------------------------------------------------------

  /** Where a name first occurs. */
  function FirstIndex(names: seq<string>, x: string): (k: nat)
    requires x in names
    ensures k < |names| && names[k] == x
  {
    if names[0] == x then 0 else 1 + FirstIndex(names[1..], x)
  }

  /** No earlier position holds the name. */
  lemma {:induction false} FirstIndexIsFirst(names: seq<string>, x: string)
    requires x in names
    ensures forall j :: 0 <= j < FirstIndex(names, x) ==> names[j] != x
  {
    if names[0] != x {
      FirstIndexIsFirst(names[1..], x);
      forall j | 0 < j < FirstIndex(names, x)
        ensures names[j] != x
      {
        assert names[j] == names[1..][j - 1];
      }
    }
  }

  /** The names occur in `names`, strictly ordered by their first occurrence there (so none twice). */
  ghost predicate InFirstOccurrenceOrder(xs: seq<string>, names: seq<string>)
  {
    && (forall k :: 0 <= k < |xs| ==> xs[k] in names)
    && (forall j, k {:trigger FirstIndex(names, xs[j]), FirstIndex(names, xs[k])} ::
          0 <= j < k < |xs| ==> FirstIndex(names, xs[j]) < FirstIndex(names, xs[k]))
  }

  lemma {:induction false} FirstIndexAppend(a: seq<string>, b: seq<string>, x: string)
    requires x in a + b
    ensures x in a ==> FirstIndex(a + b, x) == FirstIndex(a, x)
    ensures x !in a ==> FirstIndex(a + b, x) == |a| + FirstIndex(b, x)
  {
    if a != [] {
      assert (a + b)[0] == a[0];
      if a[0] != x {
        assert (a + b)[1..] == a[1..] + b;
        FirstIndexAppend(a[1..], b, x);
      }
    } else {
      assert a + b == b;
    }
  }

  /** The linked hash set iterates in first-occurrence order. */
  lemma {:induction false} DistinctInOrder(names: seq<string>)
    ensures InFirstOccurrenceOrder(Distinct(names), names)
  {
    if names != [] {
      var init := names[..|names| - 1];
      var last := names[|names| - 1];
      assert names == init + [last];
      DistinctInOrder(init);
      var d0 := Distinct(init);
      InOrderExtend(d0, init, [last]);
      if last !in init {
        FirstIndexAppend(init, [last], last);
        forall x | x in d0
          ensures FirstIndex(names, x) < FirstIndex(names, last)
        {
          FirstIndexAppend(init, [last], x);
        }
        SnocInOrder(d0, last, names);
      }
    }
  }

  /** Appending names after the ones listed keeps their first occurrences. */
  lemma InOrderExtend(xs: seq<string>, a: seq<string>, b: seq<string>)
    requires InFirstOccurrenceOrder(xs, a)
    ensures InFirstOccurrenceOrder(xs, a + b)
  {
    forall x | x in xs
      ensures FirstIndex(a + b, x) == FirstIndex(a, x)
    {
      FirstIndexAppend(a, b, x);
    }
  }

  lemma SnocInOrder(xs: seq<string>, y: string, names: seq<string>)
    requires y in names && InFirstOccurrenceOrder(xs, names)
    requires forall x :: x in xs ==> FirstIndex(names, x) < FirstIndex(names, y)
    ensures InFirstOccurrenceOrder(xs + [y], names)
  {
    var ys := xs + [y];
    forall j, k | 0 <= j < k < |ys|
      ensures FirstIndex(names, ys[j]) < FirstIndex(names, ys[k])
    {
      assert ys[j] == xs[j];
      if k < |xs| {
        assert ys[k] == xs[k];
      }
    }
  }

  /** The linked hash set holds each name once. */
  lemma DistinctHasNoRepeats(names: seq<string>)
    ensures forall j, k :: 0 <= j < k < |Distinct(names)| ==> Distinct(names)[j] != Distinct(names)[k]
  {
    DistinctInOrder(names);
  }

  /** Taking names out of the set keeps the order of the rest. */
  lemma {:induction false} WithoutInOrder(xs: seq<string>, removed: seq<string>, names: seq<string>)
    requires InFirstOccurrenceOrder(xs, names)
    ensures InFirstOccurrenceOrder(Without(xs, removed), names)
  {
    if xs != [] {
      TailInOrder(xs, names);
      WithoutInOrder(xs[1..], removed, names);
      var rest := Without(xs[1..], removed);
      if xs[0] !in removed {
        assert Without(xs, removed) == [xs[0]] + rest;
        assert xs[0] in names;
        ConsInOrder(xs[0], rest, names);
      } else {
        assert Without(xs, removed) == rest;
      }
    }
  }

  /** One emitted assignment: of a mutable listed property, reading its table member, `!!` exactly when not nullable. */
  predicate AssignmentShaped(tableClassName: ClassName, properties: seq<string>, columnMap: map<string, ColumnDefinition>, s: Statement)
  {
    && s.Assign? && s.property in properties && s.property in columnMap
    && columnMap[s.property].propertyDeclaration.isMutable
    && s.column == MemberName(tableClassName, s.property)
    && s.notNull == !columnMap[s.property].propertyTypeName.isNullable
  }

  /** The shape of every emitted assignment. */
  lemma {:induction false} AssignmentsShape(tableClassName: ClassName, properties: seq<string>, columnMap: map<string, ColumnDefinition>)
    requires forall k :: 0 <= k < |properties| ==> properties[k] in columnMap
    requires forall name :: name in columnMap ==> columnMap[name].PropertyName() == name
    ensures forall k {:trigger Assignments(tableClassName, properties, columnMap)[k]} ::
              0 <= k < |Assignments(tableClassName, properties, columnMap)| ==>
              AssignmentShaped(tableClassName, properties, columnMap, Assignments(tableClassName, properties, columnMap)[k])
  {
    if properties != [] {
      var x := properties[0];
      var head := Assignment(tableClassName, x, columnMap[x]);
      var rest := Assignments(tableClassName, properties[1..], columnMap);
      AssignmentsShape(tableClassName, properties[1..], columnMap);
      var a := Assignments(tableClassName, properties, columnMap);
      assert a == head + rest;
      forall k | 0 <= k < |a|
        ensures AssignmentShaped(tableClassName, properties, columnMap, a[k])
      {
        if k < |head| {
          assert a[k] == head[0];
        } else {
          assert a[k] == rest[k - |head|];
          assert AssignmentShaped(tableClassName, properties[1..], columnMap, rest[k - |head|]);
        }
      }
    }
  }

  /** Every mutable listed property gets an assignment. */
  lemma {:induction false} AssignmentsCoverMutable(tableClassName: ClassName, properties: seq<string>, columnMap: map<string, ColumnDefinition>)
    requires forall k :: 0 <= k < |properties| ==> properties[k] in columnMap
    ensures forall x :: x in properties && columnMap[x].propertyDeclaration.isMutable ==>
              x in AssignedNames(Assignments(tableClassName, properties, columnMap))
  {
    if properties != [] {
      var x := properties[0];
      var head := Assignment(tableClassName, x, columnMap[x]);
      var rest := Assignments(tableClassName, properties[1..], columnMap);
      AssignmentsCoverMutable(tableClassName, properties[1..], columnMap);
      assert Assignments(tableClassName, properties, columnMap) == head + rest;
      assert AssignedNames(head + rest) == AssignedNames(head) + AssignedNames(rest);
      if columnMap[x].propertyDeclaration.isMutable {
        assert AssignedNames(head) == [x];
      }
    }
  }

  /** The properties the assignments set, in order. */
  function AssignedNames(a: seq<Statement>): (r: seq<string>)
    requires forall k :: 0 <= k < |a| ==> a[k].Assign?
    ensures |r| == |a| && forall k :: 0 <= k < |a| ==> r[k] == a[k].property
  {
    seq(|a|, k requires 0 <= k < |a| => a[k].property)
  }

  lemma ConsInOrder(x: string, ys: seq<string>, names: seq<string>)
    requires x in names && InFirstOccurrenceOrder(ys, names)
    requires forall y :: y in ys ==> FirstIndex(names, x) < FirstIndex(names, y)
    ensures InFirstOccurrenceOrder([x] + ys, names)
  {
    var xs := [x] + ys;
    forall j, k | 0 <= j < k < |xs|
      ensures FirstIndex(names, xs[j]) < FirstIndex(names, xs[k])
    {
      assert xs[k] == ys[k - 1];
      if j > 0 {
        assert xs[j] == ys[j - 1];
      }
    }
  }

  lemma TailInOrder(xs: seq<string>, names: seq<string>)
    requires xs != [] && InFirstOccurrenceOrder(xs, names)
    ensures InFirstOccurrenceOrder(xs[1..], names)
    ensures forall y :: y in xs[1..] ==> FirstIndex(names, xs[0]) < FirstIndex(names, y)
  {
    forall j, k | 0 <= j < k < |xs[1..]|
      ensures FirstIndex(names, xs[1..][j]) < FirstIndex(names, xs[1..][k])
    {
      assert xs[1..][j] == xs[j + 1] && xs[1..][k] == xs[k + 1];
    }
    forall y | y in xs[1..]
      ensures FirstIndex(names, xs[0]) < FirstIndex(names, y)
    {
      var k :| 0 <= k < |xs[1..]| && xs[1..][k] == y;
      assert xs[k + 1] == y;
    }
  }

  /** Assignments follow the order of the properties they come from. */
  lemma {:induction false} AssignmentsInOrder(tableClassName: ClassName, properties: seq<string>, columnMap: map<string, ColumnDefinition>, names: seq<string>)
    requires forall k :: 0 <= k < |properties| ==> properties[k] in columnMap
    requires forall name :: name in columnMap ==> columnMap[name].PropertyName() == name
    requires InFirstOccurrenceOrder(properties, names)
    ensures InFirstOccurrenceOrder(AssignedNames(Assignments(tableClassName, properties, columnMap)), names)
  {
    if properties != [] {
      var x := properties[0];
      var head := Assignment(tableClassName, x, columnMap[x]);
      var rest := Assignments(tableClassName, properties[1..], columnMap);
      assert Assignments(tableClassName, properties, columnMap) == head + rest;
      TailInOrder(properties, names);
      AssignmentsInOrder(tableClassName, properties[1..], columnMap, names);
      AssignmentsShape(tableClassName, properties[1..], columnMap);
      assert AssignedNames(head + rest) == AssignedNames(head) + AssignedNames(rest);
      if columnMap[x].propertyDeclaration.isMutable {
        assert AssignedNames(head) == [x];
        forall y | y in AssignedNames(rest)
          ensures y in properties[1..]
        {
          var k :| 0 <= k < |rest| && AssignedNames(rest)[k] == y;
          assert y == rest[k].property;
        }
        ConsInOrder(x, AssignedNames(rest), names);
      } else {
        assert AssignedNames(head) == [];
      }
    }
  }

  /** The instance code emits no `return`. */
  lemma InstanceCodeHasNoReturn(table: TableDefinition, parameters: seq<Parameter>, allowReflectionCreateEntity: bool)
    requires InstanceCode(table, parameters, allowReflectionCreateEntity).Ok?
    ensures var instance := InstanceCode(table, parameters, allowReflectionCreateEntity).value;
            |instance| > 0 && forall k :: 0 <= k < |instance| ==> instance[k] != Return
  {
    if UsesCallBy(parameters, allowReflectionCreateEntity) {
      var entries := ReflectiveEntries(parameters, ColumnMap(table.columns)).value;
      var instance := [LookupPrimaryConstructor] + entries + [CallBy];
      forall k | 0 <= k < |instance|
        ensures instance[k] != Return
      {
        if 0 < k <= |entries| {
          assert instance[k] == entries[k - 1];
        }
      }
    }
  }

  lemma BodyParts(table: TableDefinition, allowReflectionCreateEntity: bool)
    requires CreateEntityBody(table, allowReflectionCreateEntity).Ok?
    ensures var parameters := table.entityClassDeclaration.primaryConstructor.value;
            && InstanceCode(table, parameters, allowReflectionCreateEntity).Ok?
            && CreateEntityBody(table, allowReflectionCreateEntity).value
               == InstanceCode(table, parameters, allowReflectionCreateEntity).value + PostAssignments(table, parameters) + [Return]
  {
  }

  /** `code` ends with the assignments `a` and then its only `return`. */
  predicate EndsWithAssignmentsAndReturn(code: seq<Statement>, a: seq<Statement>)
  {
    && |code| > |a| + 1
    && code[|code| - 1 - |a|..] == a + [Return]
    && forall k :: 0 <= k < |code| - 1 ==> code[k] != Return
  }

  /** The body is the instance code, then the assignments after construction, then `return instance`. */
  lemma BodyEndsWithAssignments(table: TableDefinition, allowReflectionCreateEntity: bool)
    requires CreateEntityBody(table, allowReflectionCreateEntity).Ok?
    ensures EndsWithAssignmentsAndReturn(CreateEntityBody(table, allowReflectionCreateEntity).value,
                                         PostAssignments(table, table.entityClassDeclaration.primaryConstructor.value))
  {
    var parameters := table.entityClassDeclaration.primaryConstructor.value;
    BodyParts(table, allowReflectionCreateEntity);
    InstanceCodeHasNoReturn(table, parameters, allowReflectionCreateEntity);
    var code := CreateEntityBody(table, allowReflectionCreateEntity).value;
    var instance := InstanceCode(table, parameters, allowReflectionCreateEntity).value;
    ReturnOnlyLast(code, instance, PostAssignments(table, parameters));
  }

  lemma ReturnOnlyLast(code: seq<Statement>, instance: seq<Statement>, a: seq<Statement>)
    requires code == instance + a + [Return]
    requires |instance| > 0 && forall k :: 0 <= k < |instance| ==> instance[k] != Return
    requires forall k :: 0 <= k < |a| ==> a[k].Assign?
    ensures EndsWithAssignmentsAndReturn(code, a)
  {
    assert code == instance + (a + [Return]);
    forall k | 0 <= k < |code| - 1
      ensures code[k] != Return
    {
      if k >= |instance| {
        assert code[k] == a[k - |instance|];
      } else {
        assert code[k] == instance[k];
      }
    }
  }

  /**
   * After construction a property gets `instance.p = row[...]` exactly when it is
   * a column property, not a constructor parameter, and mutable.
   */
  lemma AssignedProperties(table: TableDefinition, parameters: seq<Parameter>)
    ensures var a := PostAssignments(table, parameters);
            var columnMap := ColumnMap(table.columns);
            forall x :: x in AssignedNames(a) <==>
              (x in PropertyNames(table.columns) && x !in ParameterNames(parameters) && columnMap[x].propertyDeclaration.isMutable)
  {
    AssignedNamesExactly(table.tableClassName, NonStructural(table, parameters), ColumnMap(table.columns));
  }

  /** The assigned names are exactly the mutable listed properties. */
  lemma AssignedNamesExactly(tableClassName: ClassName, properties: seq<string>, columnMap: map<string, ColumnDefinition>)
    requires forall k :: 0 <= k < |properties| ==> properties[k] in columnMap
    requires forall name :: name in columnMap ==> columnMap[name].PropertyName() == name
    ensures forall x :: x in AssignedNames(Assignments(tableClassName, properties, columnMap)) <==>
              x in properties && columnMap[x].propertyDeclaration.isMutable
  {
    var a := Assignments(tableClassName, properties, columnMap);
    AssignmentsShape(tableClassName, properties, columnMap);
    AssignmentsCoverMutable(tableClassName, properties, columnMap);
    forall x | x in AssignedNames(a)
      ensures x in properties && columnMap[x].propertyDeclaration.isMutable
    {
      var k :| 0 <= k < |a| && AssignedNames(a)[k] == x;
      assert AssignmentShaped(tableClassName, properties, columnMap, a[k]);
    }
  }

  /** Each assignment reads the table member of its property, with `!!` exactly when the column is not nullable. */
  lemma AssignmentReads(table: TableDefinition, parameters: seq<Parameter>)
    ensures var a := PostAssignments(table, parameters);
            var columnMap := ColumnMap(table.columns);
            forall k :: 0 <= k < |a| ==>
              && a[k].property in columnMap
              && a[k].column == MemberName(table.tableClassName, a[k].property)
              && a[k].notNull == !columnMap[a[k].property].propertyTypeName.isNullable
  {
    var a := PostAssignments(table, parameters);
    var properties := NonStructural(table, parameters);
    AssignmentsShape(table.tableClassName, properties, ColumnMap(table.columns));
    forall k | 0 <= k < |a|
      ensures a[k].property in ColumnMap(table.columns)
    {
      assert a[k].property in properties;
    }
  }

  /** The assignments come in the order of the columns, each property at most once. */
  lemma AssignmentOrder(table: TableDefinition, parameters: seq<Parameter>)
    ensures InFirstOccurrenceOrder(AssignedNames(PostAssignments(table, parameters)), PropertyNames(table.columns))
  {
    var names := PropertyNames(table.columns);
    DistinctInOrder(names);
    WithoutInOrder(Distinct(names), ParameterNames(parameters), names);
    AssignmentsInOrder(table.tableClassName, NonStructural(table, parameters), ColumnMap(table.columns), names);
  }

  // ---------------------------------------------------------------------------
  // A defaulted parameter without a column, under the reflective strategy
  // ---------------------------------------------------------------------------

  /**
   * The `when` branches as evidently intended: a defaulted parameter with no
   * column gets no branch, so `callBy` leaves it to its default.
   */
  function ReflectiveEntriesSkippingMissing(parameters: seq<Parameter>, columnMap: map<string, ColumnDefinition>)
    : (r: Result<seq<Statement>, GenerationError>)
    ensures r.Ok? <==> forall i :: 0 <= i < |parameters| && !parameters[i].hasDefault ==> parameters[i].name in columnMap
    ensures r.Err? ==> (exists i :: 0 <= i < |parameters| && !parameters[i].hasDefault && parameters[i].name !in columnMap
                                  && r.error == ParameterColumnMissing(parameters[i].name))
  {
    if parameters == [] then Ok([])
    else
      var p := parameters[0];
      var rest := ReflectiveEntriesSkippingMissing(parameters[1..], columnMap);
      assert forall i :: 1 <= i < |parameters| ==> parameters[i] == parameters[1..][i - 1];
      if p.name in columnMap then
        match rest
        case Ok(entries) => Ok([ReflectiveEntry(p, columnMap[p.name])] + entries)
        case Err(e) => Err(e)
      else if p.hasDefault then rest
      else Err(ParameterColumnMissing(p.name))
  }

  /** Where every parameter has a column, nothing is skipped. */
  lemma {:induction false} SkippingMissingAgrees(parameters: seq<Parameter>, columnMap: map<string, ColumnDefinition>)
    requires ReflectiveEntries(parameters, columnMap).Ok?
    ensures ReflectiveEntriesSkippingMissing(parameters, columnMap) == ReflectiveEntries(parameters, columnMap)
  {
    if parameters != [] {
      assert parameters[0].name in columnMap;
      SkippingMissingAgrees(parameters[1..], columnMap);
    }
  }

  /** The body of `doCreateEntity` with the reflective strategy as evidently intended. */
  function CreateEntityBodyCorrected(table: TableDefinition, allowReflectionCreateEntity: bool): Result<seq<Statement>, GenerationError>
  {
    match table.entityClassDeclaration.primaryConstructor
    case None => Err(NoPrimaryConstructor)
    case Some(parameters) =>
      var unknown := UnknownParameters(parameters, Distinct(PropertyNames(table.columns)));
      if unknown != [] then Err(UnknownConstructorParameters(unknown))
      else if UsesCallBy(parameters, allowReflectionCreateEntity) then
        match ReflectiveEntriesSkippingMissing(parameters, ColumnMap(table.columns))
        case Err(e) => Err(e)
        case Ok(entries) => Ok([LookupPrimaryConstructor] + entries + [CallBy] + PostAssignments(table, parameters) + [Return])
      else
        match InstanceCode(table, parameters, allowReflectionCreateEntity)
        case Err(e) => Err(e)
        case Ok(code) => Ok(code + PostAssignments(table, parameters) + [Return])
  }

  /**
   * Corrected: under the reflective strategy the unknown-parameter check is the only
   * failure: once every required parameter has a column, a body is emitted.
   */
  lemma ReflectiveSucceedsAfterCheck(table: TableDefinition, allowReflectionCreateEntity: bool)
    requires table.entityClassDeclaration.primaryConstructor.Some?
    requires UsesCallBy(table.entityClassDeclaration.primaryConstructor.value, allowReflectionCreateEntity)
    ensures CreateEntityBodyCorrected(table, allowReflectionCreateEntity).Ok?
            <==> !HasUnknownRequiredParameter(table, table.entityClassDeclaration.primaryConstructor.value)
  {
    var parameters := table.entityClassDeclaration.primaryConstructor.value;
    var names := PropertyNames(table.columns);
    if HasUnknownRequiredParameter(table, parameters) {
      var p :| p in parameters && !p.hasDefault && p.name !in names;
      assert p.name in UnknownParameters(parameters, Distinct(names));
    } else {
      CheckPasses(parameters, Distinct(names), names);
      SkippingSucceeds(parameters, ColumnMap(table.columns), names);
    }
  }

  /** The corrected branches exist once every required parameter has a column. */
  lemma SkippingSucceeds(parameters: seq<Parameter>, columnMap: map<string, ColumnDefinition>, names: seq<string>)
    requires forall x :: x in columnMap <==> x in names
    requires forall p :: p in parameters && !p.hasDefault ==> p.name in names
    ensures ReflectiveEntriesSkippingMissing(parameters, columnMap).Ok?
  {
    assert forall i :: 0 <= i < |parameters| ==> parameters[i] in parameters;
  }

  /** The correction changes nothing where the code as written emits a body. */
  lemma CorrectedAgreesWhereBodyIsEmitted(table: TableDefinition, allowReflectionCreateEntity: bool)
    requires CreateEntityBody(table, allowReflectionCreateEntity).Ok?
    ensures CreateEntityBodyCorrected(table, allowReflectionCreateEntity) == CreateEntityBody(table, allowReflectionCreateEntity)
  {
    var parameters := table.entityClassDeclaration.primaryConstructor.value;
    if UsesCallBy(parameters, allowReflectionCreateEntity) {
      SkippingMissingAgrees(parameters, ColumnMap(table.columns));
    }
  }

  // ---------------------------------------------------------------------------
  // Worked examples
  // ---------------------------------------------------------------------------

  const Employees := ClassName("demo", "Employees")

  function ExampleProperty(name: string, typeName: TypeName): PropertyDeclaration
  {
    PropertyDeclaration(name, false, typeName, [])
  }

  function ExampleColumn(name: string, isPrimaryKey: bool, typeName: TypeName): ColumnDefinition
  {
    ColumnDefinition(name, isPrimaryKey, ExampleProperty(name, typeName), typeName, MemberName(Employees, name))
  }

  const IdColumn := ExampleColumn("id", true, TypeName("kotlin.Int", true))
  const NameColumn := ExampleColumn("name", false, TypeName("kotlin.String", false))
  const JobColumn := ExampleColumn("job", false, TypeName("kotlin.String", false))

  /** The primary constructor `Employee(id: Int? = null, name: String, job: String = "clerk")`. */
  const EmployeeParameters := [Parameter("id", true), Parameter("name", false), Parameter("job", true)]

  /** A table of `Employee` with the given columns, generated as `Employees`. */
  predicate IsEmployeeTable(table: TableDefinition, columns: seq<ColumnDefinition>)
  {
    && table.tableClassName == Employees
    && table.entityClassDeclaration.primaryConstructor == Some(EmployeeParameters)
    && table.columns == columns
  }

  lemma DistinctOfExampleNames()
    ensures Distinct(["id", "name"]) == ["id", "name"]
    ensures Distinct(["id", "name", "job"]) == ["id", "name", "job"]
  {
    assert ["id", "name", "job"][..2] == ["id", "name"];
    assert ["id", "name"][..1] == ["id"];
    assert ["id"][..0] == [];
    assert Distinct(["id"]) == ["id"];
  }

  lemma EmployeeFacts(table: TableDefinition)
    requires IsEmployeeTable(table, [IdColumn, NameColumn, JobColumn]) || IsEmployeeTable(table, [IdColumn, NameColumn])
    ensures UnknownParameters(EmployeeParameters, Distinct(PropertyNames(table.columns))) == []
    ensures PostAssignments(table, EmployeeParameters) == []
  {
    var names := PropertyNames(table.columns);
    EmployeePropertyNames(table.columns);
    CheckPasses(EmployeeParameters, Distinct(names), names);
    assert ParameterNames(EmployeeParameters) == ["id", "name", "job"];
    NoAssignmentsWhenAllParameters(table, EmployeeParameters);
  }

  /** Nothing is assigned after construction when every column property is a constructor parameter. */
  lemma NoAssignmentsWhenAllParameters(table: TableDefinition, parameters: seq<Parameter>)
    requires forall x :: x in PropertyNames(table.columns) ==> x in ParameterNames(parameters)
    ensures PostAssignments(table, parameters) == []
  {
    WithoutEverything(Distinct(PropertyNames(table.columns)), ParameterNames(parameters));
  }

  lemma EmployeePropertyNames(columns: seq<ColumnDefinition>)
    requires columns == [IdColumn, NameColumn, JobColumn] || columns == [IdColumn, NameColumn]
    ensures "name" in PropertyNames(columns)
    ensures forall x :: x in PropertyNames(columns) ==> x == "id" || x == "name" || x == "job"
  {
    if columns == [IdColumn, NameColumn, JobColumn] {
      assert PropertyNames(columns) == ["id", "name", "job"];
    } else {
      assert PropertyNames(columns) == ["id", "name"];
    }
  }

  lemma EmployeeColumnMap()
    ensures ColumnMap([IdColumn, NameColumn]) == map["id" := IdColumn, "name" := NameColumn]
    ensures ColumnMap([IdColumn, NameColumn, JobColumn]) == map["id" := IdColumn, "name" := NameColumn, "job" := JobColumn]
  {
    assert IdColumn.PropertyName() == "id" && NameColumn.PropertyName() == "name" && JobColumn.PropertyName() == "job";
    assert [IdColumn, NameColumn, JobColumn][..2] == [IdColumn, NameColumn];
    assert [IdColumn, NameColumn][..1] == [IdColumn];
    assert [IdColumn][..0] == [];
    assert ColumnMap([IdColumn]) == map["id" := IdColumn];
    assert ColumnMap([IdColumn, NameColumn]) == map["id" := IdColumn, "name" := NameColumn];
  }

  /** Once the unknown-parameter check passes, the body is the instance code's outcome. */
  lemma BodyAfterCheck(table: TableDefinition, parameters: seq<Parameter>, allowReflectionCreateEntity: bool)
    requires table.entityClassDeclaration.primaryConstructor == Some(parameters)
    requires UnknownParameters(parameters, Distinct(PropertyNames(table.columns))) == []
    ensures var instance := InstanceCode(table, parameters, allowReflectionCreateEntity);
            && (instance.Ok? ==> CreateEntityBody(table, allowReflectionCreateEntity) == Ok(instance.value + PostAssignments(table, parameters) + [Return]))
            && (instance.Err? ==> CreateEntityBody(table, allowReflectionCreateEntity) == Err(instance.error))
  {
  }

  /** A table whose columns are all constructor parameters: the body is the instance code and `return`. */
  lemma BodyWithoutAssignments(table: TableDefinition, parameters: seq<Parameter>, allowReflectionCreateEntity: bool, instance: seq<Statement>)
    requires table.entityClassDeclaration.primaryConstructor == Some(parameters)
    requires UnknownParameters(parameters, Distinct(PropertyNames(table.columns))) == []
    requires PostAssignments(table, parameters) == []
    requires InstanceCode(table, parameters, allowReflectionCreateEntity) == Ok(instance)
    ensures CreateEntityBody(table, allowReflectionCreateEntity) == Ok(instance + [Return])
  {
    BodyAfterCheck(table, parameters, allowReflectionCreateEntity);
    assert instance + PostAssignments(table, parameters) + [Return] == instance + [Return];
  }

  /** The corrected body under the reflective strategy, once the unknown-parameter check passes. */
  lemma CorrectedBodyAfterCheck(table: TableDefinition, parameters: seq<Parameter>)
    requires table.entityClassDeclaration.primaryConstructor == Some(parameters)
    requires UnknownParameters(parameters, Distinct(PropertyNames(table.columns))) == []
    requires UsesCallBy(parameters, true)
    ensures var entries := ReflectiveEntriesSkippingMissing(parameters, ColumnMap(table.columns));
            entries.Ok? ==> CreateEntityBodyCorrected(table, true)
                            == Ok([LookupPrimaryConstructor] + entries.value + [CallBy] + PostAssignments(table, parameters) + [Return])
  {
  }

  /** `Employee` has defaults for `id` and `job`, so with reflection allowed the `callBy` strategy is used. */
  lemma EmployeeUsesCallBy()
    ensures UsesCallBy(EmployeeParameters, true) && !UsesCallBy(EmployeeParameters, false)
  {
    assert EmployeeParameters[0].hasDefault;
  }

  /** The `when` branches for `Employee`: `id` and `job` are put only when the row has a value. */
  const EmployeeEntries := [PutIfNonNull("id", MemberName(Employees, "id")),
                            Put("name", MemberName(Employees, "name"), true),
                            PutIfNonNull("job", MemberName(Employees, "job"))]

  lemma EmployeeReflectiveEntries()
    ensures ReflectiveEntries(EmployeeParameters, map["id" := IdColumn, "name" := NameColumn, "job" := JobColumn]) == Ok(EmployeeEntries)
  {
    var cm := map["id" := IdColumn, "name" := NameColumn, "job" := JobColumn];
    var r := ReflectiveEntries(EmployeeParameters, cm);
    assert r.Ok? by {
      assert forall i :: 0 <= i < 3 ==> EmployeeParameters[i].name in cm;
    }
    assert r.value[0] == EmployeeEntries[0] && r.value[1] == EmployeeEntries[1] && r.value[2] == EmployeeEntries[2];
    assert r.value == EmployeeEntries;
  }

  lemma EmployeeReflectiveInstance(table: TableDefinition)
    requires IsEmployeeTable(table, [IdColumn, NameColumn, JobColumn])
    ensures InstanceCode(table, EmployeeParameters, true) == Ok([LookupPrimaryConstructor] + EmployeeEntries + [CallBy])
  {
    EmployeeColumnMap();
    EmployeeReflectiveEntries();
    EmployeeUsesCallBy();
  }

  /** With reflection allowed, `id` and `job` keep their defaults when the row has no value for them. */
  lemma EmployeeReflective(table: TableDefinition)
    requires IsEmployeeTable(table, [IdColumn, NameColumn, JobColumn])
    ensures CreateEntityBody(table, true) == Ok([LookupPrimaryConstructor] + EmployeeEntries + [CallBy] + [Return])
  {
    EmployeeFacts(table);
    EmployeeReflectiveInstance(table);
    BodyWithoutAssignments(table, EmployeeParameters, true, [LookupPrimaryConstructor] + EmployeeEntries + [CallBy]);
  }

  /** The named arguments of the direct call for `Employee`. */
  const EmployeeArguments := [NamedArgument("id", MemberName(Employees, "id"), false),
                              NamedArgument("name", MemberName(Employees, "name"), true),
                              NamedArgument("job", MemberName(Employees, "job"), true)]

  lemma EmployeeDirectArguments(table: TableDefinition)
    requires IsEmployeeTable(table, [IdColumn, NameColumn, JobColumn])
    ensures DirectArguments(EmployeeParameters, table) == Ok(EmployeeArguments)
  {
    EmployeeFirstColumns(table.columns);
    DirectArgumentsOk(EmployeeParameters, table, EmployeeArguments);
  }

  lemma EmployeeFirstColumns(columns: seq<ColumnDefinition>)
    requires columns == [IdColumn, NameColumn, JobColumn]
    ensures PropertyNames(columns) == ["id", "name", "job"]
    ensures FirstColumn(columns, "id") == Some(IdColumn)
    ensures FirstColumn(columns, "name") == Some(NameColumn)
    ensures FirstColumn(columns, "job") == Some(JobColumn)
  {
    assert IdColumn.PropertyName() == "id" && NameColumn.PropertyName() == "name" && JobColumn.PropertyName() == "job";
    assert FirstColumn(columns[1..], "name") == Some(NameColumn);
    assert FirstColumn(columns[2..], "job") == Some(JobColumn);
    assert FirstColumn(columns[1..], "job") == Some(JobColumn);
  }

  /** The direct branch succeeds with the given arguments when each is the one for its parameter. */
  lemma DirectArgumentsOk(parameters: seq<Parameter>, table: TableDefinition, arguments: seq<NamedArgument>)
    requires |arguments| == |parameters|
    requires forall i :: 0 <= i < |parameters| ==> parameters[i].name in PropertyNames(table.columns)
    requires forall i :: 0 <= i < |parameters| ==>
               arguments[i] == DirectArgument(table.tableClassName, parameters[i], FirstColumn(table.columns, parameters[i].name).value)
    ensures DirectArguments(parameters, table) == Ok(arguments)
  {
    var r := DirectArguments(parameters, table);
    assert r.value == arguments;
  }

  lemma EmployeeDirectInstance(table: TableDefinition)
    requires IsEmployeeTable(table, [IdColumn, NameColumn, JobColumn])
    ensures InstanceCode(table, EmployeeParameters, false) == Ok([DirectCall(EmployeeArguments)])
  {
    EmployeeDirectArguments(table);
    EmployeeUsesCallBy();
  }

  /** With reflection disallowed, every parameter is read from the row by a direct call. */
  lemma EmployeeDirect(table: TableDefinition)
    requires IsEmployeeTable(table, [IdColumn, NameColumn, JobColumn])
    ensures CreateEntityBody(table, false) == Ok([DirectCall(EmployeeArguments)] + [Return])
  {
    EmployeeFacts(table);
    EmployeeDirectInstance(table);
    BodyWithoutAssignments(table, EmployeeParameters, false, [DirectCall(EmployeeArguments)]);
  }

  lemma EmployeeWithoutJobInstance(table: TableDefinition)
    requires IsEmployeeTable(table, [IdColumn, NameColumn])
    ensures InstanceCode(table, EmployeeParameters, true) == Err(ParameterColumnMissing("job"))
    ensures InstanceCode(table, EmployeeParameters, false) == Err(ParameterNotInTable("job"))
  {
    EmployeeUsesCallBy();
    EmployeeWithoutJobEntries();
    EmployeeWithoutJobArguments(table);
  }

  lemma EmployeeWithoutJobEntries()
    ensures ReflectiveEntries(EmployeeParameters, ColumnMap([IdColumn, NameColumn])) == Err(ParameterColumnMissing("job"))
  {
    EmployeeColumnMap();
    var cm := map["id" := IdColumn, "name" := NameColumn];
    assert EmployeeParameters[2].name !in cm;
    assert forall i :: 0 <= i < 2 ==> EmployeeParameters[i].name in cm;
    ReflectiveEntriesFailAt(EmployeeParameters, cm, 2);
  }

  lemma EmployeeWithoutJobArguments(table: TableDefinition)
    requires IsEmployeeTable(table, [IdColumn, NameColumn])
    ensures DirectArguments(EmployeeParameters, table) == Err(ParameterNotInTable("job"))
  {
    assert IdColumn.PropertyName() == "id" && NameColumn.PropertyName() == "name";
    assert PropertyNames(table.columns) == ["id", "name"];
    assert EmployeeParameters[2].name !in PropertyNames(table.columns);
    assert forall i :: 0 <= i < 2 ==> EmployeeParameters[i].name in PropertyNames(table.columns);
    DirectArgumentsFailAt(EmployeeParameters, table, 2);
  }

  /**
   * Without a `job` column, neither strategy emits a body, although `job` has a
   * default and passes the unknown-parameter check: the reflective strategy
   * stops at `columnMap["job"]!!`, the direct one at its own error.
   */
  lemma EmployeeWithoutJobColumn(table: TableDefinition)
    requires IsEmployeeTable(table, [IdColumn, NameColumn])
    ensures UnknownParameters(EmployeeParameters, Distinct(PropertyNames(table.columns))) == []
    ensures CreateEntityBody(table, true) == Err(ParameterColumnMissing("job"))
    ensures CreateEntityBody(table, false) == Err(ParameterNotInTable("job"))
  {
    EmployeeFacts(table);
    EmployeeWithoutJobInstance(table);
    BodyAfterCheck(table, EmployeeParameters, true);
    BodyAfterCheck(table, EmployeeParameters, false);
  }

  lemma EmployeeSkippingJobOverColumnMap()
    ensures ReflectiveEntriesSkippingMissing(EmployeeParameters, ColumnMap([IdColumn, NameColumn])) == Ok(EmployeeEntries[..2])
  {
    EmployeeColumnMap();
    EmployeeEntriesSkippingJob();
  }

  lemma EmployeeEntriesSkippingJob()
    ensures ReflectiveEntriesSkippingMissing(EmployeeParameters, map["id" := IdColumn, "name" := NameColumn]) == Ok(EmployeeEntries[..2])
  {
    var cm := map["id" := IdColumn, "name" := NameColumn];
    var ps := EmployeeParameters;
    var r3 := ReflectiveEntriesSkippingMissing(ps[3..], cm);
    assert ps[3..] == [] && r3 == Ok([]);
    var r2 := ReflectiveEntriesSkippingMissing(ps[2..], cm);
    assert ps[2..][0].name !in cm && ps[2..][0].hasDefault && ps[2..][1..] == ps[3..];
    assert r2 == r3;
    var r1 := ReflectiveEntriesSkippingMissing(ps[1..], cm);
    assert ps[1..][0].name in cm && ps[1..][1..] == ps[2..];
    assert r1.Ok? && r1.value == [EmployeeEntries[1]];
    var r0 := ReflectiveEntriesSkippingMissing(ps, cm);
    assert ps[0].name in cm;
    assert r0.Ok? && r0.value == [EmployeeEntries[0]] + [EmployeeEntries[1]];
    assert r0.value == EmployeeEntries[..2];
  }

  /** Corrected: the same table emits a body in which `job` is left to its default. */
  lemma EmployeeWithoutJobColumnCorrected(table: TableDefinition)
    requires IsEmployeeTable(table, [IdColumn, NameColumn])
    ensures CreateEntityBodyCorrected(table, true) == Ok([LookupPrimaryConstructor] + EmployeeEntries[..2] + [CallBy, Return])
  {
    EmployeeFacts(table);
    EmployeeUsesCallBy();
    EmployeeSkippingJobOverColumnMap();
    CorrectedBodyWithoutAssignments(table, EmployeeParameters, EmployeeEntries[..2]);
  }

  /** The corrected reflective body of a table whose columns are all constructor parameters. */
  lemma CorrectedBodyWithoutAssignments(table: TableDefinition, parameters: seq<Parameter>, entries: seq<Statement>)
    requires table.entityClassDeclaration.primaryConstructor == Some(parameters)
    requires UnknownParameters(parameters, Distinct(PropertyNames(table.columns))) == []
    requires UsesCallBy(parameters, true)
    requires PostAssignments(table, parameters) == []
    requires ReflectiveEntriesSkippingMissing(parameters, ColumnMap(table.columns)) == Ok(entries)
    ensures CreateEntityBodyCorrected(table, true) == Ok([LookupPrimaryConstructor] + entries + [CallBy, Return])
  {
    CorrectedBodyAfterCheck(table, parameters);
    CallByWithoutAssignments(entries, PostAssignments(table, parameters));
  }

  /** The `callBy` body with no assignments; stated on its own so the corrected body need not be unfolded again. */
  lemma CallByWithoutAssignments(entries: seq<Statement>, a: seq<Statement>)
    requires a == []
    ensures [LookupPrimaryConstructor] + entries + [CallBy] + a + [Return] == [LookupPrimaryConstructor] + entries + [CallBy, Return]
  {
  }
}
