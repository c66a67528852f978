# ktorm-ksp compiler core, modelled in Dafny

ktorm-ksp is a Kotlin Symbol Processing plugin. For every class annotated with `@Table`, it generates a Ktorm table object. This project models the path from an annotated entity class to that table object, and proves what each step guarantees:

- **Processing** (`processor.dfy`, module `KtormProcessor`). `process` hands back the symbols that fail validation and visits the valid class declarations. `visitClassDeclaration` resolves each class to a `TableDefinition` and appends it to a shared list. The list is a class with a `seq` field, and the visitor and `Process` work on it in place. Column resolution is modelled as pure functions: transient properties are dropped, the column name comes from `@Column` when present, primary keys are marked by `@Id`, and members are named `<Entity>s.<property>`.
- **Table generation** (`table_generator.dfy`, module `TableGenerator`). This covers:
  - the column properties of the table object and their initializers, for both `Table` and `BaseTable`;
  - the `Database.<sequence>` extension property;
  - `generateFunctions`, which gives a `BaseTable` its `doCreateEntity`.
- **`doCreateEntity`** (`create_entity.dfy`, module `CreateEntity`). The body is an abstract sequence of statements: constructor lookup, map entries, `callBy`, a direct constructor call, property assignments and `return`. The imperative generator, which shrinks the set of non-structural properties in its loops, is a method proved equal to a specification function, `CreateEntityBody`. Lemmas state the strategy choice, the reflective map rules, the direct-call rules, the post-construction assignments and every error path.
- **The codegen `ColumnDefinition` record** (`codegen_column.dfy`, module `CodegenDefinition`). It covers the record's derived flags, the update of its one mutable field and its `toString`.
- **`findSuperTypeReference`** (`ksp_extensions.dfy`, module `KspExtensions`). This is a depth-first search of an acyclic supertype tree, proved equal to the first match of a preorder walk.

The other files hold the values everything works on:

| file | module | contents |
|---|---|---|
| `wrappers.dfy` | `Wrappers` | `Option` and `Result` |
| `poet.dfy` | `Poet` | the KotlinPoet class, member and type names |
| `ksp.dfy` | `Ksp` | the facts KSP supplies about properties, annotations, constructor parameters and symbols |
| `definition.dfy` | `Definition` | the compiler's `ColumnDefinition` and `TableDefinition` |

There are two `ColumnDefinition` shapes:

- `Definition.ColumnDefinition` has five components: column name, primary-key flag, property declaration, property type name and member name. Their order follows the processor's constructor call and the generator's destructuring.
- `CodegenDefinition.ColumnDefinition` is the richer record from the codegen module. It is modelled on its own, because neither the processor nor the generator uses it.

### How the code behaves at its edges

- **Reflection disallowed.** `doCreateEntity` always calls the constructor directly, with one named argument per parameter. An `Employee(id: Int? = …, name: String, job: String = "clerk")` with columns `id`, `name` and `job` gets a working body (`CreateEntity.EmployeeDirect`).
- **A missing column when reflection is disallowed.** A defaulted parameter without a column fails with `ParameterNotInTable`, the "Construct parameter not exists in table" error (`CreateEntity.DirectNeedsEveryColumn`).
- **Unknown parameters.** A table whose constructor has required parameters without a column fails with one error. It lists all of that entity's unknown parameters (`CreateEntity.UnknownRequiredParameterFails`).
- **A missing column when reflection is allowed.** A defaulted parameter without a column fails at `columnMap[...]!!`; its default is not used (Finding 1).
- **Two columns with one property name.** `associateBy` keeps the last and `firstOrNull` finds the first. So the map entries and the assignments read the last such column, and the direct call reads the first (`CreateEntity.DuplicateNameColumns`).

## Model

| member | source | states |
|---|---|---|
| KtormProcessor.FirstColumnAnnotation | ktorm-ksp-compiler/src/main/kotlin/org/ktorm/ksp/compiler/KtormProcessorProvider.kt:71 | a found name is that of one of the `@Column` annotations, and a leading `@Column` is the one found |
| KtormProcessor.FirstColumnAnnotationIsFirst | ktorm-ksp-compiler/src/main/kotlin/org/ktorm/ksp/compiler/KtormProcessorProvider.kt:71 | `None` exactly when the property has no `@Column`; otherwise the name of the first `@Column` |
| KtormProcessor.ColumnNamePrecedence | ktorm-ksp-compiler/src/main/kotlin/org/ktorm/ksp/compiler/KtormProcessorProvider.kt:71-73 | the column name is the first `@Column`'s name whenever one is present, even the empty string; otherwise the property's simple name |
| KtormProcessor.TableClassName | ktorm-ksp-compiler/src/main/kotlin/org/ktorm/ksp/compiler/KtormProcessorProvider.kt:60 | the table class is in the entity's package and its simple name is the entity's simple name followed by `s` |
| KtormProcessor.ColumnOf | ktorm-ksp-compiler/src/main/kotlin/org/ktorm/ksp/compiler/KtormProcessorProvider.kt:71-80 | a column keeps the declaration and its resolved type, has the `@Column`-or-simple-name column name, is a member of the table class named after the property, and is a primary key exactly when `@Id` is present |
| KtormProcessor.ResolveColumn | ktorm-ksp-compiler/src/main/kotlin/org/ktorm/ksp/compiler/KtormProcessorProvider.kt:66-70 | a property yields no column exactly when it is `@Transient` |
| KtormProcessor.ResolveColumns | ktorm-ksp-compiler/src/main/kotlin/org/ktorm/ksp/compiler/KtormProcessorProvider.kt:64-82 | at most one column per property |
| KtormProcessor.NonTransient | ktorm-ksp-compiler/src/main/kotlin/org/ktorm/ksp/compiler/KtormProcessorProvider.kt:68-70 | keeps exactly the properties that are not `@Transient` |
| KtormProcessor.NonTransientAppend | ktorm-ksp-compiler/src/main/kotlin/org/ktorm/ksp/compiler/KtormProcessorProvider.kt:64-70 | filtering out transient properties keeps their order (distributes over concatenation) |
| KtormProcessor.ResolveColumnsFollowProperties | ktorm-ksp-compiler/src/main/kotlin/org/ktorm/ksp/compiler/KtormProcessorProvider.kt:64-82 | exactly one column per non-transient property, in `getAllProperties` order, the i-th built from the i-th such property |
| KtormProcessor.ResolveTable | ktorm-ksp-compiler/src/main/kotlin/org/ktorm/ksp/compiler/KtormProcessorProvider.kt:58-94 | the table definition: table class `<Entity>s` in the entity package, table name from the annotation unless empty (then the entity simple name), alias, catalog and schema copied, the entity name, declaration and file kept, and the resolved columns |
| KtormProcessor.ResolvedMembersBelongToTable | ktorm-ksp-compiler/src/main/kotlin/org/ktorm/ksp/compiler/KtormProcessorProvider.kt:79 | every column's member is `<tableClassName>.<propertyName>`, and the table class is never the entity class |
| KtormProcessor.ResolvedColumnNames | ktorm-ksp-compiler/src/main/kotlin/org/ktorm/ksp/compiler/KtormProcessorProvider.kt:64-82 | every column of a resolved table comes from a non-transient property and carries that property's `@Column`-or-simple-name column name |
| KtormProcessor.TableDefinitionList.constructor | ktorm-ksp-compiler/src/main/kotlin/org/ktorm/ksp/compiler/KtormProcessorProvider.kt:38 | the shared list starts empty |
| KtormProcessor.TableDefinitionList.Add | ktorm-ksp-compiler/src/main/kotlin/org/ktorm/ksp/compiler/KtormProcessorProvider.kt:95 | appends one definition and changes nothing else |
| KtormProcessor.EntityVisitor.constructor | ktorm-ksp-compiler/src/main/kotlin/org/ktorm/ksp/compiler/KtormProcessorProvider.kt:48-50 | the visitor holds the shared list it was given |
| KtormProcessor.EntityVisitor.VisitClassDeclaration | ktorm-ksp-compiler/src/main/kotlin/org/ktorm/ksp/compiler/KtormProcessorProvider.kt:53-96 | appends exactly one definition, the resolved table of the visited class |
| KtormProcessor.Deferred | ktorm-ksp-compiler/src/main/kotlin/org/ktorm/ksp/compiler/KtormProcessorProvider.kt:39 | holds exactly the symbols that fail `validate()` |
| KtormProcessor.VisitedMembers | ktorm-ksp-compiler/src/main/kotlin/org/ktorm/ksp/compiler/KtormProcessorProvider.kt:40-42 | a declaration is visited exactly when it belongs to a symbol that is a valid class declaration |
| KtormProcessor.DeferredAppend | ktorm-ksp-compiler/src/main/kotlin/org/ktorm/ksp/compiler/KtormProcessorProvider.kt:39 | deferral keeps symbol order |
| KtormProcessor.VisitedAppend | ktorm-ksp-compiler/src/main/kotlin/org/ktorm/ksp/compiler/KtormProcessorProvider.kt:40-42 | visiting keeps symbol order |
| KtormProcessor.SymbolsPartition | ktorm-ksp-compiler/src/main/kotlin/org/ktorm/ksp/compiler/KtormProcessorProvider.kt:39-42 | a symbol is handed back exactly when it is invalid; a valid class declaration is visited; a valid symbol of another kind is neither handed back nor visited |
| KtormProcessor.Process | ktorm-ksp-compiler/src/main/kotlin/org/ktorm/ksp/compiler/KtormProcessorProvider.kt:34-45 | returns the invalid symbols and one table definition per valid class declaration, in symbol order, each the resolved table of that declaration |
| KspExtensions.FindSuperTypeReference | ktorm-ksp-compiler/src/main/kotlin/org/ktorm/ksp/compiler/KspExtensions.kt:27-42 | a returned reference resolves to a class with the requested qualified name |
| KspExtensions.FindIn | ktorm-ksp-compiler/src/main/kotlin/org/ktorm/ksp/compiler/KspExtensions.kt:28-41 | a returned reference matches the name |
| KspExtensions.FindAt | ktorm-ksp-compiler/src/main/kotlin/org/ktorm/ksp/compiler/KspExtensions.kt:29-39 | a returned reference matches the name |
| KspExtensions.FirstMatchAppend | ktorm-ksp-compiler/src/main/kotlin/org/ktorm/ksp/compiler/KspExtensions.kt:28-40 | the first match in a concatenated walk is the first match of the first part, if any, else of the second |
| KspExtensions.FindIsPreorderFirstMatch | ktorm-ksp-compiler/src/main/kotlin/org/ktorm/ksp/compiler/KspExtensions.kt:28-41 | the search returns the first match of a depth-first, declaration-order walk in which each reference is checked before its subtree and a subtree before its next sibling |
| KspExtensions.FindAtIsPreorderFirstMatch | ktorm-ksp-compiler/src/main/kotlin/org/ktorm/ksp/compiler/KspExtensions.kt:29-39 | the same, for the walk that starts at one supertype |
| KspExtensions.FindNullIffAbsent | ktorm-ksp-compiler/src/main/kotlin/org/ktorm/ksp/compiler/KspExtensions.kt:41 | the result is null exactly when no class in the transitive supertype hierarchy has the name |
| KspExtensions.FindAtNullIffAbsent | ktorm-ksp-compiler/src/main/kotlin/org/ktorm/ksp/compiler/KspExtensions.kt:29-39 | the same, for the hierarchy under one supertype |
| KspExtensions.DirectMatchIsReturned | ktorm-ksp-compiler/src/main/kotlin/org/ktorm/ksp/compiler/KspExtensions.kt:31-33 | a direct supertype that matches, with no match in any earlier sibling's hierarchy, is returned as that reference itself |
| KspExtensions.NonClassSupertypeIsSkipped | ktorm-ksp-compiler/src/main/kotlin/org/ktorm/ksp/compiler/KspExtensions.kt:31-34 | a supertype whose declaration is not a class is neither matched nor descended into |
| KspExtensions.AncestorReferenceCanBeReturned | ktorm-ksp-compiler/src/main/kotlin/org/ktorm/ksp/compiler/KspExtensions.kt:35-37 | the returned reference can come from an ancestor's supertype list rather than the receiver's |
| CodegenDefinition.ColumnDefinition.IsMutable | ktorm-ksp-codegen/src/main/kotlin/org/ktorm/ksp/codegen/definition/ColumnDefinition.kt:88 | `isMutable` is the declaration's mutability |
| CodegenDefinition.ColumnDefinition.IsNullable | ktorm-ksp-codegen/src/main/kotlin/org/ktorm/ksp/codegen/definition/ColumnDefinition.kt:93 | `isNullable` holds exactly when the nullability is not `NOT_NULL`, so platform types count as nullable |
| CodegenDefinition.ColumnDefinition.IsEnum | ktorm-ksp-codegen/src/main/kotlin/org/ktorm/ksp/codegen/definition/ColumnDefinition.kt:98 | `isEnum` holds exactly when the type's class kind is `ENUM_CLASS`; the record exists only when the type's declaration is a class (otherwise the cast throws) |
| CodegenDefinition.ColumnDefinition.WithReferencesColumn | ktorm-ksp-codegen/src/main/kotlin/org/ktorm/ksp/codegen/definition/ColumnDefinition.kt:82 | setting `referencesColumn` changes that field and no other |
| CodegenDefinition.ColumnDefinition.ToString | ktorm-ksp-codegen/src/main/kotlin/org/ktorm/ksp/codegen/definition/ColumnDefinition.kt:100-104 | the text is non-empty, starts with `C` and ends with `)` |
| CodegenDefinition.SettingReferenceKeepsDerivedFlags | ktorm-ksp-codegen/src/main/kotlin/org/ktorm/ksp/codegen/definition/ColumnDefinition.kt:82-98 | setting `referencesColumn` keeps the record constructible and keeps `isMutable`, `isNullable` and `isEnum` |
| CodegenDefinition.ToStringOmitsUnlistedFields | ktorm-ksp-codegen/src/main/kotlin/org/ktorm/ksp/codegen/definition/ColumnDefinition.kt:100-104 | the declaration, type, table and `isReferences` do not affect the text |
| CodegenDefinition.ToStringAtPrimaryKey | ktorm-ksp-codegen/src/main/kotlin/org/ktorm/ksp/codegen/definition/ColumnDefinition.kt:101 | `isPrimaryKey` is rendered straight after the column-name part |
| CodegenDefinition.ToStringAtReference | ktorm-ksp-codegen/src/main/kotlin/org/ktorm/ksp/codegen/definition/ColumnDefinition.kt:103 | the referenced column is rendered right after the column-name part and the other listed fields |
| CodegenDefinition.ToStringShowsPrimaryKey | ktorm-ksp-codegen/src/main/kotlin/org/ktorm/ksp/codegen/definition/ColumnDefinition.kt:101 | records that differ only in `isPrimaryKey` render differently |
| CodegenDefinition.ToStringShowsReference | ktorm-ksp-codegen/src/main/kotlin/org/ktorm/ksp/codegen/definition/ColumnDefinition.kt:103 | a record with a referenced column renders differently from the same record without one |
| CodegenDefinition.EmptyColumnNameIsAllowed | ktorm-ksp-codegen/src/main/kotlin/org/ktorm/ksp/codegen/definition/ColumnDefinition.kt:29-32 | an empty column name is a valid record and renders as `columnName=''` |
| Poet.TypeName.NonNull | ktorm-ksp-compiler/src/main/kotlin/org/ktorm/ksp/compiler/generator/AbstractTableGenerator.kt:86 | `copy(nullable = false)` keeps the type's name and drops `?` |
| TableGenerator.GeneratePropertyInitializer | ktorm-ksp-compiler/src/main/kotlin/org/ktorm/ksp/compiler/generator/AbstractTableGenerator.kt:121-171 | the initializer starts with the column function; a `Table` column then binds `it.<columnName>`, a `BaseTable` column binds nothing; `.primaryKey()` appears exactly when the column is a primary key, and only last |
| TableGenerator.GenerateProperty | ktorm-ksp-compiler/src/main/kotlin/org/ktorm/ksp/compiler/generator/AbstractTableGenerator.kt:83-89 | the property is named by the column name, typed `Column<T>` with `T` the property type made non-null, and initialized by `generatePropertyInitializer`; in a `Table` it is bound to the name it is declared under |
| TableGenerator.KeptColumns | ktorm-ksp-compiler/src/main/kotlin/org/ktorm/ksp/compiler/generator/AbstractTableGenerator.kt:79 | keeps exactly the columns whose property is not named `entityClass` or `properties` |
| TableGenerator.KeptColumnsAppend | ktorm-ksp-compiler/src/main/kotlin/org/ktorm/ksp/compiler/generator/AbstractTableGenerator.kt:79 | the filter keeps column order |
| TableGenerator.GenerateProperties | ktorm-ksp-compiler/src/main/kotlin/org/ktorm/ksp/compiler/generator/AbstractTableGenerator.kt:78-81 | one property per kept column, in column order, each generated from its column |
| TableGenerator.GeneratedPropertiesCoverColumns | ktorm-ksp-compiler/src/main/kotlin/org/ktorm/ksp/compiler/generator/AbstractTableGenerator.kt:78-81 | every kept column has its property, every property comes from a kept column, and every declared name is some kept column's name |
| TableGenerator.SequenceName | ktorm-ksp-compiler/src/main/kotlin/org/ktorm/ksp/compiler/generator/AbstractTableGenerator.kt:56-57 | the sequence name has the table class's length, its first character lowercased and the rest unchanged; an empty class name has none (`substring` throws) |
| TableGenerator.SequenceNameIdempotent | ktorm-ksp-compiler/src/main/kotlin/org/ktorm/ksp/compiler/generator/AbstractTableGenerator.kt:57 | lowercasing the first character twice changes nothing more |
| TableGenerator.GenerateTopLevelProperties | ktorm-ksp-compiler/src/main/kotlin/org/ktorm/ksp/compiler/generator/AbstractTableGenerator.kt:53-70 | one `Database` extension property typed `EntitySequence<Entity, Table>`, named by the sequence name |
| TableGenerator.ResolvedTableSequenceName | ktorm-ksp-compiler/src/main/kotlin/org/ktorm/ksp/compiler/generator/AbstractTableGenerator.kt:56-57 | for a table the processor resolved, the sequence name is the entity simple name with its first character lowercased, followed by `s` |
| TableGenerator.GenerateFunctions | ktorm-ksp-compiler/src/main/kotlin/org/ktorm/ksp/compiler/generator/AbstractTableGenerator.kt:173-258 | a `Table` gets no functions; a `BaseTable` gets one `doCreateEntity` returning the entity class with the generated body, or the generation error |
| TableGenerator.InstanceReadsColumnMembers | ktorm-ksp-compiler/src/main/kotlin/org/ktorm/ksp/compiler/generator/AbstractTableGenerator.kt:199-232 | the construction code reads only members of the table class named after some column's property |
| TableGenerator.BodyReadsColumnMembers | ktorm-ksp-compiler/src/main/kotlin/org/ktorm/ksp/compiler/generator/AbstractTableGenerator.kt:199-251 | the whole body reads only members of the table class named after column properties |
| CreateEntity.ColumnMap | ktorm-ksp-compiler/src/main/kotlin/org/ktorm/ksp/compiler/generator/AbstractTableGenerator.kt:185 | the map has a key exactly for every column property name, and each value is a column with that name |
| CreateEntity.ColumnMapKeepsLast | ktorm-ksp-compiler/src/main/kotlin/org/ktorm/ksp/compiler/generator/AbstractTableGenerator.kt:185 | for each name, the map holds the last column with that property name |
| CreateEntity.FirstColumn | ktorm-ksp-compiler/src/main/kotlin/org/ktorm/ksp/compiler/generator/AbstractTableGenerator.kt:222-224 | `None` exactly when no column has the property name; otherwise a column with that name |
| CreateEntity.FirstColumnIsFirst | ktorm-ksp-compiler/src/main/kotlin/org/ktorm/ksp/compiler/generator/AbstractTableGenerator.kt:222-224 | the column found is the first with that property name |
| CreateEntity.DuplicateNameColumns | ktorm-ksp-compiler/src/main/kotlin/org/ktorm/ksp/compiler/generator/AbstractTableGenerator.kt:185-224 | with two columns of one property name, the map keeps the second and the direct-call lookup finds the first |
| CreateEntity.Distinct | ktorm-ksp-compiler/src/main/kotlin/org/ktorm/ksp/compiler/generator/AbstractTableGenerator.kt:183 | the set of property names has the same members as the list |
| CreateEntity.DistinctHasNoRepeats | ktorm-ksp-compiler/src/main/kotlin/org/ktorm/ksp/compiler/generator/AbstractTableGenerator.kt:183 | the set holds each name once |
| CreateEntity.DistinctInOrder | ktorm-ksp-compiler/src/main/kotlin/org/ktorm/ksp/compiler/generator/AbstractTableGenerator.kt:183 | the set keeps first-occurrence order |
| CreateEntity.Without | ktorm-ksp-compiler/src/main/kotlin/org/ktorm/ksp/compiler/generator/AbstractTableGenerator.kt:212-235 | removing names keeps exactly the names not removed |
| CreateEntity.WithoutRemove | ktorm-ksp-compiler/src/main/kotlin/org/ktorm/ksp/compiler/generator/AbstractTableGenerator.kt:212-235 | removing one more name from the set extends the removed list by that name |
| CreateEntity.WithoutInOrder | ktorm-ksp-compiler/src/main/kotlin/org/ktorm/ksp/compiler/generator/AbstractTableGenerator.kt:212-235 | removal keeps first-occurrence order |
| CreateEntity.ParameterNames | ktorm-ksp-compiler/src/main/kotlin/org/ktorm/ksp/compiler/generator/AbstractTableGenerator.kt:196-197 | the constructor parameters' names, in order |
| CreateEntity.UnknownParameters | ktorm-ksp-compiler/src/main/kotlin/org/ktorm/ksp/compiler/generator/AbstractTableGenerator.kt:186-187 | exactly the names of parameters with no default and no column |
| CreateEntity.ReflectiveEntries | ktorm-ksp-compiler/src/main/kotlin/org/ktorm/ksp/compiler/generator/AbstractTableGenerator.kt:196-213 | succeeds exactly when every parameter has a column; then one map entry per parameter, in order; otherwise fails with a missing column of some parameter |
| CreateEntity.ReflectiveEntriesFailAt | ktorm-ksp-compiler/src/main/kotlin/org/ktorm/ksp/compiler/generator/AbstractTableGenerator.kt:199 | fails at the first parameter that has no column |
| CreateEntity.DirectArguments | ktorm-ksp-compiler/src/main/kotlin/org/ktorm/ksp/compiler/generator/AbstractTableGenerator.kt:221-236 | succeeds exactly when every parameter is some column's property; then one named argument per parameter, in order, from the first such column; otherwise fails with `ParameterNotInTable` |
| CreateEntity.DirectArgumentsFailAt | ktorm-ksp-compiler/src/main/kotlin/org/ktorm/ksp/compiler/generator/AbstractTableGenerator.kt:222-224 | fails at the first parameter that is no column's property |
| CreateEntity.Assignments | ktorm-ksp-compiler/src/main/kotlin/org/ktorm/ksp/compiler/generator/AbstractTableGenerator.kt:240-254 | at most one assignment per property, and nothing but assignments |
| CreateEntity.NonStructural | ktorm-ksp-compiler/src/main/kotlin/org/ktorm/ksp/compiler/generator/AbstractTableGenerator.kt:183-235 | the non-structural properties are exactly the column properties that are not constructor parameters |
| CreateEntity.EmitReflectiveEntries | ktorm-ksp-compiler/src/main/kotlin/org/ktorm/ksp/compiler/generator/AbstractTableGenerator.kt:194-215 | the loop emits the reflective entries and leaves in the set exactly the properties that are not parameters |
| CreateEntity.EmitDirectArguments | ktorm-ksp-compiler/src/main/kotlin/org/ktorm/ksp/compiler/generator/AbstractTableGenerator.kt:219-237 | the loop emits the named arguments and leaves in the set exactly the properties that are not parameters |
| CreateEntity.EmitAssignments | ktorm-ksp-compiler/src/main/kotlin/org/ktorm/ksp/compiler/generator/AbstractTableGenerator.kt:240-254 | the loop emits the assignments of the properties left in the set |
| CreateEntity.GenerateCreateEntity | ktorm-ksp-compiler/src/main/kotlin/org/ktorm/ksp/compiler/generator/AbstractTableGenerator.kt:180-255 | the generated statements are the body of `doCreateEntity`, or the error generation throws |
| CreateEntity.UnknownRequiredParameterFails | ktorm-ksp-compiler/src/main/kotlin/org/ktorm/ksp/compiler/generator/AbstractTableGenerator.kt:186-190 | generation fails with the unknown-parameter error exactly when some parameter without a default has no column, and the error names exactly those parameters |
| CreateEntity.NoDefaultsMeansDirectCall | ktorm-ksp-compiler/src/main/kotlin/org/ktorm/ksp/compiler/generator/AbstractTableGenerator.kt:191-219 | without defaulted parameters the reflection flag changes nothing and a direct call is emitted |
| CreateEntity.StrategyChoice | ktorm-ksp-compiler/src/main/kotlin/org/ktorm/ksp/compiler/generator/AbstractTableGenerator.kt:191-219 | the body starts with the constructor lookup exactly when reflection is allowed and some parameter has a default, and with a direct call otherwise |
| CreateEntity.ReflectiveMapRules | ktorm-ksp-compiler/src/main/kotlin/org/ktorm/ksp/compiler/generator/AbstractTableGenerator.kt:192-216 | in the reflective body every parameter has a column; a defaulted one is put only when non-null, any other one always, with `!!` exactly when its column is non-nullable; `callBy` follows the entries |
| CreateEntity.CheckPasses | ktorm-ksp-compiler/src/main/kotlin/org/ktorm/ksp/compiler/generator/AbstractTableGenerator.kt:186-190 | when every required parameter is named after a column property, no parameter is reported unknown |
| CreateEntity.ReflectiveNeedsEveryColumn | ktorm-ksp-compiler/src/main/kotlin/org/ktorm/ksp/compiler/generator/AbstractTableGenerator.kt:199 | once the unknown-parameter check passes, the reflective strategy succeeds exactly when every parameter, defaulted ones included, has a column; otherwise it fails at a defaulted parameter |
| CreateEntity.EntriesNeedEveryColumn | ktorm-ksp-compiler/src/main/kotlin/org/ktorm/ksp/compiler/generator/AbstractTableGenerator.kt:196-213 | the map entries can be built exactly when every parameter names a column property; otherwise they fail with `ParameterColumnMissing` at a parameter without one |
| CreateEntity.DirectCallRules | ktorm-ksp-compiler/src/main/kotlin/org/ktorm/ksp/compiler/generator/AbstractTableGenerator.kt:219-237 | the direct call passes every parameter by name, in constructor order, reading `<Table>.<parameter>` with `!!` exactly when the first matching column is non-nullable |
| CreateEntity.DirectNeedsEveryColumn | ktorm-ksp-compiler/src/main/kotlin/org/ktorm/ksp/compiler/generator/AbstractTableGenerator.kt:222-224 | once the unknown-parameter check passes, the direct strategy succeeds exactly when every parameter has a column; otherwise it fails with `ParameterNotInTable` at a defaulted parameter |
| CreateEntity.ArgumentsNeedEveryColumn | ktorm-ksp-compiler/src/main/kotlin/org/ktorm/ksp/compiler/generator/AbstractTableGenerator.kt:221-236 | the constructor arguments can be built exactly when every parameter names a column property; otherwise they fail with `ParameterNotInTable` at a parameter without one |
| CreateEntity.AssignmentsShape | ktorm-ksp-compiler/src/main/kotlin/org/ktorm/ksp/compiler/generator/AbstractTableGenerator.kt:240-254 | each assignment is of a mutable listed property and reads `<Table>.<property>`, with `!!` exactly when the property is non-nullable |
| CreateEntity.AssignmentsCoverMutable | ktorm-ksp-compiler/src/main/kotlin/org/ktorm/ksp/compiler/generator/AbstractTableGenerator.kt:240-244 | every mutable listed property is assigned |
| CreateEntity.AssignedNamesExactly | ktorm-ksp-compiler/src/main/kotlin/org/ktorm/ksp/compiler/generator/AbstractTableGenerator.kt:240-244 | a name is assigned exactly when it is a listed property and its column property is mutable |
| CreateEntity.AssignmentsInOrder | ktorm-ksp-compiler/src/main/kotlin/org/ktorm/ksp/compiler/generator/AbstractTableGenerator.kt:240 | assignments keep the order of the property list |
| CreateEntity.AssignedProperties | ktorm-ksp-compiler/src/main/kotlin/org/ktorm/ksp/compiler/generator/AbstractTableGenerator.kt:240-244 | a property is assigned after construction exactly when it is a column property, not a constructor parameter, and mutable |
| CreateEntity.AssignmentReads | ktorm-ksp-compiler/src/main/kotlin/org/ktorm/ksp/compiler/generator/AbstractTableGenerator.kt:245-253 | each assignment reads `<Table>.<property>` with `!!` exactly when the column is non-nullable |
| CreateEntity.AssignmentOrder | ktorm-ksp-compiler/src/main/kotlin/org/ktorm/ksp/compiler/generator/AbstractTableGenerator.kt:240 | assignments follow the first-occurrence order of the column properties |
| CreateEntity.InstanceCodeHasNoReturn | ktorm-ksp-compiler/src/main/kotlin/org/ktorm/ksp/compiler/generator/AbstractTableGenerator.kt:192-237 | the construction code is non-empty and contains no `return` |
| CreateEntity.BodyParts | ktorm-ksp-compiler/src/main/kotlin/org/ktorm/ksp/compiler/generator/AbstractTableGenerator.kt:180-255 | a body is the construction code, then the assignments, then `return instance` |
| CreateEntity.BodyEndsWithAssignments | ktorm-ksp-compiler/src/main/kotlin/org/ktorm/ksp/compiler/generator/AbstractTableGenerator.kt:239-255 | the body ends with the assignments and then `return instance`, and `return` appears nowhere else |
| CreateEntity.EmployeeReflective | ktorm-ksp-compiler/src/main/kotlin/org/ktorm/ksp/compiler/generator/AbstractTableGenerator.kt:191-255 | `Employee(id: Int? = null, name: String, job: String = "clerk")` with all three columns and reflection allowed: look up the constructor, put `id` and `job` only if non-null, put `name!!`, call `callBy`, return |
| CreateEntity.EmployeeDirect | ktorm-ksp-compiler/src/main/kotlin/org/ktorm/ksp/compiler/generator/AbstractTableGenerator.kt:217-255 | the same entity with reflection disallowed gets a direct call `Employee(id = row[Employees.id], name = row[Employees.name]!!, job = row[Employees.job]!!)` |
| CreateEntity.EmployeeWithoutJobColumn | ktorm-ksp-compiler/src/main/kotlin/org/ktorm/ksp/compiler/generator/AbstractTableGenerator.kt:186-224 | without a `job` column the unknown-parameter check passes, yet generation fails: at `columnMap["job"]!!` with reflection, with `ParameterNotInTable("job")` without |
| CreateEntity.ReflectiveEntriesSkippingMissing | ktorm-ksp-compiler/src/main/kotlin/org/ktorm/ksp/compiler/generator/AbstractTableGenerator.kt:196-213 | corrected entries: fail exactly when a parameter without a default has no column |
| CreateEntity.SkippingMissingAgrees | ktorm-ksp-compiler/src/main/kotlin/org/ktorm/ksp/compiler/generator/AbstractTableGenerator.kt:196-213 | where the entries as written succeed, the corrected entries are the same |
| CreateEntity.ReflectiveSucceedsAfterCheck | ktorm-ksp-compiler/src/main/kotlin/org/ktorm/ksp/compiler/generator/AbstractTableGenerator.kt:186-216 | with the corrected entries, the reflective body is emitted exactly when the unknown-parameter check passes |
| CreateEntity.CorrectedAgreesWhereBodyIsEmitted | ktorm-ksp-compiler/src/main/kotlin/org/ktorm/ksp/compiler/generator/AbstractTableGenerator.kt:180-255 | wherever the body as written is emitted, the corrected body is the same |
| CreateEntity.EmployeeWithoutJobColumnCorrected | ktorm-ksp-compiler/src/main/kotlin/org/ktorm/ksp/compiler/generator/AbstractTableGenerator.kt:202-205 | with the correction, `Employee` without a `job` column gets entries for `id` and `name` only, so `job` keeps its default |
| TableGenerator.RenamedColumnIsNotDeclared | ktorm-ksp-compiler/src/main/kotlin/org/ktorm/ksp/compiler/generator/AbstractTableGenerator.kt:85-88 | for `@Column(columnName = "emp_name") val name`, the body reads `Employees.name` while the table object declares only `emp_name`, bound as `it.emp_name` |
| TableGenerator.GeneratePropertyCorrected | ktorm-ksp-compiler/src/main/kotlin/org/ktorm/ksp/compiler/generator/AbstractTableGenerator.kt:83-89 | corrected property: named by the property name and, in a `Table`, bound to that entity property |
| TableGenerator.GeneratePropertiesCorrected | ktorm-ksp-compiler/src/main/kotlin/org/ktorm/ksp/compiler/generator/AbstractTableGenerator.kt:78-81 | one corrected property per kept column, in order |
| TableGenerator.CorrectedDeclaresEveryRead | ktorm-ksp-compiler/src/main/kotlin/org/ktorm/ksp/compiler/generator/AbstractTableGenerator.kt:199-251 | with corrected properties, every member the body reads is declared by the table object or is one of its inherited `entityClass`/`properties` |
| TableGenerator.ResolvedTableDeclaresEveryRead | ktorm-ksp-compiler/src/main/kotlin/org/ktorm/ksp/compiler/generator/AbstractTableGenerator.kt:83-89 | the same for every table the processor resolves |

## Left out

- **KSP resolver calls.** The model takes the results of `getSymbolsWithAnnotation`, `validate()`, `getAnnotationsByType`, `isAnnotationPresent`, `getAllProperties`, `type.resolve()` and `toTypeName()` as given data. `ktormValidate` is not modelled, because its visitor is not part of this model.
- **KotlinPoet builders.** The model does not build `FileSpec`, `TypeSpec`, `FunSpec` or `CodeBlock`. Generated code is an abstract sequence of statements and property descriptions, so the exact text (commas, parentheses, the `when` and `for` scaffolding of the reflective body) is not modelled.
- **`generate()`.** The order in which `generate()` assembles its parts, `generateFile`, `generateType` (the superclass and its constructor arguments) and `generateTopLevelFunctions` (always empty) are not modelled.
- **`columnInitializerGenerator.generate`.** It is an opaque first part, `ColumnFunction(column)`, because its source is not part of this model.
- **Logging.** The `logger` calls are left out, among them `process`'s `"start ktorm processor"` line and its line listing every symbol. They have no effect on the result.
- **`KtormCodeGenerator.generate`.** The model leaves out the call at the end of `process` and the `codeGenerator` output. It is not part of this model.
- **Configuration.** `KtormKspConfig` is a declaration with no logic. Its `allowReflectionCreateEntity` is a boolean parameter of the generator.
- **Runtime support.** `EntityUtil` is left out: proxies, bytecode enhancement and `Unsafe` allocation are runtime reflection.
- **Build files.** They configure the build only.
- **Null names.** KSP's nullable names are taken to be present: constructor parameter names (`name!!`), `qualifiedName!!` in the supertype search, and the `containingFile!!` of the entity. Where the code would throw on them, the model has no error case.
- **A missing `@Table` annotation.** `getAnnotationsByType(Table::class).first()` never throws here, because every visited declaration carries a `TableAnnotation`.
- **Lowercasing.** `lowercase()` of the sequence name's first character is modelled for ASCII letters only. Other characters are left unchanged, and Unicode case mapping is not modelled.
- **Exception text.** The text of the generation errors is left out: the class name, the list rendering, and the exception type (`IllegalStateException` from `error`, `NullPointerException` from `!!`). `GenerationError` names the failure and the parameters involved.
- **Features not implemented in the modelled files.** Pluralization beyond appending `s`, naming strategies, converters beyond their `toString` text, reference-column resolution and interface entities are left out.
- **Missing codegen files.** The codegen `TableDefinition` and `ConverterDefinition` are not part of this model. The record keeps an opaque table handle and the converter's text.
- **Datatype value semantics.**
  - `CodegenDefinition.ColumnDefinition.WithReferencesColumn`: assigning the one `var`, `referencesColumn`, is modelled as building an updated value, so aliasing of a shared record is not captured.
  - A datatype also cannot describe a record that refers to itself through `referencesColumn`, so a cyclic `toString` is not modelled.
- **Records the constructor cannot build.** `CodegenDefinition.ColumnDefinition.IsMutable`, `IsNullable` and `ToString` accept any record. The Kotlin constructor throws a `ClassCastException` at line 98 of `ColumnDefinition.kt` unless the property type is declared by a class, so some of those records never exist; only `IsEnum` requires `Constructible()`.
- TableGenerator.CorrectedDeclaresEveryRead: exempts reads of `entityClass` and `properties`. An entity property with one of those names gets no column property, so a body reading `Employees.properties` reads the member the table object inherits, not a column.
- **Supertype hierarchies.** `KspExtensions.FindSuperTypeReference` searches finite, acyclic supertype trees. On a cyclic hierarchy the code would not terminate; the model has no such case.
- **Reference identity.** Supertype references are compared as values. Two references with the same identifier and declaration are the same reference.

## Findings

| source | as written | input that shows it | evidently intended | confidence | as-written member | corrected member |
|---|---|---|---|---|---|---|
| ktorm-ksp-compiler/src/main/kotlin/org/ktorm/ksp/compiler/generator/AbstractTableGenerator.kt:199 | Reflective strategy: every constructor parameter is looked up with `columnMap[parameterName]!!`, including parameters that have a default value. | `Employee(id: Int? = null, name: String, job: String = "clerk")` with reflection allowed and no `job` column. The unknown-parameter check at lines 186-190 passes because `job` has a default, then generation throws at `columnMap["job"]!!`. | A defaulted parameter with no column gets no map entry, so its default applies. The unknown-parameter check is then the only failure. | medium; not executed | CreateEntity.EmployeeWithoutJobColumn | CreateEntity.ReflectiveSucceedsAfterCheck |
| ktorm-ksp-compiler/src/main/kotlin/org/ktorm/ksp/compiler/generator/AbstractTableGenerator.kt:85-88 | Each column property of the table object is named after `columnName`, and in a `Table` it is bound with `bindTo { it.<columnName> }` (line 126). `doCreateEntity` reads `<Table>.<propertyName>` (lines 200, 232, 251). | `@Column(columnName = "emp_name") val name: String` in `Employee(name: String)`. The table object declares `emp_name`, and `bindTo { it.emp_name }` names no entity property. `doCreateEntity` reads `Employees.name`, which is not declared. | Each column property is named after the entity property and bound to `it.<propertyName>`. Every member the body reads is then declared, except one named `entityClass` or `properties`, which the table object inherits and never declares as a column. | medium; not executed | TableGenerator.RenamedColumnIsNotDeclared | TableGenerator.CorrectedDeclaresEveryRead |

Both findings are also modelled as written:

- `TableGenerator.GenerateFunctions` and `CreateEntity.GenerateCreateEntity` implement the body as written. `CreateEntity.CreateEntityBodyCorrected` is the corrected body. `CreateEntity.CorrectedAgreesWhereBodyIsEmitted` proves that the correction changes only inputs on which the code as written throws.
- `TableGenerator.GenerateProperties` implements the properties as written. `TableGenerator.GeneratePropertiesCorrected` is the corrected version. `TableGenerator.ResolvedTableDeclaresEveryRead` carries the corrected property through every table the processor resolves.
