/**
 * The symbol processor: it defers the symbols KSP cannot validate yet and turns
 * every valid `@Table` class into a `TableDefinition`, one column per property
 * that is not `@Transient`.
 */
module KtormProcessor {
  import opened Wrappers
  import opened Poet
  import opened Ksp
  import opened Definition

  // ---------------------------------------------------------------------------
  // Column resolution: the `mapNotNull` pipeline over `getAllProperties()`
  // ---------------------------------------------------------------------------

  predicate IsTransient(p: PropertyDeclaration) { TransientAnnotation in p.annotations }

  /** `getAnnotationsByType(Id::class).any()`. */
  predicate IsId(p: PropertyDeclaration) { IdAnnotation in p.annotations }

  /** `getAnnotationsByType(Column::class).firstOrNull()?.columnName`. */
  function FirstColumnAnnotation(annotations: seq<Annotation>): (r: Option<string>)
    ensures r.Some? ==> ColumnAnnotation(r.value) in annotations
    ensures |annotations| > 0 && annotations[0].ColumnAnnotation? ==> r == Some(annotations[0].columnName)
  {
    if annotations == [] then None
    else match annotations[0]
      case ColumnAnnotation(name) => Some(name)
      case _ => FirstColumnAnnotation(annotations[1..])
  }

  /** `firstOrNull` finds nothing exactly when no annotation is `@Column`, and otherwise the first one. */
  lemma {:induction false} FirstColumnAnnotationIsFirst(annotations: seq<Annotation>)
    ensures FirstColumnAnnotation(annotations).None? <==> forall k :: 0 <= k < |annotations| ==> !annotations[k].ColumnAnnotation?
    ensures FirstColumnAnnotation(annotations).Some? ==>
              exists i :: 0 <= i < |annotations| && annotations[i] == ColumnAnnotation(FirstColumnAnnotation(annotations).value)
                          && forall k :: 0 <= k < i ==> !annotations[k].ColumnAnnotation?
  {
    if annotations != [] && !annotations[0].ColumnAnnotation? {
      var tail := annotations[1..];
      FirstColumnAnnotationIsFirst(tail);
      assert FirstColumnAnnotation(annotations) == FirstColumnAnnotation(tail);
      if FirstColumnAnnotation(tail).Some? {
        var i :| 0 <= i < |tail| && tail[i] == ColumnAnnotation(FirstColumnAnnotation(tail).value)
                 && forall k :: 0 <= k < i ==> !tail[k].ColumnAnnotation?;
        assert annotations[i + 1] == tail[i];
        assert forall k :: 0 <= k < i + 1 ==> !annotations[k].ColumnAnnotation? by {
          forall k | 0 <= k < i + 1 ensures !annotations[k].ColumnAnnotation? {
            if k > 0 { assert annotations[k] == tail[k - 1]; }
          }
        }
      } else {
        assert forall k :: 0 <= k < |annotations| ==> !annotations[k].ColumnAnnotation? by {
          forall k | 0 <= k < |annotations| ensures !annotations[k].ColumnAnnotation? {
            if k > 0 { assert annotations[k] == tail[k - 1]; }
          }
        }
      }
    }
  }

  /** The column name: the `@Column` annotation's `columnName` when present, else the property name. */
  function ColumnNameOf(p: PropertyDeclaration): string
  {
    match FirstColumnAnnotation(p.annotations)
    case Some(name) => name
    case None => p.simpleName
  }

  /** The table class: in the entity's package, named after the entity plus `"s"`. */
  function TableClassName(entityClassName: ClassName): (r: ClassName)
    ensures r.packageName == entityClassName.packageName
    ensures |r.simpleName| == |entityClassName.simpleName| + 1 && r.simpleName[|r.simpleName| - 1] == 's'
    ensures r.simpleName[..|entityClassName.simpleName|] == entityClassName.simpleName
  {
    ClassName(entityClassName.packageName, entityClassName.simpleName + "s")
  }

  /** The `ColumnDefinition` built for a property that is not `@Transient`. */
  function ColumnOf(tableClassName: ClassName, p: PropertyDeclaration): (c: ColumnDefinition)
    ensures c.propertyDeclaration == p && c.propertyTypeName == p.typeName
    ensures c.property.enclosingClassName == tableClassName && c.PropertyName() == p.simpleName
    ensures c.isPrimaryKey <==> exists k :: 0 <= k < |p.annotations| && p.annotations[k] == IdAnnotation
    ensures c.columnName == ColumnNameOf(p)
  {
    ColumnDefinition(ColumnNameOf(p), IsId(p), p, p.typeName, MemberName(tableClassName, p.simpleName))
  }

  /** The body of the `mapNotNull` lambda: `@Transient` properties map to `null`. */
  function ResolveColumn(tableClassName: ClassName, p: PropertyDeclaration): (r: Option<ColumnDefinition>)
    ensures r.None? <==> IsTransient(p)
  {
    if IsTransient(p) then None else Some(ColumnOf(tableClassName, p))
  }

  /** `getAllProperties().mapNotNull { ... }.toList()`. */
  function ResolveColumns(tableClassName: ClassName, properties: seq<PropertyDeclaration>): (r: seq<ColumnDefinition>)
    ensures |r| <= |properties|
  {
    if properties == [] then []
    else match ResolveColumn(tableClassName, properties[0])
      case None => ResolveColumns(tableClassName, properties[1..])
      case Some(c) => [c] + ResolveColumns(tableClassName, properties[1..])
  }

  /** The properties that are not `@Transient`, in their order. */
  function NonTransient(properties: seq<PropertyDeclaration>): (r: seq<PropertyDeclaration>)
    ensures forall p :: p in r <==> p in properties && !IsTransient(p)
  {
    if properties == [] then []
    else (if IsTransient(properties[0]) then [] else [properties[0]]) + NonTransient(properties[1..])
  }

  /** Filtering keeps order and multiplicity: it distributes over concatenation. */
  lemma {:induction false} NonTransientAppend(a: seq<PropertyDeclaration>, b: seq<PropertyDeclaration>)
    ensures NonTransient(a + b) == NonTransient(a) + NonTransient(b)
  {
    if a == [] {
      assert a + b == b;
    } else {
      assert (a + b)[1..] == a[1..] + b;
      NonTransientAppend(a[1..], b);
    }
  }

  /** Exactly one column per non-transient property, in `getAllProperties` order. */
  lemma {:induction false} ResolveColumnsFollowProperties(tableClassName: ClassName, properties: seq<PropertyDeclaration>)
    ensures |ResolveColumns(tableClassName, properties)| == |NonTransient(properties)|
    ensures forall i :: 0 <= i < |NonTransient(properties)| ==>
              ResolveColumns(tableClassName, properties)[i] == ColumnOf(tableClassName, NonTransient(properties)[i])
  {
    if properties != [] {
      var p := properties[0];
      var tail := properties[1..];
      ResolveColumnsFollowProperties(tableClassName, tail);
      if IsTransient(p) {
        assert NonTransient(properties) == NonTransient(tail);
        assert ResolveColumns(tableClassName, properties) == ResolveColumns(tableClassName, tail);
      } else {
        var columns := ResolveColumns(tableClassName, properties);
        var kept := NonTransient(properties);
        assert kept == [p] + NonTransient(tail);
        assert columns == [ColumnOf(tableClassName, p)] + ResolveColumns(tableClassName, tail);
        forall i | 1 <= i < |kept|
          ensures columns[i] == ColumnOf(tableClassName, kept[i])
        {
          assert columns[i] == ResolveColumns(tableClassName, tail)[i - 1];
          assert kept[i] == NonTransient(tail)[i - 1];
        }
      }
    }
  }

  /** The `@Column` name wins whenever the annotation is present, even when it is empty. */
  lemma ColumnNamePrecedence(p: PropertyDeclaration)
    ensures (exists k :: 0 <= k < |p.annotations| && p.annotations[k].ColumnAnnotation?) ==>
              exists k :: 0 <= k < |p.annotations| && p.annotations[k] == ColumnAnnotation(ColumnNameOf(p))
    ensures (forall k :: 0 <= k < |p.annotations| ==> !p.annotations[k].ColumnAnnotation?) ==> ColumnNameOf(p) == p.simpleName
    ensures |p.annotations| > 0 && p.annotations[0] == ColumnAnnotation("") ==> ColumnNameOf(p) == ""
  {
    FirstColumnAnnotationIsFirst(p.annotations);
  }

  // ---------------------------------------------------------------------------
  // Table resolution: `EntityVisitor.visitClassDeclaration`
  // ---------------------------------------------------------------------------

  /** The `TableDefinition` the visitor appends for one class declaration. */
  function ResolveTable(d: ClassDeclaration): (t: TableDefinition)
    ensures t.entityClassName == d.className && t.entityClassDeclaration == d && t.containingFile == d.containingFile
    ensures t.tableClassName.packageName == d.className.packageName
    ensures t.tableClassName.simpleName == d.className.simpleName + "s"
    ensures d.table.tableClassName != "" ==> t.tableName == d.table.tableClassName
    ensures d.table.tableClassName == "" ==> t.tableName == d.className.simpleName
    ensures t.alias == d.table.alias && t.catalog == d.table.catalog && t.schema == d.table.schema
    ensures t.columns == ResolveColumns(t.tableClassName, d.allProperties)
  {
    var tableClassName := TableClassName(d.className);
    var tableName := if d.table.tableClassName == "" then d.className.simpleName else d.table.tableClassName;
    TableDefinition(tableName, tableClassName, d.table.alias, d.table.catalog, d.table.schema,
                    d.className, ResolveColumns(tableClassName, d.allProperties), d.containingFile, d)
  }

  /** Every column of a resolved table reads through `<tableClassName>.<propertyName>`. */
  lemma ResolvedMembersBelongToTable(d: ClassDeclaration)
    ensures forall c :: c in ResolveTable(d).columns ==>
              c.property == MemberName(ResolveTable(d).tableClassName, c.PropertyName())
    ensures forall c :: c in ResolveTable(d).columns ==>
              c.property.CanonicalName() == ResolveTable(d).tableClassName.CanonicalName() + "." + c.propertyDeclaration.simpleName
    ensures ResolveTable(d).tableClassName != d.className
  {
    var t := ResolveTable(d);
    ResolveColumnsFollowProperties(t.tableClassName, d.allProperties);
    forall c | c in t.columns
      ensures c.property == MemberName(t.tableClassName, c.PropertyName())
      ensures c.PropertyName() == c.propertyDeclaration.simpleName
    {
      var i :| 0 <= i < |t.columns| && t.columns[i] == c;
      assert c == ColumnOf(t.tableClassName, NonTransient(d.allProperties)[i]);
    }
    assert |t.tableClassName.simpleName| != |d.className.simpleName|;
  }

  /** Every column of a resolved table comes from a non-transient property and carries that property's column name. */
  lemma ResolvedColumnNames(d: ClassDeclaration)
    ensures forall c :: c in ResolveTable(d).columns ==>
              && c.propertyDeclaration in d.allProperties && !IsTransient(c.propertyDeclaration)
              && c.columnName == ColumnNameOf(c.propertyDeclaration)
  {
    var t := ResolveTable(d);
    var kept := NonTransient(d.allProperties);
    ResolveColumnsFollowProperties(t.tableClassName, d.allProperties);
    forall c | c in t.columns
      ensures c.propertyDeclaration in d.allProperties && !IsTransient(c.propertyDeclaration)
      ensures c.columnName == ColumnNameOf(c.propertyDeclaration)
    {
      var i :| 0 <= i < |t.columns| && t.columns[i] == c;
      assert c == ColumnOf(t.tableClassName, kept[i]);
      assert kept[i] in kept;
    }
  }

  /** The list of table definitions, shared by every visitor of one `process` call. */
  class TableDefinitionList {
    var items: seq<TableDefinition>

    constructor ()
      ensures items == []
    {
      items := [];
    }

    method Add(t: TableDefinition)
      modifies this
      ensures items == old(items) + [t]
    {
      items := items + [t];
    }
  }

  class EntityVisitor {
    const tableDefinitions: TableDefinitionList

    constructor (tableDefinitions: TableDefinitionList)
      ensures this.tableDefinitions == tableDefinitions
    {
      this.tableDefinitions := tableDefinitions;
    }

    /** Resolves the table and its columns, then appends exactly one definition. */
    method VisitClassDeclaration(classDeclaration: ClassDeclaration)
      modifies tableDefinitions
      ensures tableDefinitions.items == old(tableDefinitions.items) + [ResolveTable(classDeclaration)]
    {
      tableDefinitions.Add(ResolveTable(classDeclaration));
    }
  }

  // ---------------------------------------------------------------------------
  // `KtormProcessor.process`
  // ---------------------------------------------------------------------------

  /** `symbols.filter { !it.validate() }.toList()`: what is handed back to KSP for the next round. */
  function Deferred(symbols: seq<Symbol>): (r: seq<Symbol>)
    ensures |r| <= |symbols|
    ensures forall s :: s in r <==> s in symbols && !s.Validate()
  {
    if symbols == [] then []
    else (if symbols[0].Validate() then [] else [symbols[0]]) + Deferred(symbols[1..])
  }

  /** The class declarations visited: the symbols that are class declarations and valid, in order. */
  function Visited(symbols: seq<Symbol>): (r: seq<ClassDeclaration>)
    ensures |r| <= |symbols|
  {
    if symbols == [] then []
    else
      var last := symbols[|symbols| - 1];
      var init := symbols[..|symbols| - 1];
      Visited(init) + (if last.ClassSymbol? && last.Validate() then [last.declaration] else [])
  }

  /** The visited declarations are exactly those of the valid class symbols. */
  lemma {:induction false} VisitedMembers(symbols: seq<Symbol>)
    ensures forall d :: d in Visited(symbols) <==> ClassSymbol(d, true) in symbols
  {
    if symbols != [] {
      var last := symbols[|symbols| - 1];
      var init := symbols[..|symbols| - 1];
      assert symbols == init + [last];
      VisitedMembers(init);
    }
  }

  /** Deferral keeps order: it distributes over concatenation. */
  lemma {:induction false} DeferredAppend(a: seq<Symbol>, b: seq<Symbol>)
    ensures Deferred(a + b) == Deferred(a) + Deferred(b)
  {
    if a == [] {
      assert a + b == b;
    } else {
      assert (a + b)[0] == a[0];
      assert (a + b)[1..] == a[1..] + b;
      DeferredAppend(a[1..], b);
    }
  }

  /** Visiting keeps order: it distributes over concatenation. */
  lemma {:induction false} VisitedAppend(a: seq<Symbol>, b: seq<Symbol>)
    ensures Visited(a + b) == Visited(a) + Visited(b)
  {
    if b == [] {
      assert a + b == a;
    } else {
      var b' := b[..|b| - 1];
      var last := b[|b| - 1];
      assert (a + b)[..|a + b| - 1] == a + b';
      assert (a + b)[|a + b| - 1] == last;
      VisitedAppend(a, b');
    }
  }

  /** No symbol is both handed back and visited; a valid symbol that is not a class is dropped. */
  lemma SymbolsPartition(symbols: seq<Symbol>, s: Symbol)
    requires s in symbols
    ensures s in Deferred(symbols) <==> !s.valid
    ensures (s.ClassSymbol? && s.declaration in Visited(symbols)) <== (s.ClassSymbol? && s.valid)
    ensures s.OtherSymbol? && s.valid ==> s !in Deferred(symbols)
  {
    VisitedMembers(symbols);
  }

  /** One table definition per visited declaration, in the same order. */
  function ResolvedTables(declarations: seq<ClassDeclaration>): (r: seq<TableDefinition>)
    ensures |r| == |declarations| && forall k :: 0 <= k < |declarations| ==> r[k] == ResolveTable(declarations[k])
  {
    seq(|declarations|, k requires 0 <= k < |declarations| => ResolveTable(declarations[k]))
  }

  lemma ResolvedTablesAppend(declarations: seq<ClassDeclaration>, d: ClassDeclaration)
    ensures ResolvedTables(declarations + [d]) == ResolvedTables(declarations) + [ResolveTable(d)]
  {
  }

  /** What one more symbol adds to the visited declarations. */
  lemma VisitedStep(symbols: seq<Symbol>, i: nat)
    requires i < |symbols|
    ensures Visited(symbols[..i + 1]) == Visited(symbols[..i])
              + (if symbols[i].ClassSymbol? && symbols[i].Validate() then [symbols[i].declaration] else [])
  {
    assert symbols[..i + 1][..i] == symbols[..i];
    assert symbols[..i + 1][i] == symbols[i];
  }

  /**
   * `process`: returns the symbols that failed validation and, in symbol order,
   * one table definition per valid class declaration.
   */
  method Process(symbols: seq<Symbol>) returns (deferred: seq<Symbol>, tableDefinitions: seq<TableDefinition>)
    ensures deferred == Deferred(symbols)
    ensures |tableDefinitions| == |Visited(symbols)|
    ensures forall i :: 0 <= i < |tableDefinitions| ==> tableDefinitions[i] == ResolveTable(Visited(symbols)[i])
  {
    var list := new TableDefinitionList();
    deferred := Deferred(symbols);
    var i := 0;
    while i < |symbols|
      invariant 0 <= i <= |symbols|
      invariant list.items == ResolvedTables(Visited(symbols[..i]))
    {
      var symbol := symbols[i];
      ghost var before := Visited(symbols[..i]);
      VisitedStep(symbols, i);
      if symbol.ClassSymbol? && symbol.Validate() {
        ghost var items := list.items;
        var visitor := new EntityVisitor(list);
        visitor.VisitClassDeclaration(symbol.declaration);
        assert list.items == items + [ResolveTable(symbol.declaration)];
        ResolvedTablesAppend(before, symbol.declaration);
        assert Visited(symbols[..i + 1]) == before + [symbol.declaration];
      } else {
        assert Visited(symbols[..i + 1]) == before;
      }
      assert list.items == ResolvedTables(Visited(symbols[..i + 1]));
      i := i + 1;
    }
    assert symbols[..i] == symbols;
    tableDefinitions := list.items;
  }
}
