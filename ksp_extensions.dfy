/**
 * `findSuperTypeReference`: a depth-first search of a class's supertype
 * hierarchy for the reference whose resolved class has a given qualified name.
 * The hierarchy is a finite tree of values, so it is acyclic by construction; a
 * class reachable along two paths appears once per path.
 */
module KspExtensions {
  import opened Wrappers

  /** A supertype reference as written in a declaration (`id` tells references apart), with what it resolves to. */
  datatype TypeReference = TypeReference(id: nat, declaration: Declaration)

  /** A resolved declaration: a class with its qualified name and supertypes, or anything else (a type alias, a type parameter). */
  datatype Declaration =
    | ClassDecl(qualifiedName: string, superTypes: seq<TypeReference>)
    | OtherDecl(name: string)

  /** The reference resolves to a class declaration with that qualified name. */
  predicate Matches(ref: TypeReference, name: string)
  {
    ref.declaration.ClassDecl? && ref.declaration.qualifiedName == name
  }

  /** The receiver of the extension function is a class declaration. */
  function FindSuperTypeReference(receiver: Declaration, name: string): (r: Option<TypeReference>)
    requires receiver.ClassDecl?
    ensures r.Some? ==> Matches(r.value, name)
  {
    FindIn(receiver.superTypes, name)
  }

  /** The `for` loop over `superTypes`, returning at the first hit. */
  function FindIn(superTypes: seq<TypeReference>, name: string): (r: Option<TypeReference>)
    ensures r.Some? ==> Matches(r.value, name)
    decreases superTypes
  {
    if superTypes == [] then None
    else
      var hit := FindAt(superTypes[0], name);
      if hit.Some? then hit else FindIn(superTypes[1..], name)
  }

  /** One iteration: match the supertype itself, then search inside it; non-class declarations are skipped. */
  function FindAt(superType: TypeReference, name: string): (r: Option<TypeReference>)
    ensures r.Some? ==> Matches(r.value, name)
    decreases superType
  {
    match superType.declaration
    case ClassDecl(qualifiedName, superTypes) =>
      if qualifiedName == name then Some(superType) else FindIn(superTypes, name)
    case OtherDecl(_) => None
  }

  // ---------------------------------------------------------------------------
  // Reference definitions: the preorder walk and the set of names in the hierarchy
  // ---------------------------------------------------------------------------

  /** All references of the hierarchy in depth-first preorder: a reference, then its subtree, then its siblings. */
  ghost function Preorder(superTypes: seq<TypeReference>): seq<TypeReference>
    decreases superTypes
  {
    if superTypes == [] then [] else PreorderAt(superTypes[0]) + Preorder(superTypes[1..])
  }

  ghost function PreorderAt(superType: TypeReference): seq<TypeReference>
    decreases superType
  {
    [superType] + match superType.declaration
      case ClassDecl(_, superTypes) => Preorder(superTypes)
      case OtherDecl(_) => []
  }

  /** The first reference of a walk that matches. */
  ghost function FirstMatch(walk: seq<TypeReference>, name: string): Option<TypeReference>
  {
    if walk == [] then None
    else if Matches(walk[0], name) then Some(walk[0])
    else FirstMatch(walk[1..], name)
  }

  /** Some class of the transitive hierarchy, reached through class declarations only, has that name. */
  ghost predicate InHierarchy(superTypes: seq<TypeReference>, name: string)
    decreases superTypes
  {
    exists i :: 0 <= i < |superTypes| && InHierarchyAt(superTypes[i], name)
  }

  ghost predicate InHierarchyAt(superType: TypeReference, name: string)
    decreases superType
  {
    match superType.declaration
    case ClassDecl(qualifiedName, superTypes) => qualifiedName == name || InHierarchy(superTypes, name)
    case OtherDecl(_) => false
  }

  lemma {:induction false} FirstMatchAppend(a: seq<TypeReference>, b: seq<TypeReference>, name: string)
    ensures FirstMatch(a + b, name) == if FirstMatch(a, name).Some? then FirstMatch(a, name) else FirstMatch(b, name)
  {
    if a == [] {
      assert a + b == b;
    } else {
      assert (a + b)[0] == a[0];
      assert (a + b)[1..] == a[1..] + b;
      FirstMatchAppend(a[1..], b, name);
    }
  }

  /** The search returns the first matching reference of the depth-first preorder walk. */
  lemma {:induction false} FindIsPreorderFirstMatch(superTypes: seq<TypeReference>, name: string)
    ensures FindIn(superTypes, name) == FirstMatch(Preorder(superTypes), name)
    decreases superTypes
  {
    if superTypes != [] {
      FindAtIsPreorderFirstMatch(superTypes[0], name);
      FindIsPreorderFirstMatch(superTypes[1..], name);
      FirstMatchAppend(PreorderAt(superTypes[0]), Preorder(superTypes[1..]), name);
    }
  }

  lemma {:induction false} FindAtIsPreorderFirstMatch(superType: TypeReference, name: string)
    ensures FindAt(superType, name) == FirstMatch(PreorderAt(superType), name)
    decreases superType
  {
    match superType.declaration
    case ClassDecl(qualifiedName, superTypes) =>
      var walk := PreorderAt(superType);
      assert walk == [superType] + Preorder(superTypes);
      assert walk[0] == superType && walk[1..] == Preorder(superTypes);
      FindIsPreorderFirstMatch(superTypes, name);
    case OtherDecl(_) =>
      var walk := PreorderAt(superType);
      assert walk == [superType] && walk[1..] == [];
  }

  /** The result is null exactly when no class of the hierarchy has that qualified name. */
  lemma {:induction false} FindNullIffAbsent(superTypes: seq<TypeReference>, name: string)
    ensures FindIn(superTypes, name).None? <==> !InHierarchy(superTypes, name)
    decreases superTypes
  {
    if superTypes != [] {
      FindAtNullIffAbsent(superTypes[0], name);
      FindNullIffAbsent(superTypes[1..], name);
      if InHierarchy(superTypes, name) {
        var i :| 0 <= i < |superTypes| && InHierarchyAt(superTypes[i], name);
        if i > 0 {
          assert superTypes[1..][i - 1] == superTypes[i];
        }
      }
      if InHierarchy(superTypes[1..], name) {
        var i :| 0 <= i < |superTypes[1..]| && InHierarchyAt(superTypes[1..][i], name);
        assert superTypes[i + 1] == superTypes[1..][i];
      }
    }
  }

  lemma {:induction false} FindAtNullIffAbsent(superType: TypeReference, name: string)
    ensures FindAt(superType, name).None? <==> !InHierarchyAt(superType, name)
    decreases superType
  {
    match superType.declaration
    case ClassDecl(qualifiedName, superTypes) =>
      FindNullIffAbsent(superTypes, name);
    case OtherDecl(_) =>
  }

  /** A direct supertype that matches, with nothing matching in the subtrees before it, is returned as that very reference. */
  lemma {:induction false} DirectMatchIsReturned(superTypes: seq<TypeReference>, name: string, i: nat)
    requires i < |superTypes| && Matches(superTypes[i], name)
    requires forall j :: 0 <= j < i ==> !InHierarchyAt(superTypes[j], name)
    ensures FindIn(superTypes, name) == Some(superTypes[i])
    decreases i
  {
    FindAtNullIffAbsent(superTypes[0], name);
    if i > 0 {
      forall j | 0 <= j < i - 1
        ensures !InHierarchyAt(superTypes[1..][j], name)
      {
        assert superTypes[1..][j] == superTypes[j + 1];
      }
      DirectMatchIsReturned(superTypes[1..], name, i - 1);
    }
  }

  /** A supertype that is not a class declaration is neither matched nor searched. */
  lemma NonClassSupertypeIsSkipped(id: nat, otherName: string, rest: seq<TypeReference>, name: string)
    ensures FindIn([TypeReference(id, OtherDecl(otherName))] + rest, name) == FindIn(rest, name)
  {
    var superTypes := [TypeReference(id, OtherDecl(otherName))] + rest;
    assert superTypes[1..] == rest;
  }

  /** The reference found can come from an ancestor's supertype list: `A : B`, `B : C`, searching `A` for `C`. */
  lemma AncestorReferenceCanBeReturned()
    ensures var c := TypeReference(2, ClassDecl("p.C", []));
            var b := TypeReference(1, ClassDecl("p.B", [c]));
            var a := ClassDecl("p.A", [b]);
            FindSuperTypeReference(a, "p.C") == Some(c) && c !in a.superTypes
  {
    var c := TypeReference(2, ClassDecl("p.C", []));
    var b := TypeReference(1, ClassDecl("p.B", [c]));
    assert [b][1..] == [];
    assert [c][1..] == [];
  }
}
