/**
 * The introspection that dependency injection performs on a bean: the
 * bean types reached from its class (skipping the reserved types), its
 * single scope, its qualifiers and EL name, the restrictions on its
 * stereotypes, and the defaults filled in afterwards.
 *
 * Reflection is given as functions: how a Java type becomes a base type,
 * the generic superclass and interfaces of a class, and the meta
 * annotations of an annotation type.
 */
module BeanIntrospection {
  import opened Wrappers

  // Types.

  /** A Java type: a class, or a parameterized type over a raw class. */
  datatype JavaType = ClassType(name: string) | ParameterizedType(raw: string, args: seq<JavaType>)

  /** The type parameters in scope while the hierarchy is walked. */
  type ParamMap = map<string, JavaType>

  /** A resolved base type: the Java type it stands for, its raw class and its parameter map. */
  datatype BaseType = BaseType(toType: JavaType, rawClass: string, paramMap: ParamMap)

  /** The reflection the type walk depends on. */
  datatype Reflection = Reflection(
    create: (JavaType, ParamMap) -> Option<BaseType>,  // `BaseType.create`
    superclassOf: string -> Option<JavaType>,          // `getGenericSuperclass`
    interfacesOf: string -> seq<JavaType>)             // `getGenericInterfaces`

  /**
   * The reserved types: `Closeable`, `Serializable`, `Cloneable`, `Object`
   * and `Comparable`.  The set holds classes, so only the raw classes
   * themselves are reserved, not a parameterized `Comparable<T>`.
   */
  predicate IsReserved(t: JavaType)
  {
    t.ClassType? &&
    t.name in {"java.io.Closeable", "java.io.Serializable", "java.lang.Cloneable", "java.lang.Object", "java.lang.Comparable"}
  }

  predicate Distinct<T(==)>(s: seq<T>)
  {
    forall i, j :: 0 <= i < j < |s| ==> s[i] != s[j]
  }

  function Elems<T>(s: seq<T>): set<T>
  {
    set x | x in s
  }

  /** A base type created from a type that is not reserved. */
  ghost predicate Admitted(b: BaseType, r: Reflection)
  {
    exists t: JavaType, pm: ParamMap :: !IsReserved(t) && r.create(t, pm) == Some(b)
  }

  /** The base types from index `n` on were all admitted. */
  ghost predicate AdmittedSince(s: seq<BaseType>, n: nat, r: Reflection)
  {
    forall i :: n <= i < |s| ==> Admitted(s[i], r)
  }

  lemma AdmittedOne(s: seq<BaseType>, t: JavaType, pm: ParamMap, r: Reflection)
    requires !IsReserved(t) && r.create(t, pm).Some?
    ensures AdmittedSince(s + [r.create(t, pm).value], |s|, r)
  {
    assert (s + [r.create(t, pm).value])[|s|] == r.create(t, pm).value;
  }

  lemma AdmittedChain(s0: seq<BaseType>, s1: seq<BaseType>, s2: seq<BaseType>, r: Reflection)
    requires s0 <= s1 <= s2
    requires AdmittedSince(s1, |s0|, r) && AdmittedSince(s2, |s1|, r)
    ensures AdmittedSince(s2, |s0|, r)
  {
    forall i | |s0| <= i < |s2| ensures Admitted(s2[i], r) {
      if i < |s1| {
        assert s2[i] == s1[i];
      }
    }
  }

  /** Adding an unseen member of the universe leaves one fewer unseen. */
  lemma AddedShrinks(u: set<BaseType>, s: seq<BaseType>, b: BaseType)
    requires b in u && b !in s
    ensures |u - Elems(s + [b])| < |u - Elems(s)|
  {
    assert Elems(s + [b]) == Elems(s) + {b};
    assert u - Elems(s + [b]) == (u - Elems(s)) - {b};
  }

  /** Every base type reflection can create lies in `universe`: the classes are finitely many. */
  ghost predicate Finite(r: Reflection, universe: set<BaseType>)
  {
    forall t: JavaType, pm: ParamMap :: r.create(t, pm).Some? ==> r.create(t, pm).value in universe
  }

  lemma SubsetCard<T>(a: set<T>, b: set<T>)
    requires a <= b
    ensures |a| <= |b|
    decreases |a|
  {
    if a != {} {
      var x :| x in a;
      SubsetCard(a - {x}, b - {x});
    }
  }

  /** Growing a set of seen types never lets the count of unseen ones grow. */
  lemma UnseenShrinks<T>(u: set<T>, a: set<T>, b: set<T>)
    requires a <= b
    ensures |u - b| <= |u - a|
  {
    SubsetCard(u - b, u - a);
  }

  lemma PrefixElems<T>(s: seq<T>, s': seq<T>)
    requires s <= s'
    ensures Elems(s) <= Elems(s')
  {
    forall x | x in Elems(s) ensures x in Elems(s') {
      var k :| 0 <= k < |s| && s[k] == x;
      assert s'[k] == x;
    }
  }

  // Annotations.

  /** An annotation: `@Named` with its value, or an annotation named by its type. */
  datatype AnnotationValue = Named(value: string) | Ann(annType: string)

  /**
   * Every annotation of type `Named` is written `Named(value)`, so testing
   * `Named?` is testing whether the annotation type is `Named`.
   */
  type Annotation = a: AnnotationValue | a.Named? || a.annType != NamedType witness Named([])

  const NamedType := "javax.inject.Named"
  const CurrentType := "javax.enterprise.inject.Current"
  const DependentType := "javax.enterprise.context.Dependent"

  /** The `@Current` qualifier. */
  const Current := Ann(CurrentType)

  function TypeOf(a: Annotation): string
  {
    if a.Named? then NamedType else a.annType
  }

  /** What reflection and the bean manager say about annotation types. */
  datatype AnnotationMeta = AnnotationMeta(
    isScope: string -> bool,                      // a scope type
    isQualifier: string -> bool,                  // a qualifier type
    isStereotype: string -> bool,                 // annotated with `@Stereotype`
    declaredAnnotations: string -> seq<Annotation>)

  datatype BeanError =
    | ScopeConflict(first: string, second: string)
    | EmptySimpleName                              // `charAt(0)` of the empty simple name fails
    | NamedStereotypeValue                         // `@Named` with a value on a stereotype
    | QualifierOnStereotype(ann: Annotation, stereotype: Annotation)

  // The default name.

  /** `Character.toLowerCase`, for the ASCII letters. */
  function ToLower(c: char): char
  {
    if 'A' <= c <= 'Z' then (c as int + 32) as char else c
  }

  /** `getDefaultName`: the simple name of the class with its first character in lower case. */
  function DefaultName(simpleName: string): Result<string, BeanError>
  {
    if simpleName == [] then Err(EmptySimpleName)
    else Ok([ToLower(simpleName[0])] + simpleName[1..])
  }

  /**
   * The default name has the length of the simple name and differs from it
   * at most in the first character, which is lowered; it is never empty.
   */
  lemma DefaultNameShape(simpleName: string)
    ensures DefaultName(simpleName).Err? <==> simpleName == []
    ensures DefaultName(simpleName).Ok? ==>
      var n := DefaultName(simpleName).value;
      && |n| == |simpleName| && n != []
      && n[0] == ToLower(simpleName[0])
      && forall i :: 1 <= i < |n| ==> n[i] == simpleName[i]
  {
  }

  /** Lowering is idempotent, so a default name is its own default name. */
  lemma DefaultNameIdempotent(simpleName: string)
    requires simpleName != []
    ensures DefaultName(DefaultName(simpleName).value) == DefaultName(simpleName)
  {
    var n := DefaultName(simpleName).value;
    assert n[1..] == simpleName[1..];
  }

  // The scans over the annotations, as specifications of the loops.

  /** What `introspectScope` does with the scope, and its error: a second, different scope conflicts. */
  function ScopeScan(anns: seq<Annotation>, meta: AnnotationMeta, scope: Option<string>): (r: (Option<string>, Option<BeanError>))
    decreases |anns|
  {
    if anns == [] then (scope, None)
    else
      var before := ScopeScan(anns[..|anns| - 1], meta, scope);
      var t := TypeOf(anns[|anns| - 1]);
      if before.1.Some? || !meta.isScope(t) then before
      else if before.0.Some? && before.0.value != t then (before.0, Some(ScopeConflict(before.0.value, t)))
      else (Some(t), None)
  }

  /** The scope annotations agree with each other and with the scope already set. */
  predicate ScopesAgree(anns: seq<Annotation>, meta: AnnotationMeta, scope: Option<string>)
  {
    forall i :: 0 <= i < |anns| && meta.isScope(TypeOf(anns[i])) ==>
      (scope.Some? ==> TypeOf(anns[i]) == scope.value) &&
      forall j :: 0 <= j < |anns| && meta.isScope(TypeOf(anns[j])) ==> TypeOf(anns[i]) == TypeOf(anns[j])
  }

  /**
   * The scope scan fails exactly when two different scopes are present
   * (counting a scope already set); on success the scope is the one
   * present, or the earlier one when there is no scope annotation.
   */
  lemma {:induction false} ScopeScanMeaning(anns: seq<Annotation>, meta: AnnotationMeta, scope: Option<string>)
    ensures ScopeScan(anns, meta, scope).1.None? <==> ScopesAgree(anns, meta, scope)
    ensures ScopeScan(anns, meta, scope).1.None? ==>
      var s := ScopeScan(anns, meta, scope).0;
      && (s.None? <==> scope.None? && forall i :: 0 <= i < |anns| ==> !meta.isScope(TypeOf(anns[i])))
      && (forall i :: 0 <= i < |anns| && meta.isScope(TypeOf(anns[i])) ==> s == Some(TypeOf(anns[i])))
      && (scope.Some? ==> s == scope)
    decreases |anns|
  {
    if anns != [] {
      var front := anns[..|anns| - 1];
      var last := anns[|anns| - 1];
      ScopeScanMeaning(front, meta, scope);
      assert forall i :: 0 <= i < |front| ==> front[i] == anns[i];
      var before := ScopeScan(front, meta, scope);
      if before.1.None? && meta.isScope(TypeOf(last)) && before.0.Some? && before.0.value != TypeOf(last) {
        if scope.Some? {
          assert !ScopesAgree(anns, meta, scope) by {
            assert scope.value != TypeOf(anns[|anns| - 1]);
          }
        } else {
          var i :| 0 <= i < |front| && meta.isScope(TypeOf(front[i]));
          assert !ScopesAgree(anns, meta, scope) by {
            assert TypeOf(anns[i]) != TypeOf(anns[|anns| - 1]);
          }
        }
      }
    }
  }

  /** An error of the scope scan on a prefix is its error on the whole. */
  lemma {:induction false} ScopeScanSticks(anns: seq<Annotation>, meta: AnnotationMeta, scope: Option<string>, k: nat)
    requires k <= |anns| && ScopeScan(anns[..k], meta, scope).1.Some?
    ensures ScopeScan(anns, meta, scope) == ScopeScan(anns[..k], meta, scope)
    decreases |anns| - k
  {
    if k < |anns| {
      var front := anns[..|anns| - 1];
      assert front[..k] == anns[..k];
      ScopeScanSticks(front, meta, scope, k);
    } else {
      assert anns[..k] == anns;
    }
  }

  /** A qualifier as `introspectQualifiers` records it: `@Named("")` takes the default name. */
  function ResolveQualifier(a: Annotation, simpleName: string): Result<Annotation, BeanError>
  {
    if a.Named? && a.value == [] then
      match DefaultName(simpleName)
      case Ok(n) => Ok(Named(n))
      case Err(e) => Err(e)
    else Ok(a)
  }

  /** What `introspectQualifiers` appends, and its error. */
  function QualifierScan(anns: seq<Annotation>, meta: AnnotationMeta, simpleName: string, quals: seq<Annotation>): (seq<Annotation>, Option<BeanError>)
    decreases |anns|
  {
    if anns == [] then (quals, None)
    else
      var before := QualifierScan(anns[..|anns| - 1], meta, simpleName, quals);
      var a := anns[|anns| - 1];
      if before.1.Some? || !meta.isQualifier(TypeOf(a)) then before
      else match ResolveQualifier(a, simpleName)
        case Ok(q) => (before.0 + [q], None)
        case Err(e) => (before.0, Some(e))
  }

  /**
   * The qualifier scan only appends qualifiers, none of them a `@Named`
   * without a value; on success every qualifier annotation is recorded as
   * it resolves; it fails exactly when the simple name is empty and some
   * qualifier annotation is `@Named("")`.
   */
  lemma {:induction false} QualifierScanMeaning(anns: seq<Annotation>, meta: AnnotationMeta, simpleName: string, quals: seq<Annotation>)
    ensures var r := QualifierScan(anns, meta, simpleName, quals);
      && quals <= r.0
      && (r.1.Some? ==> r.1.value == EmptySimpleName && simpleName == [])
      && (forall i :: |quals| <= i < |r.0| ==> meta.isQualifier(TypeOf(r.0[i])))
      && (forall i :: |quals| <= i < |r.0| ==> r.0[i].Named? ==> r.0[i].value != [])
    ensures simpleName != [] ==> QualifierScan(anns, meta, simpleName, quals).1.None?
    ensures var r := QualifierScan(anns, meta, simpleName, quals);
      r.1.None? ==>
        forall i :: 0 <= i < |anns| && meta.isQualifier(TypeOf(anns[i])) ==>
          ResolveQualifier(anns[i], simpleName).Ok? && ResolveQualifier(anns[i], simpleName).value in r.0
    ensures QualifierScan(anns, meta, simpleName, quals).1.Some? <==>
      simpleName == [] && exists i :: 0 <= i < |anns| && meta.isQualifier(TypeOf(anns[i])) && anns[i] == Named([])
    decreases |anns|
  {
    if anns != [] {
      var front := anns[..|anns| - 1];
      QualifierScanMeaning(front, meta, simpleName, quals);
      var before := QualifierScan(front, meta, simpleName, quals);
      var a := anns[|anns| - 1];
      assert forall i :: 0 <= i < |front| ==> front[i] == anns[i];
      if before.1.None? && meta.isQualifier(TypeOf(a)) {
        if a.Named? && a.value == [] && simpleName != [] {
          DefaultNameShape(simpleName);
        }
      }
      if before.1.Some? {
        var i :| 0 <= i < |front| && meta.isQualifier(TypeOf(front[i])) && front[i] == Named([]);
        assert anns[i] == Named([]);
      }
    }
  }

  /** An error of the qualifier scan on a prefix is its error on the whole. */
  lemma {:induction false} QualifierScanSticks(anns: seq<Annotation>, meta: AnnotationMeta, simpleName: string, quals: seq<Annotation>, k: nat)
    requires k <= |anns| && QualifierScan(anns[..k], meta, simpleName, quals).1.Some?
    ensures QualifierScan(anns, meta, simpleName, quals) == QualifierScan(anns[..k], meta, simpleName, quals)
    decreases |anns| - k
  {
    if k < |anns| {
      var front := anns[..|anns| - 1];
      assert front[..k] == anns[..k];
      QualifierScanSticks(front, meta, simpleName, quals, k);
    } else {
      assert anns[..k] == anns;
    }
  }

  /** The first `@Named` annotation: `getAnnotation(Named.class)`. */
  function NamedValue(anns: seq<Annotation>): (r: Option<string>)
    ensures r.Some? <==> exists i :: 0 <= i < |anns| && anns[i].Named?
    ensures r.Some? ==> exists i :: 0 <= i < |anns| && anns[i] == Named(r.value) && forall j :: 0 <= j < i ==> !anns[j].Named?
    decreases |anns|
  {
    if anns == [] then None
    else if anns[0].Named? then Some(anns[0].value)
    else
      var r := NamedValue(anns[1..]);
      assert forall m :: 1 <= m < |anns| ==> anns[m] == anns[1..][m - 1];
      r
  }

  /** The part of the bean that the stereotype scan changes. */
  datatype StereoState = StereoState(scope: Option<string>, name: Option<string>, stereotypes: seq<Annotation>)

  /**
   * One annotation declared on the type of an annotation of the bean: it
   * provides the scope when none is set; the first `@Named` sets the name
   * to the empty text and must not carry a value; no other qualifier may
   * appear.
   */
  function DeclaredStep(ann: Annotation, stereotype: Annotation, meta: AnnotationMeta, s: StereoState): (StereoState, Option<BeanError>)
  {
    var annType := TypeOf(ann);
    var s1 := if s.scope.None? && meta.isScope(annType) then s.(scope := Some(annType)) else s;
    if ann.Named? && s1.name.None? then
      var s2 := s1.(name := Some([]));
      if ann.value != [] then (s2, Some(NamedStereotypeValue)) else (s2, None)
    else if meta.isQualifier(annType) && !ann.Named? then (s1, Some(QualifierOnStereotype(ann, stereotype)))
    else (s1, None)
  }

  /** The inner loop of `introspectStereotypes` over the declared annotations of one annotation type. */
  function DeclaredScan(decls: seq<Annotation>, stereotype: Annotation, meta: AnnotationMeta, s: StereoState): (StereoState, Option<BeanError>)
    decreases |decls|
  {
    if decls == [] then (s, None)
    else
      var before := DeclaredScan(decls[..|decls| - 1], stereotype, meta, s);
      if before.1.Some? then before
      else DeclaredStep(decls[|decls| - 1], stereotype, meta, before.0)
  }

  /** One annotation of the bean: recorded when it is a stereotype, then its declared annotations scanned. */
  function StereotypeStep(a: Annotation, meta: AnnotationMeta, s: StereoState): (StereoState, Option<BeanError>)
  {
    var s1 := if meta.isStereotype(TypeOf(a)) then s.(stereotypes := s.stereotypes + [a]) else s;
    DeclaredScan(meta.declaredAnnotations(TypeOf(a)), a, meta, s1)
  }

  /** `introspectStereotypes` over the bean's annotations. */
  function StereotypeScan(anns: seq<Annotation>, meta: AnnotationMeta, s: StereoState): (StereoState, Option<BeanError>)
    decreases |anns|
  {
    if anns == [] then (s, None)
    else
      var before := StereotypeScan(anns[..|anns| - 1], meta, s);
      if before.1.Some? then before
      else StereotypeStep(anns[|anns| - 1], meta, before.0)
  }

  /** No annotation declared on the type is a qualifier other than `@Named`. */
  predicate NoForeignQualifier(decls: seq<Annotation>, meta: AnnotationMeta)
  {
    forall i :: 0 <= i < |decls| ==> !(meta.isQualifier(TypeOf(decls[i])) && !decls[i].Named?)
  }

  /** The declared scan leaves the stereotypes alone, and keeps a scope or a name already set. */
  lemma {:induction false} DeclaredScanKeeps(decls: seq<Annotation>, stereotype: Annotation, meta: AnnotationMeta, s: StereoState)
    ensures var r := DeclaredScan(decls, stereotype, meta, s);
      && r.0.stereotypes == s.stereotypes
      && (s.scope.Some? ==> r.0.scope == s.scope)
      && (s.name.Some? ==> r.0.name == s.name)
    decreases |decls|
  {
    if decls != [] {
      DeclaredScanKeeps(decls[..|decls| - 1], stereotype, meta, s);
    }
  }

  /** A successful declared scan saw no qualifier other than `@Named`. */
  lemma {:induction false} DeclaredScanQualifiers(decls: seq<Annotation>, stereotype: Annotation, meta: AnnotationMeta, s: StereoState)
    ensures DeclaredScan(decls, stereotype, meta, s).1.None? ==> NoForeignQualifier(decls, meta)
    decreases |decls|
  {
    if decls != [] {
      var front := decls[..|decls| - 1];
      DeclaredScanQualifiers(front, stereotype, meta, s);
      assert forall i :: 0 <= i < |front| ==> front[i] == decls[i];
    }
  }

  /**
   * When the bean has no name, a successful declared scan takes the name
   * of the first `@Named` it sees, which must be empty.
   */
  lemma {:induction false} DeclaredScanNamed(decls: seq<Annotation>, stereotype: Annotation, meta: AnnotationMeta, s: StereoState)
    requires s.name.None?
    ensures var r := DeclaredScan(decls, stereotype, meta, s);
      r.1.None? ==> r.0.name == NamedValue(decls) && (NamedValue(decls).Some? ==> NamedValue(decls) == Some([]))
    decreases |decls|
  {
    if decls != [] {
      var front := decls[..|decls| - 1];
      var last := decls[|decls| - 1];
      DeclaredScanNamed(front, stereotype, meta, s);
      assert front + [last] == decls;
      NamedValueSnoc(front, last);
      var before := DeclaredScan(front, stereotype, meta, s);
      if before.1.None? {
        DeclaredStepName(last, stereotype, meta, before.0);
      }
    }
  }

  /** How one declared annotation changes the name, and when it fails for it. */
  lemma DeclaredStepName(ann: Annotation, stereotype: Annotation, meta: AnnotationMeta, s: StereoState)
    ensures var r := DeclaredStep(ann, stereotype, meta, s);
      && r.0.name == (if ann.Named? && s.name.None? then Some([]) else s.name)
      && (ann.Named? && s.name.None? && ann.value != [] ==> r.1.Some?)
  {
  }

  /** An error of the declared scan on a prefix is its error on the whole. */
  lemma {:induction false} DeclaredScanSticks(decls: seq<Annotation>, stereotype: Annotation, meta: AnnotationMeta, s: StereoState, k: nat)
    requires k <= |decls| && DeclaredScan(decls[..k], stereotype, meta, s).1.Some?
    ensures DeclaredScan(decls, stereotype, meta, s) == DeclaredScan(decls[..k], stereotype, meta, s)
    decreases |decls| - k
  {
    if k < |decls| {
      var front := decls[..|decls| - 1];
      assert front[..k] == decls[..k];
      DeclaredScanSticks(front, stereotype, meta, s, k);
    } else {
      assert decls[..k] == decls;
    }
  }

  /** An error of the stereotype scan on a prefix is its error on the whole. */
  lemma {:induction false} StereotypeScanSticks(anns: seq<Annotation>, meta: AnnotationMeta, s: StereoState, k: nat)
    requires k <= |anns| && StereotypeScan(anns[..k], meta, s).1.Some?
    ensures StereotypeScan(anns, meta, s) == StereotypeScan(anns[..k], meta, s)
    decreases |anns| - k
  {
    if k < |anns| {
      var front := anns[..|anns| - 1];
      assert front[..k] == anns[..k];
      StereotypeScanSticks(front, meta, s, k);
    } else {
      assert anns[..k] == anns;
    }
  }

  lemma {:induction false} NamedValueSnoc(front: seq<Annotation>, last: Annotation)
    ensures NamedValue(front + [last]) == if NamedValue(front).Some? then NamedValue(front) else if last.Named? then Some(last.value) else None
    decreases |front|
  {
    if front == [] {
      assert front + [last] == [last];
      assert [last][1..] == [];
    } else {
      assert (front + [last])[0] == front[0];
      assert (front + [last])[1..] == front[1..] + [last];
      NamedValueSnoc(front[1..], last);
    }
  }

  /**
   * After the stereotype scan the stereotypes are the earlier ones followed
   * by stereotype annotations, and on success every stereotype annotation
   * of the bean is among them; a scope that was set is kept, and so is a
   * name.
   */
  lemma {:induction false} StereotypeScanKeeps(anns: seq<Annotation>, meta: AnnotationMeta, s: StereoState)
    ensures var r := StereotypeScan(anns, meta, s);
      && s.stereotypes <= r.0.stereotypes
      && (forall i :: |s.stereotypes| <= i < |r.0.stereotypes| ==> meta.isStereotype(TypeOf(r.0.stereotypes[i])))
      && (s.scope.Some? ==> r.0.scope == s.scope)
      && (s.name.Some? ==> r.0.name == s.name)
    ensures var r := StereotypeScan(anns, meta, s);
      r.1.None? ==> forall i :: 0 <= i < |anns| && meta.isStereotype(TypeOf(anns[i])) ==> anns[i] in r.0.stereotypes
    decreases |anns|
  {
    if anns != [] {
      var front := anns[..|anns| - 1];
      assert forall i :: 0 <= i < |front| ==> front[i] == anns[i];
      StereotypeScanKeeps(front, meta, s);
      var before := StereotypeScan(front, meta, s);
      if before.1.None? {
        var a := anns[|anns| - 1];
        var s1 := if meta.isStereotype(TypeOf(a)) then before.0.(stereotypes := before.0.stereotypes + [a]) else before.0;
        DeclaredScanKeeps(meta.declaredAnnotations(TypeOf(a)), a, meta, s1);
      }
    }
  }

  /**
   * The stereotype restrictions: a successful stereotype scan saw, on every
   * annotation of the bean, no declared qualifier other than `@Named`.
   */
  lemma {:induction false} StereotypeScanRejectsQualifiers(anns: seq<Annotation>, meta: AnnotationMeta, s: StereoState)
    ensures StereotypeScan(anns, meta, s).1.None? ==>
      forall i :: 0 <= i < |anns| ==> NoForeignQualifier(meta.declaredAnnotations(TypeOf(anns[i])), meta)
    decreases |anns|
  {
    if anns != [] {
      var front := anns[..|anns| - 1];
      StereotypeScanRejectsQualifiers(front, meta, s);
      assert forall i :: 0 <= i < |front| ==> front[i] == anns[i];
      var before := StereotypeScan(front, meta, s);
      if before.1.None? {
        var a := anns[|anns| - 1];
        var s1 := if meta.isStereotype(TypeOf(a)) then before.0.(stereotypes := before.0.stereotypes + [a]) else before.0;
        DeclaredScanQualifiers(meta.declaredAnnotations(TypeOf(a)), a, meta, s1);
      }
    }
  }

  // The defaults.

  /** The part of the bean that `introspectDefault` changes. */
  datatype Defaults = Defaults(qualifiers: seq<Annotation>, scope: Option<string>, name: Option<string>)

  /**
   * `introspectDefault`: `@Current` when there is no qualifier, `@Dependent`
   * when there is no scope, and the default name for a name that is empty.
   */
  function ApplyDefaults(d: Defaults, simpleName: string): (Defaults, Option<BeanError>)
  {
    var quals := if |d.qualifiers| == 0 then d.qualifiers + [Current] else d.qualifiers;
    var scope := if d.scope.None? then Some(DependentType) else d.scope;
    var d1 := Defaults(quals, scope, d.name);
    if d.name == Some([]) then
      match DefaultName(simpleName)
      case Ok(n) => (d1.(name := Some(n)), None)
      case Err(e) => (d1, Some(e))
    else (d1, None)
  }

  /**
   * After the defaults there is a qualifier and a scope, the qualifiers set
   * before are kept, and on success the name is not empty; applying the
   * defaults twice gives what applying them once gives.
   */
  lemma ApplyDefaultsMeaning(d: Defaults, simpleName: string)
    ensures var r := ApplyDefaults(d, simpleName);
      && |r.0.qualifiers| > 0 && r.0.scope.Some?
      && (|d.qualifiers| > 0 ==> r.0.qualifiers == d.qualifiers)
      && (|d.qualifiers| == 0 ==> r.0.qualifiers == [Current])
      && (d.scope.Some? ==> r.0.scope == d.scope)
      && (d.scope.None? ==> r.0.scope == Some(DependentType))
      && (r.1.None? ==> r.0.name != Some([]))
      && (r.1.Some? <==> d.name == Some([]) && simpleName == [])
    ensures d.name == Some([]) && simpleName != [] ==>
      ApplyDefaults(d, simpleName).0.name == Some(DefaultName(simpleName).value)
    ensures d.name != Some([]) ==>
      ApplyDefaults(d, simpleName).0.name == d.name && ApplyDefaults(d, simpleName).1.None?
    ensures ApplyDefaults(ApplyDefaults(d, simpleName).0, simpleName) == ApplyDefaults(d, simpleName)
  {
    if d.name == Some([]) && simpleName != [] {
      DefaultNameShape(simpleName);
    }
  }

  /** `getQualifierArray`: the qualifiers in order, or `@Current` alone when there are none. */
  function QualifierArray(quals: seq<Annotation>): (r: seq<Annotation>)
    ensures |r| > 0
  {
    if |quals| == 0 then [Current] else quals
  }

  /** After the defaults the qualifier array is exactly the qualifier list. */
  lemma QualifierArrayAfterDefaults(d: Defaults, simpleName: string)
    ensures QualifierArray(ApplyDefaults(d, simpleName).0.qualifiers) == ApplyDefaults(d, simpleName).0.qualifiers
    ensures |d.qualifiers| == 0 ==> QualifierArray(d.qualifiers) == ApplyDefaults(d, simpleName).0.qualifiers
  {
  }

  /** The part of the bean that `introspect(annotated)` changes. */
  datatype AnnotatedState = AnnotatedState(
    qualifiers: seq<Annotation>, scope: Option<string>, name: Option<string>, stereotypes: seq<Annotation>)

  /**
   * `introspect(annotated)`: the scope, qualifier, name and stereotype scans
   * and then the defaults, each on the state the one before left.  The first
   * error stops the chain; what the steps before it did is kept.
   */
  function IntrospectAnnotated(anns: seq<Annotation>, meta: AnnotationMeta, simpleName: string, s: AnnotatedState): (AnnotatedState, Option<BeanError>)
  {
    var sc := ScopeScan(anns, meta, s.scope);
    var s1 := s.(scope := sc.0);
    if sc.1.Some? then (s1, sc.1)
    else
      var qs := QualifierScan(anns, meta, simpleName, s1.qualifiers);
      var s2 := s1.(qualifiers := qs.0);
      if qs.1.Some? then (s2, qs.1)
      else
        var s3 := s2.(name := if NamedValue(anns).Some? then NamedValue(anns) else s2.name);
        var st := StereotypeScan(anns, meta, StereoState(s3.scope, s3.name, s3.stereotypes));
        var s4 := s3.(scope := st.0.scope, name := st.0.name, stereotypes := st.0.stereotypes);
        if st.1.Some? then (s4, st.1)
        else
          var df := ApplyDefaults(Defaults(s4.qualifiers, s4.scope, s4.name), simpleName);
          (s4.(qualifiers := df.0.qualifiers, scope := df.0.scope, name := df.0.name), df.1)
  }

  /**
   * A successful introspection leaves a qualifier, a scope and a name that
   * is not empty, if there is one; the qualifier array is the qualifier
   * list; the bean's scope annotations agree with each other and with the
   * scope set before; and no annotation type declares a foreign qualifier.
   */
  lemma IntrospectAnnotatedMeaning(anns: seq<Annotation>, meta: AnnotationMeta, simpleName: string, s: AnnotatedState)
    ensures var r := IntrospectAnnotated(anns, meta, simpleName, s);
      r.1.None? ==>
        && |r.0.qualifiers| > 0 && r.0.scope.Some? && r.0.name != Some([])
        && QualifierArray(r.0.qualifiers) == r.0.qualifiers
        && ScopesAgree(anns, meta, s.scope)
        && forall i :: 0 <= i < |anns| ==> NoForeignQualifier(meta.declaredAnnotations(TypeOf(anns[i])), meta)
  {
    ScopeScanMeaning(anns, meta, s.scope);
    var sc := ScopeScan(anns, meta, s.scope);
    var qs := QualifierScan(anns, meta, simpleName, s.qualifiers);
    var name3 := if NamedValue(anns).Some? then NamedValue(anns) else s.name;
    var st0 := StereoState(sc.0, name3, s.stereotypes);
    StereotypeScanRejectsQualifiers(anns, meta, st0);
    var st := StereotypeScan(anns, meta, st0);
    var d := Defaults(qs.0, st.0.scope, st.0.name);
    ApplyDefaultsMeaning(d, simpleName);
    QualifierArrayAfterDefaults(d, simpleName);
  }

  // The bean.

  class IntrospectedBean {
    const simpleName: string          // `getTargetSimpleName()`
    var types: seq<BaseType>          // `_types`, in insertion order
    var typeClasses: seq<JavaType>    // `_typeClasses`, in insertion order
    var qualifiers: seq<Annotation>
    var scope: Option<string>
    var stereotypes: seq<Annotation>
    var name: Option<string>
    var passivationId: Option<string>

    /** The insertion-ordered sets hold no duplicates. */
    predicate Valid()
      reads this
    {
      Distinct(types) && Distinct(typeClasses)
    }

    constructor (simpleName: string)
      ensures this.simpleName == simpleName && Valid()
      ensures types == [] && typeClasses == [] && qualifiers == [] && stereotypes == []
      ensures scope == None && name == None && passivationId == None
    {
      this.simpleName := simpleName;
      types := [];
      typeClasses := [];
      qualifiers := [];
      scope := None;
      stereotypes := [];
      name := None;
      passivationId := None;
    }

    /**
     * `addType`: a type that creates no base type, or one already present,
     * adds nothing and answers null; otherwise the base type is appended to
     * the types, and its Java type to the type classes unless present.
     */
    method AddType(t: JavaType, pm: ParamMap, r: Reflection) returns (b: Option<BaseType>)
      requires Valid()
      modifies this
      ensures Valid()
      ensures b.None? <==> r.create(t, pm).None? || r.create(t, pm).value in old(types)
      ensures b.None? ==> types == old(types) && typeClasses == old(typeClasses)
      ensures b.Some? ==> b == r.create(t, pm) && types == old(types) + [b.value]
      ensures b.Some? ==> typeClasses == old(typeClasses) + (if b.value.toType in old(typeClasses) then [] else [b.value.toType])
      ensures qualifiers == old(qualifiers) && scope == old(scope) && stereotypes == old(stereotypes)
      ensures name == old(name) && passivationId == old(passivationId)
    {
      var baseType := r.create(t, pm);
      if baseType.None? {
        return None;
      }
      if baseType.value in types {
        return None;
      }
      types := types + [baseType.value];
      if baseType.value.toType !in typeClasses {
        typeClasses := typeClasses + [baseType.value.toType];
      }
      return baseType;
    }

    /**
     * `introspectTypes`: from a type that is neither null nor reserved, adds
     * its base type and walks on to the generic superclass and interfaces
     * of its raw class; a type whose base type is known ends the walk.
     * The types only grow, and only by base types of types that are not
     * reserved.
     */
    method IntrospectTypes(t: Option<JavaType>, pm: ParamMap, r: Reflection, ghost universe: set<BaseType>)
      requires Valid() && Finite(r, universe)
      modifies this
      ensures Valid()
      ensures old(types) <= types && old(typeClasses) <= typeClasses
      ensures AdmittedSince(types, |old(types)|, r)
      ensures t.Some? && !IsReserved(t.value) && r.create(t.value, pm).Some? ==> r.create(t.value, pm).value in types
      ensures qualifiers == old(qualifiers) && scope == old(scope) && stereotypes == old(stereotypes)
      ensures name == old(name) && passivationId == old(passivationId)
      decreases |universe - Elems(types)|
    {
      if t.None? || IsReserved(t.value) {
        return;
      }
      ghost var types0 := types;
      var baseType := AddType(t.value, pm, r);
      if baseType.None? {
        return;
      }
      ghost var types1 := types;
      AddedShrinks(universe, types0, baseType.value);
      AdmittedOne(types0, t.value, pm, r);
      var newParamMap := baseType.value.paramMap;
      var cl := baseType.value.rawClass;
      IntrospectTypes(r.superclassOf(cl), newParamMap, r, universe);
      AdmittedChain(types0, types1, types, r);
      var ifaces := r.interfacesOf(cl);
      for i := 0 to |ifaces|
        invariant Valid()
        invariant types1 <= types && old(typeClasses) <= typeClasses
        invariant AdmittedSince(types, |types0|, r)
        invariant qualifiers == old(qualifiers) && scope == old(scope) && stereotypes == old(stereotypes)
        invariant name == old(name) && passivationId == old(passivationId)
      {
        ghost var before := types;
        PrefixElems(types1, types);
        UnseenShrinks(universe, Elems(types1), Elems(types));
        IntrospectTypes(Some(ifaces[i]), newParamMap, r, universe);
        AdmittedChain(types0, before, types, r);
      }
      assert types[|types0|] == baseType.value;
    }

    /** `introspectScope`. */
    method IntrospectScope(anns: seq<Annotation>, meta: AnnotationMeta) returns (err: Option<BeanError>)
      modifies this
      ensures (scope, err) == ScopeScan(anns, meta, old(scope))
      ensures types == old(types) && typeClasses == old(typeClasses) && qualifiers == old(qualifiers)
      ensures stereotypes == old(stereotypes) && name == old(name) && passivationId == old(passivationId)
    {
      ghost var s0 := scope;
      for i := 0 to |anns|
        invariant ScopeScan(anns[..i], meta, s0) == (scope, None)
        invariant types == old(types) && typeClasses == old(typeClasses) && qualifiers == old(qualifiers)
        invariant stereotypes == old(stereotypes) && name == old(name) && passivationId == old(passivationId)
      {
        assert anns[..i + 1][..i] == anns[..i];
        var annType := TypeOf(anns[i]);
        if meta.isScope(annType) {
          if scope.Some? && scope.value != annType {
            ScopeScanSticks(anns, meta, s0, i + 1);
            return Some(ScopeConflict(scope.value, annType));
          }
          scope := Some(annType);
        }
      }
      assert anns[..|anns|] == anns;
      return None;
    }

    /** `introspectQualifiers`. */
    method IntrospectQualifiers(anns: seq<Annotation>, meta: AnnotationMeta) returns (err: Option<BeanError>)
      modifies this
      ensures (qualifiers, err) == QualifierScan(anns, meta, simpleName, old(qualifiers))
      ensures types == old(types) && typeClasses == old(typeClasses) && scope == old(scope)
      ensures stereotypes == old(stereotypes) && name == old(name) && passivationId == old(passivationId)
    {
      ghost var q0 := qualifiers;
      for i := 0 to |anns|
        invariant QualifierScan(anns[..i], meta, simpleName, q0) == (qualifiers, None)
        invariant types == old(types) && typeClasses == old(typeClasses) && scope == old(scope)
        invariant stereotypes == old(stereotypes) && name == old(name) && passivationId == old(passivationId)
      {
        assert anns[..i + 1][..i] == anns[..i];
        var ann := anns[i];
        if meta.isQualifier(TypeOf(ann)) {
          if ann.Named? && ann.value == [] {
            var n := DefaultName(simpleName);
            if n.Err? {
              QualifierScanSticks(anns, meta, simpleName, q0, i + 1);
              return Some(n.error);
            }
            ann := Named(n.value);
          }
          qualifiers := qualifiers + [ann];
        }
      }
      assert anns[..|anns|] == anns;
      return None;
    }

    /** `introspectName`: the value of the `@Named` annotation, if there is one, becomes the name. */
    method IntrospectName(anns: seq<Annotation>)
      modifies this
      ensures name == if NamedValue(anns).Some? then NamedValue(anns) else old(name)
      ensures types == old(types) && typeClasses == old(typeClasses) && scope == old(scope)
      ensures qualifiers == old(qualifiers) && stereotypes == old(stereotypes) && passivationId == old(passivationId)
    {
      var value := NamedValue(anns);
      if value.Some? {
        name := value;
      }
    }

    function Stereo(): StereoState
      reads this
    {
      StereoState(scope, name, stereotypes)
    }

    /** `introspectStereotypes`: the outer loop over the bean's annotations. */
    method IntrospectStereotypes(anns: seq<Annotation>, meta: AnnotationMeta) returns (err: Option<BeanError>)
      modifies this
      ensures (Stereo(), err) == StereotypeScan(anns, meta, old(Stereo()))
      ensures types == old(types) && typeClasses == old(typeClasses) && qualifiers == old(qualifiers)
      ensures passivationId == old(passivationId)
    {
      ghost var s0 := Stereo();
      for i := 0 to |anns|
        invariant StereotypeScan(anns[..i], meta, s0) == (Stereo(), None)
        invariant types == old(types) && typeClasses == old(typeClasses) && qualifiers == old(qualifiers)
        invariant passivationId == old(passivationId)
      {
        assert anns[..i + 1][..i] == anns[..i];
        var stereotype := anns[i];
        var stereotypeType := TypeOf(stereotype);
        if meta.isStereotype(stereotypeType) {
          stereotypes := stereotypes + [stereotype];
        }
        err := ScanDeclared(meta.declaredAnnotations(stereotypeType), stereotype, meta);
        if err.Some? {
          StereotypeScanSticks(anns, meta, s0, i + 1);
          return;
        }
      }
      assert anns[..|anns|] == anns;
      return None;
    }

    /** The inner loop of `introspectStereotypes`, over the annotations declared on one annotation type. */
    method ScanDeclared(decls: seq<Annotation>, stereotype: Annotation, meta: AnnotationMeta) returns (err: Option<BeanError>)
      modifies this
      ensures (Stereo(), err) == DeclaredScan(decls, stereotype, meta, old(Stereo()))
      ensures types == old(types) && typeClasses == old(typeClasses) && qualifiers == old(qualifiers)
      ensures passivationId == old(passivationId)
    {
      ghost var s1 := Stereo();
      for j := 0 to |decls|
        invariant DeclaredScan(decls[..j], stereotype, meta, s1) == (Stereo(), None)
        invariant types == old(types) && typeClasses == old(typeClasses) && qualifiers == old(qualifiers)
        invariant passivationId == old(passivationId)
      {
        assert decls[..j + 1][..j] == decls[..j];
        var ann := decls[j];
        var annType := TypeOf(ann);
        if scope.None? && meta.isScope(annType) {
          scope := Some(annType);
        }
        if ann.Named? && name.None? {
          name := Some([]);
          if ann.value != [] {
            DeclaredScanSticks(decls, stereotype, meta, s1, j + 1);
            return Some(NamedStereotypeValue);
          }
        }
        if meta.isQualifier(annType) && !ann.Named? {
          DeclaredScanSticks(decls, stereotype, meta, s1, j + 1);
          return Some(QualifierOnStereotype(ann, stereotype));
        }
      }
      assert decls[..|decls|] == decls;
      return None;
    }

    function Annotated(): AnnotatedState
      reads this
    {
      AnnotatedState(qualifiers, scope, name, stereotypes)
    }

    function DefaultsPart(): Defaults
      reads this
    {
      Defaults(qualifiers, scope, name)
    }

    /** `introspectDefault`. */
    method IntrospectDefault() returns (err: Option<BeanError>)
      modifies this
      ensures (DefaultsPart(), err) == ApplyDefaults(old(DefaultsPart()), simpleName)
      ensures types == old(types) && typeClasses == old(typeClasses) && stereotypes == old(stereotypes)
      ensures passivationId == old(passivationId)
    {
      if |qualifiers| == 0 {
        qualifiers := qualifiers + [Current];
      }
      if scope.None? {
        scope := Some(DependentType);
      }
      if name == Some([]) {
        var n := DefaultName(simpleName);
        if n.Err? {
          return Some(n.error);
        }
        name := Some(n.value);
      }
      return None;
    }

    /**
     * `introspect(annotated)`: scope, qualifiers, name, stereotypes and then
     * the defaults, stopping at the first error.  On success the bean has a
     * qualifier, a scope and a name that is not empty, if it has one.
     */
    method Introspect(anns: seq<Annotation>, meta: AnnotationMeta) returns (err: Option<BeanError>)
      modifies this
      ensures (Annotated(), err) == IntrospectAnnotated(anns, meta, simpleName, old(Annotated()))
      ensures types == old(types) && typeClasses == old(typeClasses) && passivationId == old(passivationId)
      ensures err.None? ==> |qualifiers| > 0 && scope.Some? && name != Some([])
      ensures err.None? ==> QualifierArray(qualifiers) == qualifiers
      ensures err.None? ==> ScopesAgree(anns, meta, old(scope))
      ensures err.None? ==> forall i :: 0 <= i < |anns| ==> NoForeignQualifier(meta.declaredAnnotations(TypeOf(anns[i])), meta)
    {
      IntrospectAnnotatedMeaning(anns, meta, simpleName, Annotated());
      err := IntrospectScope(anns, meta);
      if err.Some? {
        return;
      }
      err := IntrospectQualifiers(anns, meta);
      if err.Some? {
        return;
      }
      IntrospectName(anns);
      err := IntrospectStereotypes(anns, meta);
      if err.Some? {
        return;
      }
      err := IntrospectDefault();
    }

    /** `getId`: the passivation id, computed once by `calculatePassivationId` and kept. */
    method GetId(calculated: string) returns (id: string)
      modifies this
      ensures old(passivationId).Some? ==> id == old(passivationId).value
      ensures old(passivationId).None? ==> id == calculated
      ensures passivationId == Some(id)
      ensures types == old(types) && typeClasses == old(typeClasses) && qualifiers == old(qualifiers)
      ensures scope == old(scope) && stereotypes == old(stereotypes) && name == old(name)
    {
      if passivationId.None? {
        passivationId := Some(calculated);
      }
      return passivationId.value;
    }
  }
}
