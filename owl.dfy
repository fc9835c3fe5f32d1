/** The slice of the OWL data model the generator builds: named entities,
    axioms and the class expressions of its target concepts. Entity identity
    is (kind, counter); the IRIs built from them are in module Iri. */
module Owl {

  /** A named class; `Thing` is owl:Thing, the root of the hierarchy. */
  datatype OwlClass = Thing | Cls(n: nat)

  datatype ObjectProperty = ObjProp(n: nat)

  datatype DataProperty = DataProp(n: nat)

  /** A named individual: the local-part prefix it was created with
      ("pos_indiv", "neg_indiv", "indiv", ...) and the counter value. */
  datatype Individual = Individual(localPrefix: string, n: nat)

  /** The three data property ranges the generator knows of. */
  datatype Datatype = XsdInt | XsdDouble | XsdString

  datatype Axiom =
    | ClassDeclaration(declaredClass: OwlClass)
    | ObjectPropertyDeclaration(declaredObjectProperty: ObjectProperty)
    | DataPropertyDeclaration(declaredDataProperty: DataProperty)
    | NamedIndividualDeclaration(declaredIndividual: Individual)
    | SubClassOf(sub: OwlClass, sup: OwlClass)
    | ObjectPropertyDomain(domainProperty: ObjectProperty, domainClass: OwlClass)
    | ObjectPropertyRange(rangeProperty: ObjectProperty, rangeClass: OwlClass)
    | DataPropertyDomain(dataDomainProperty: DataProperty, dataDomainClass: OwlClass)
    | DataPropertyRange(dataRangeProperty: DataProperty, dataRange: Datatype)
    | ClassAssertion(member: Individual, assertedClass: OwlClass)
    | ObjectPropertyAssertion(subject: Individual, property: ObjectProperty, obj: Individual)

  /** Atomic classes and existential restrictions `p some F`. */
  datatype ClassExpression =
    | Atomic(cls: OwlClass)
    | ObjectSomeValuesFrom(onProperty: ObjectProperty, filler: ClassExpression)

  /** `p1 some (p2 some (... pn some filler))`. */
  function Nest(props: seq<ObjectProperty>, filler: OwlClass): ClassExpression
  {
    if props == [] then Atomic(filler)
    else ObjectSomeValuesFrom(props[0], Nest(props[1..], filler))
  }

  /** The properties along the chain of restrictions, outermost first. */
  function Spine(e: ClassExpression): seq<ObjectProperty>
  {
    match e
    case Atomic(_) => []
    case ObjectSomeValuesFrom(p, f) => [p] + Spine(f)
  }

  /** The atomic class at the bottom of the chain of restrictions. */
  function InnerClass(e: ClassExpression): OwlClass
  {
    match e
    case Atomic(c) => c
    case ObjectSomeValuesFrom(_, f) => InnerClass(f)
  }

  /** Nesting and taking apart are inverse: a nested expression has exactly
      the given property spine and filler. */
  lemma {:induction false} SpineOfNest(props: seq<ObjectProperty>, filler: OwlClass)
    ensures Spine(Nest(props, filler)) == props
    ensures InnerClass(Nest(props, filler)) == filler
  {
    if props != [] {
      SpineOfNest(props[1..], filler);
      assert props == [props[0]] + props[1..];
    }
  }

  /** ... and every class expression is the nesting of its spine around its
      inner class. */
  lemma {:induction false} NestOfSpine(e: ClassExpression)
    ensures Nest(Spine(e), InnerClass(e)) == e
  {
    match e
    case Atomic(_) =>
    case ObjectSomeValuesFrom(p, f) =>
      NestOfSpine(f);
      assert Spine(e)[1..] == Spine(f);
  }

  /** Two nestings along the same properties differ exactly when their
      fillers do. */
  lemma SameSpineDifferentFiller(props: seq<ObjectProperty>, a: OwlClass, b: OwlClass)
    ensures Spine(Nest(props, a)) == Spine(Nest(props, b))
    ensures Nest(props, a) == Nest(props, b) <==> a == b
  {
    SpineOfNest(props, a);
    SpineOfNest(props, b);
  }
}
