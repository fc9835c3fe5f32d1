/** `OntologyGenerator` (learningscenariogenerators/__init__.py): the
    bookkeeping object that creates entities with per-kind counters, builds
    a random class tree rooted at owl:Thing, records domains, ranges and
    asserted types, and collects the axioms of the generated ontology. */
module OntologyGen {
  import opened Wrappers
  import opened Seqs
  import opened Owl
  import opened ClassHierarchy
  import opened AssertedSemantics
  import Iri

  /** A snapshot of every field, so that a method can say in one equation
      which fields it changes and that all others keep their values. */
  datatype GeneratorState = GeneratorState(
    classes: seq<OwlClass>,
    objectProperties: seq<ObjectProperty>,
    dataProperties: seq<DataProperty>,
    individuals: seq<Individual>,
    axioms: set<Axiom>,
    classHierarchy: Hierarchy,
    parent: map<OwlClass, OwlClass>,
    objectPropertyDomains: map<ObjectProperty, OwlClass>,
    objectPropertyRanges: map<ObjectProperty, OwlClass>,
    dataPropertyDomains: map<DataProperty, OwlClass>,
    dataPropertyRanges: map<DataProperty, Datatype>,
    individualsTypes: map<Individual, seq<OwlClass>>,
    clsCntr: nat,
    objPropCntr: nat,
    dataPropCntr: nat,
    indivCntr: nat)

  datatype GeneratorError = NoClassWithTwoSubClasses

  /** The types recorded for `y` in `m`, `[]` if it has none. */
  function TypesOf(m: map<Individual, seq<OwlClass>>, y: Individual): seq<OwlClass> {
    if y in m then m[y] else []
  }

  class OntologyGenerator {
    var classes: seq<OwlClass>
    var objectProperties: seq<ObjectProperty>
    var dataProperties: seq<DataProperty>
    var individuals: seq<Individual>
    var axioms: set<Axiom>
    var classHierarchy: Hierarchy
    /** The parent each class was attached to; the source keeps it only
        implicitly, in which child list the class appears. */
    ghost var parent: map<OwlClass, OwlClass>
    var objectPropertyDomains: map<ObjectProperty, OwlClass>
    var objectPropertyRanges: map<ObjectProperty, OwlClass>
    var dataPropertyDomains: map<DataProperty, OwlClass>
    var dataPropertyRanges: map<DataProperty, Datatype>
    var individualsTypes: map<Individual, seq<OwlClass>>
    var clsCntr: nat
    var objPropCntr: nat
    var dataPropCntr: nat
    var indivCntr: nat
    /** The IRI namespace of the generated entities (see module Iri). */
    const ontologyPrefix: string
    const possibleDataPropertyRanges: seq<Datatype>

    ghost function State(): GeneratorState
      reads this
    {
      GeneratorState(classes, objectProperties, dataProperties, individuals, axioms,
        classHierarchy, parent, objectPropertyDomains, objectPropertyRanges,
        dataPropertyDomains, dataPropertyRanges, individualsTypes,
        clsCntr, objPropCntr, dataPropCntr, indivCntr)
    }

    /** Each entity list holds exactly the entities its counter has numbered,
        in creation order. */
    ghost predicate Counted()
      reads this`classes, this`clsCntr, this`objectProperties, this`objPropCntr,
        this`dataProperties, this`dataPropCntr, this`individuals, this`indivCntr
    {
      && |classes| == clsCntr
      && (forall i | 0 <= i < |classes| :: classes[i] == Cls(i + 1))
      && |objectProperties| == objPropCntr
      && (forall i | 0 <= i < |objectProperties| :: objectProperties[i] == ObjProp(i + 1))
      && |dataProperties| == dataPropCntr
      && (forall i | 0 <= i < |dataProperties| :: dataProperties[i] == DataProp(i + 1))
      && |individuals| == indivCntr
      && (forall i | 0 <= i < |individuals| :: individuals[i].n == i + 1)
    }

    /** The invariant every public operation keeps. */
    ghost predicate Valid()
      reads this
    {
      ValidIn(axioms)
    }

    /** The invariant with `ax` in place of the axiom set: the counters
        number the entities, every entity is declared in `ax` and every
        recorded domain, range and type is asserted in `ax`.  It does not
        read the axioms or the hierarchy, so replacing those keeps it. */
    ghost predicate ValidIn(ax: set<Axiom>)
      reads this`classes, this`clsCntr, this`objectProperties, this`objPropCntr,
        this`dataProperties, this`dataPropCntr, this`individuals, this`indivCntr,
        this`objectPropertyDomains, this`objectPropertyRanges,
        this`dataPropertyDomains, this`dataPropertyRanges, this`individualsTypes
    {
      && Counted()
      && AllDeclared(classes, objectProperties, dataProperties, individuals, ax)
      && AllRecorded(objectPropertyDomains, objectPropertyRanges, dataPropertyDomains, dataPropertyRanges,
                     individualsTypes, ax)
    }

    /** After `init_random_class_hierarchy`: the hierarchy is a tree over
        `classes` rooted at owl:Thing.  It does not read the axioms, so
        asserting more keeps it. */
    ghost predicate HierarchyBuilt()
      reads this`classHierarchy, this`parent, this`classes
    {
      IsTree(classHierarchy, parent, classes)
    }

    constructor (ontologyPrefix: string)
      ensures Valid()
      ensures State() == GeneratorState([], [], [], [], {}, map[], map[], map[], map[], map[], map[], map[], 0, 0, 0, 0)
      ensures this.ontologyPrefix == ontologyPrefix
      ensures possibleDataPropertyRanges == [XsdInt, XsdDouble, XsdString]
    {
      classes, objectProperties, dataProperties, individuals := [], [], [], [];
      axioms := {};
      classHierarchy := map[];
      parent := map[];
      possibleDataPropertyRanges := [XsdInt, XsdDouble, XsdString];
      objectPropertyDomains, objectPropertyRanges := map[], map[];
      dataPropertyDomains, dataPropertyRanges := map[], map[];
      individualsTypes := map[];
      clsCntr, objPropCntr, dataPropCntr, indivCntr := 0, 0, 0, 0;
      this.ontologyPrefix := ontologyPrefix;
    }

    /** Distinct positions of the entity lists hold distinct entities. */
    lemma CountedDistinct()
      requires Counted()
      ensures NoDup(classes) && NoDup(objectProperties) && NoDup(dataProperties) && NoDup(individuals)
      ensures Thing !in classes
    {
      assert forall i, j | 0 <= i < j < |individuals| :: individuals[i].n != individuals[j].n;
    }

    /** The IRIs built from `ontologyPrefix` and the counters are pairwise
        distinct for the classes, for the object properties, for the data
        properties and for the individuals created with the scenario
        generator's prefixes. */
    lemma DistinctIris()
      requires Counted()
      ensures forall i, j | 0 <= i < j < |classes| ::
                Iri.ClassIri(ontologyPrefix, classes[i]) != Iri.ClassIri(ontologyPrefix, classes[j])
      ensures forall i, j | 0 <= i < j < |objectProperties| ::
                Iri.ObjectPropertyIri(ontologyPrefix, objectProperties[i]) !=
                Iri.ObjectPropertyIri(ontologyPrefix, objectProperties[j])
      ensures forall i, j | 0 <= i < j < |dataProperties| ::
                Iri.DataPropertyIri(ontologyPrefix, dataProperties[i]) != Iri.DataPropertyIri(ontologyPrefix, dataProperties[j])
      ensures forall i, j | && 0 <= i < j < |individuals|
                            && Iri.GeneratorPrefix(individuals[i].localPrefix)
                            && Iri.GeneratorPrefix(individuals[j].localPrefix) ::
                Iri.IndividualIri(ontologyPrefix, individuals[i]) != Iri.IndividualIri(ontologyPrefix, individuals[j])
    {
      CountedDistinct();
      forall i, j | 0 <= i < j < |classes|
        ensures Iri.ClassIri(ontologyPrefix, classes[i]) != Iri.ClassIri(ontologyPrefix, classes[j])
      {
        Iri.ClassIriInjective(ontologyPrefix, classes[i], classes[j]);
      }
      forall i, j | 0 <= i < j < |objectProperties|
        ensures Iri.ObjectPropertyIri(ontologyPrefix, objectProperties[i]) !=
                Iri.ObjectPropertyIri(ontologyPrefix, objectProperties[j])
      {
        Iri.TaggedIriInjective(ontologyPrefix, "objProp", objectProperties[i].n, objectProperties[j].n);
      }
      forall i, j | 0 <= i < j < |dataProperties|
        ensures Iri.DataPropertyIri(ontologyPrefix, dataProperties[i]) != Iri.DataPropertyIri(ontologyPrefix, dataProperties[j])
      {
        Iri.TaggedIriInjective(ontologyPrefix, "dataProp", dataProperties[i].n, dataProperties[j].n);
      }
      forall i, j | && 0 <= i < j < |individuals|
                    && Iri.GeneratorPrefix(individuals[i].localPrefix)
                    && Iri.GeneratorPrefix(individuals[j].localPrefix)
        ensures Iri.IndividualIri(ontologyPrefix, individuals[i]) != Iri.IndividualIri(ontologyPrefix, individuals[j])
      {
        Iri.IndividualIriInjective(ontologyPrefix, individuals[i], individuals[j]);
      }
    }

    /** `add_new_class`: the next numbered class, declared. */
    method AddNewClass()
      requires Valid()
      modifies this`classes, this`axioms, this`clsCntr
      ensures Valid()
      ensures State() == old(State()).(
        classes := old(classes) + [Cls(old(clsCntr) + 1)],
        axioms := old(axioms) + {ClassDeclaration(Cls(old(clsCntr) + 1))},
        clsCntr := old(clsCntr) + 1)
    {
      clsCntr := clsCntr + 1;
      var cls := Cls(clsCntr);
      classes := classes + [cls];
      axioms := axioms + {ClassDeclaration(cls)};
    }

    /** `add_new_object_property`: the next numbered object property, declared. */
    method AddNewObjectProperty()
      requires Valid()
      modifies this`objectProperties, this`axioms, this`objPropCntr
      ensures Valid()
      ensures State() == old(State()).(
        objectProperties := old(objectProperties) + [ObjProp(old(objPropCntr) + 1)],
        axioms := old(axioms) + {ObjectPropertyDeclaration(ObjProp(old(objPropCntr) + 1))},
        objPropCntr := old(objPropCntr) + 1)
    {
      objPropCntr := objPropCntr + 1;
      var objProp := ObjProp(objPropCntr);
      objectProperties := objectProperties + [objProp];
      axioms := axioms + {ObjectPropertyDeclaration(objProp)};
    }

    /** `add_new_data_property`: the next numbered data property, declared. */
    method AddNewDataProperty()
      requires Valid()
      modifies this`dataProperties, this`axioms, this`dataPropCntr
      ensures Valid()
      ensures State() == old(State()).(
        dataProperties := old(dataProperties) + [DataProp(old(dataPropCntr) + 1)],
        axioms := old(axioms) + {DataPropertyDeclaration(DataProp(old(dataPropCntr) + 1))},
        dataPropCntr := old(dataPropCntr) + 1)
    {
      dataPropCntr := dataPropCntr + 1;
      var dataProp := DataProp(dataPropCntr);
      dataProperties := dataProperties + [dataProp];
      axioms := axioms + {DataPropertyDeclaration(dataProp)};
    }

    /** `add_new_individual`: the new individual carries the next counter
        value and is declared; its IRI is
        `Iri.IndividualIri(ontologyPrefix, indiv)`. */
    method AddNewIndividual(localPartPrefix: string := "indiv") returns (indiv: Individual)
      requires Valid()
      modifies this`individuals, this`axioms, this`indivCntr
      ensures Valid()
      ensures indiv == Individual(localPartPrefix, old(indivCntr) + 1)
      ensures State() == old(State()).(
        individuals := old(individuals) + [indiv],
        axioms := old(axioms) + {NamedIndividualDeclaration(indiv)},
        indivCntr := old(indivCntr) + 1)
    {
      indivCntr := indivCntr + 1;
      indiv := Individual(localPartPrefix, indivCntr);
      individuals := individuals + [indiv];
      axioms := axioms + {NamedIndividualDeclaration(indiv)};
    }

    /** `add_axiom`. */
    method AddAxiom(axiom: Axiom)
      requires Valid()
      modifies this`axioms
      ensures Valid()
      ensures axioms == old(axioms) + {axiom}
    {
      axioms := axioms + {axiom};
    }

    /** `init_random_class_hierarchy`: restart from `{Thing: []}` and attach
        each class, in creation order, below a parent chosen freely among
        owl:Thing and the classes attached before it. */
    method InitRandomClassHierarchy()
      requires Valid()
      modifies this`classHierarchy, this`parent, this`axioms
      ensures Valid() && HierarchyBuilt() && EdgesAsserted(axioms, classHierarchy)
      ensures forall i | 0 <= i < |classes| :: parent[classes[i]] == Thing || parent[classes[i]] in classes[..i]
      ensures axioms == old(axioms) + SubClassAxioms(classes, parent)
    {
      var hierarchy, parents, ax := BuildRandomHierarchy(classes, axioms);
      MoreAxioms(ax);
      classHierarchy, parent, axioms := hierarchy, parents, ax;
    }

    /** Adding axioms keeps every declaration and record asserted. */
    lemma MoreAxioms(ax: set<Axiom>)
      requires Valid() && axioms <= ax
      ensures ValidIn(ax)
    {
    }

    /** `get_all_sub_classes`: `c` and all its descendants.  A proper
        descendant occurs more than once (`ClassHierarchy.ChildListedTwice`),
        so only membership is promised. */
    function AllSubClasses(c: OwlClass): (r: seq<OwlClass>)
      reads this`classHierarchy
      requires Ordered(classHierarchy) && c in classHierarchy
      ensures c in r
      ensures forall x :: x in r <==> InSubtree(classHierarchy, c, x)
    {
      SubClassesClosure(classHierarchy, c);
      SubClasses(classHierarchy, c)
    }

    /** `get_all_direct_sub_classes`: a copy of the child list of `c`; in the
        built tree it holds exactly the classes attached below `c`, once each. */
    function AllDirectSubClasses(c: OwlClass): (r: seq<OwlClass>)
      reads this`classHierarchy, this`parent, this`classes
      requires c in classHierarchy
      ensures HierarchyBuilt() ==> NoDup(r)
      ensures HierarchyBuilt() ==> forall x :: x in r <==> x in parent && parent[x] == c
    {
      classHierarchy[c]
    }

    /** The classes outside the subtree of `c`, in creation order. */
    function ComplementOfSubtree(c: OwlClass): (r: seq<OwlClass>)
      reads this`classHierarchy, this`classes
      requires Ordered(classHierarchy) && c in classHierarchy
      ensures forall x :: x in r <==> x in classes && !InSubtree(classHierarchy, c, x)
      ensures NoDup(classes) ==> NoDup(r)
    {
      Without(classes, AllSubClasses(c))
    }

    /** `get_classes_from_complement_of_subtree`: the classes outside the
        subtree of `c`.  The source goes through a set, so the order is
        left open: any arrangement of them may come back. */
    method ClassesFromComplementOfSubtree(c: OwlClass) returns (r: seq<OwlClass>)
      requires Counted() && Ordered(classHierarchy) && c in classHierarchy
      ensures multiset(r) == multiset(ComplementOfSubtree(c))
      ensures forall x :: x in r <==> x in classes && !InSubtree(classHierarchy, c, x)
      ensures c !in r && Thing !in r
      ensures NoDup(r)
    {
      var kept := ComplementOfSubtree(c);
      CountedDistinct();
      assert multiset(kept) == multiset(kept);
      r :| multiset(r) == multiset(kept);
      PermutationKeepsNoDup(kept, r);
      forall x ensures x in r <==> x in kept {
        assert x in r <==> x in multiset(r);
      }
    }

    /** `pick_random_class`: any created class (the source's `choice` fails
        on an empty list). */
    method PickRandomClass() returns (c: OwlClass)
      requires |classes| > 0
      ensures c in classes
    {
      assert classes[0] in classes;
      c :| c in classes;
    }

    /** `pick_random_cls_w_at_least_two_sub_classes`: scan a shuffled copy
        of `classes` for one with more than one direct subclass; the source
        raises when there is none.  owl:Thing is never a candidate. */
    method PickRandomClsWithAtLeastTwoSubClasses() returns (r: Result<OwlClass, GeneratorError>)
      requires forall c | c in classes :: c in classHierarchy
      ensures r.Success? ==> r.value in classes && |classHierarchy[r.value]| > 1
      ensures r.Failure? <==> forall c | c in classes :: |classHierarchy[c]| <= 1
    {
      assert multiset(classes) == multiset(classes);
      var candidates: seq<OwlClass> :| multiset(candidates) == multiset(classes);
      forall k | 0 <= k < |candidates| ensures candidates[k] in classes {
        assert candidates[k] in multiset(candidates);
      }
      for i := 0 to |candidates|
        invariant forall k | 0 <= k < |candidates| :: candidates[k] in classes
        invariant forall k | 0 <= k < i :: |classHierarchy[candidates[k]]| <= 1
      {
        if |classHierarchy[candidates[i]]| > 1 {
          return Success(candidates[i]);
        }
      }
      forall c | c in classes ensures |classHierarchy[c]| <= 1 {
        assert c in multiset(candidates);
        var k :| 0 <= k < |candidates| && candidates[k] == c;
      }
      return Failure(NoClassWithTwoSubClasses);
    }

    /** `set_object_property_domain_and_range`: record and assert the domain
        and the range of `p`. */
    method SetObjectPropertyDomainAndRange(p: ObjectProperty, domainCls: OwlClass, rangeCls: OwlClass)
      requires Valid()
      modifies this`objectPropertyDomains, this`objectPropertyRanges, this`axioms
      ensures Valid()
      ensures objectPropertyDomains == old(objectPropertyDomains)[p := domainCls]
      ensures objectPropertyRanges == old(objectPropertyRanges)[p := rangeCls]
      ensures axioms == old(axioms) + {ObjectPropertyDomain(p, domainCls), ObjectPropertyRange(p, rangeCls)}
      ensures DomainCls(p) == domainCls && RangeCls(p) == rangeCls
    {
      objectPropertyDomains := objectPropertyDomains[p := domainCls];
      axioms := axioms + {ObjectPropertyDomain(p, domainCls)};
      objectPropertyRanges := objectPropertyRanges[p := rangeCls];
      axioms := axioms + {ObjectPropertyRange(p, rangeCls)};
    }

    /** `set_data_property_domain_and_range`. */
    method SetDataPropertyDomainAndRange(p: DataProperty, domainCls: OwlClass, rangeType: Datatype)
      requires Valid()
      modifies this`dataPropertyDomains, this`dataPropertyRanges, this`axioms
      ensures Valid()
      ensures dataPropertyDomains == old(dataPropertyDomains)[p := domainCls]
      ensures dataPropertyRanges == old(dataPropertyRanges)[p := rangeType]
      ensures axioms == old(axioms) + {DataPropertyDomain(p, domainCls), DataPropertyRange(p, rangeType)}
      ensures RangeDatatype(p) == rangeType
    {
      dataPropertyDomains := dataPropertyDomains[p := domainCls];
      axioms := axioms + {DataPropertyDomain(p, domainCls)};
      dataPropertyRanges := dataPropertyRanges[p := rangeType];
      axioms := axioms + {DataPropertyRange(p, rangeType)};
    }

    /** `get_domain_cls`: the recorded domain, which is also asserted. */
    function DomainCls(p: ObjectProperty): (d: OwlClass)
      reads this
      requires p in objectPropertyDomains
      ensures Valid() ==> ObjectPropertyDomain(p, d) in axioms
    {
      objectPropertyDomains[p]
    }

    /** `get_range_cls`: the recorded range, which is also asserted. */
    function RangeCls(p: ObjectProperty): (r: OwlClass)
      reads this
      requires p in objectPropertyRanges
      ensures Valid() ==> ObjectPropertyRange(p, r) in axioms
    {
      objectPropertyRanges[p]
    }

    /** `get_range_datatype`: the recorded datatype, which is also asserted. */
    function RangeDatatype(p: DataProperty): (r: Datatype)
      reads this
      requires p in dataPropertyRanges
      ensures Valid() ==> DataPropertyRange(p, r) in axioms
    {
      dataPropertyRanges[p]
    }

    /** `add_instance`: assert `c` as a type of `i` and append it to the
        types recorded for `i`; a repeated type is appended again. */
    method AddInstance(i: Individual, c: OwlClass)
      requires Valid()
      modifies this`axioms, this`individualsTypes
      ensures Valid()
      ensures axioms == old(axioms) + {ClassAssertion(i, c)}
      ensures individualsTypes == old(individualsTypes)[i := old(HasTypes(i)) + [c]]
      ensures HasTypes(i) == old(HasTypes(i)) + [c]
      ensures forall j | j != i :: HasTypes(j) == old(HasTypes(j))
    {
      axioms := axioms + {ClassAssertion(i, c)};
      if i !in individualsTypes {
        individualsTypes := individualsTypes[i := []];
      }
      individualsTypes := individualsTypes[i := individualsTypes[i] + [c]];
    }

    /** `has_types`: the classes recorded for `i`, `[]` if it was never
        typed; each of them is asserted. */
    function HasTypes(i: Individual): (r: seq<OwlClass>)
      reads this
      ensures i !in individualsTypes ==> r == []
      ensures Valid() ==> forall c | c in r :: ClassAssertion(i, c) in axioms
    {
      TypesOf(individualsTypes, i)
    }

    /** `get_object_properties_by_domain`: the properties, in creation
        order, whose domain has `c` in its subtree. */
    method ObjectPropertiesByDomain(c: OwlClass) returns (r: seq<ObjectProperty>)
      requires Ordered(classHierarchy)
      requires forall p | p in objectProperties ::
                 p in objectPropertyDomains && objectPropertyDomains[p] in classHierarchy
      ensures r == Covering(objectProperties, objectPropertyDomains, classHierarchy, c)
    {
      r := [];
      for k := 0 to |objectProperties|
        invariant r == Covering(objectProperties[..k], objectPropertyDomains, classHierarchy, c)
      {
        var p := objectProperties[k];
        var domainClasses := AllSubClasses(objectPropertyDomains[p]);
        if c in domainClasses {
          r := r + [p];
        }
        CoveringGrows(objectProperties, k, objectPropertyDomains, classHierarchy, c);
      }
      assert objectProperties[..|objectProperties|] == objectProperties;
    }

    /** `get_object_properties_by_range`: the properties, in creation
        order, whose range has `c` in its subtree. */
    method ObjectPropertiesByRange(c: OwlClass) returns (r: seq<ObjectProperty>)
      requires Ordered(classHierarchy)
      requires forall p | p in objectProperties ::
                 p in objectPropertyRanges && objectPropertyRanges[p] in classHierarchy
      ensures r == Covering(objectProperties, objectPropertyRanges, classHierarchy, c)
    {
      r := [];
      for k := 0 to |objectProperties|
        invariant r == Covering(objectProperties[..k], objectPropertyRanges, classHierarchy, c)
      {
        var p := objectProperties[k];
        var rangeClasses := AllSubClasses(objectPropertyRanges[p]);
        if c in rangeClasses {
          r := r + [p];
        }
        CoveringGrows(objectProperties, k, objectPropertyRanges, classHierarchy, c);
      }
      assert objectProperties[..|objectProperties|] == objectProperties;
    }

    /** `get_random_domain_class`: some class in the subtree of the domain of `p`. */
    method GetRandomDomainClass(p: ObjectProperty) returns (c: OwlClass)
      requires Ordered(classHierarchy)
      requires p in objectPropertyDomains && objectPropertyDomains[p] in classHierarchy
      ensures InSubtree(classHierarchy, objectPropertyDomains[p], c)
    {
      var candidates := AllSubClasses(objectPropertyDomains[p]);
      c :| c in candidates;
    }

    /** `get_random_range_class`: some class in the subtree of the range of `p`. */
    method GetRandomRangeClass(p: ObjectProperty) returns (c: OwlClass)
      requires Ordered(classHierarchy)
      requires p in objectPropertyRanges && objectPropertyRanges[p] in classHierarchy
      ensures InSubtree(classHierarchy, objectPropertyRanges[p], c)
    {
      var candidates := AllSubClasses(objectPropertyRanges[p]);
      c :| c in candidates;
    }
  }

  /** The properties of `props`, in their order, whose class under `m` has
      `c` in its subtree: what `get_object_properties_by_domain` (with the
      domain map) and `get_object_properties_by_range` (with the range map)
      compute. */
  function Covering(props: seq<ObjectProperty>, m: map<ObjectProperty, OwlClass>, h: Hierarchy, c: OwlClass)
    : (r: seq<ObjectProperty>)
    requires Ordered(h) && forall p | p in props :: p in m && m[p] in h
    ensures |r| <= |props|
    ensures forall p :: p in r <==> p in props && InSubtree(h, m[p], c)
  {
    if props == [] then []
    else
      var init, p := props[..|props| - 1], props[|props| - 1];
      assert props == init + [p];
      SubClassesClosure(h, m[p]);
      var rest := Covering(init, m, h, c);
      if c in SubClasses(h, m[p]) then rest + [p] else rest
  }

  /** One more step of the scan behind `Covering`. */
  lemma CoveringGrows(props: seq<ObjectProperty>, k: nat, m: map<ObjectProperty, OwlClass>, h: Hierarchy, c: OwlClass)
    requires k < |props| && Ordered(h) && forall p | p in props :: p in m && m[p] in h
    ensures Covering(props[..k + 1], m, h, c)
            == Covering(props[..k], m, h, c) + (if c in SubClasses(h, m[props[k]]) then [props[k]] else [])
  {
    assert props[..k + 1][..k] == props[..k];
  }

  /** The loop of `init_random_class_hierarchy`, over the created classes
      and the axioms collected so far. */
  method BuildRandomHierarchy(classes: seq<OwlClass>, axioms: set<Axiom>)
    returns (hierarchy: Hierarchy, ghost parents: map<OwlClass, OwlClass>, ax: set<Axiom>)
    requires forall k | 0 <= k < |classes| :: classes[k] == Cls(k + 1)
    requires forall c | c in classes :: ClassDeclaration(c) in axioms
    ensures TreeEdges(hierarchy, parents, classes, ax)
    ensures forall i | 0 <= i < |classes| :: parents[classes[i]] == Thing || parents[classes[i]] in classes[..i]
    ensures ax == axioms + SubClassAxioms(classes, parents)
  {
    var superClasses := [Thing];
    hierarchy := map[Thing := []];
    parents := map[];
    ax := axioms;
    InitStart(classes, ax);
    var i := 0;
    while i < |classes|
      invariant InitProgress(hierarchy, parents, ax, axioms, classes, superClasses, i)
    {
      var cls := classes[i];
      InitFresh(hierarchy, parents, ax, axioms, classes, superClasses, i);
      ghost var h, par, ax1, sc := hierarchy, parents, ax, superClasses;
      ax := ax + {ClassDeclaration(cls)};
      var superClass :| superClass in superClasses;
      ax := ax + {SubClassOf(cls, superClass)};
      if cls !in hierarchy {
        hierarchy := hierarchy[cls := []];
      }
      hierarchy := hierarchy[superClass := hierarchy[superClass] + [cls]];
      parents := parents[cls := superClass];
      superClasses := superClasses + [cls];
      InitStep(h, par, ax1, axioms, classes, sc, i, superClass, hierarchy, parents, ax, superClasses);
      i := i + 1;
    }
    InitDone(hierarchy, parents, ax, axioms, classes, superClasses, i);
  }

  /** The SubClassOf axiom attaching each of `classes` to its parent. */
  ghost function SubClassAxioms(classes: seq<OwlClass>, parent: map<OwlClass, OwlClass>): set<Axiom>
    requires forall c | c in classes :: c in parent
  {
    set c | c in classes :: SubClassOf(c, parent[c])
  }

  /** What the first `i` iterations of `init_random_class_hierarchy` have
      built: a tree over `classes[..i]` whose edges are asserted, parents
      chosen among earlier classes, one SubClassOf axiom per class, and the
      candidate parents for the next class. */
  ghost predicate InitProgress(h: Hierarchy, parent: map<OwlClass, OwlClass>, ax: set<Axiom>, ax0: set<Axiom>,
                               classes: seq<OwlClass>, superClasses: seq<OwlClass>, i: nat)
  {
    && i <= |classes|
    && superClasses == [Thing] + classes[..i]
    && IsTree(h, parent, classes[..i])
    && EdgesAsserted(ax, h)
    && (forall j | 0 <= j < i :: parent[classes[j]] == Thing || parent[classes[j]] in classes[..j])
    && ax == ax0 + SubClassAxioms(classes[..i], parent)
  }

  lemma InitStart(classes: seq<OwlClass>, ax: set<Axiom>)
    ensures InitProgress(map[Thing := []], map[], ax, ax, classes, [Thing], 0)
  {
    EmptyTree();
    assert classes[..0] == [];
  }

  /** The class about to be attached is not in the tree yet. */
  lemma InitFresh(h: Hierarchy, parent: map<OwlClass, OwlClass>, ax: set<Axiom>, ax0: set<Axiom>,
                  classes: seq<OwlClass>, superClasses: seq<OwlClass>, i: nat)
    requires (forall k | 0 <= k < |classes| :: classes[k] == Cls(k + 1))
    requires i < |classes| && InitProgress(h, parent, ax, ax0, classes, superClasses, i)
    ensures classes[i] !in h
  {
    assert forall x | x in classes[..i] :: Id(x) < Id(classes[i]);
  }

  lemma InitDone(h: Hierarchy, parent: map<OwlClass, OwlClass>, ax: set<Axiom>, ax0: set<Axiom>,
                 classes: seq<OwlClass>, superClasses: seq<OwlClass>, i: nat)
    requires InitProgress(h, parent, ax, ax0, classes, superClasses, i) && i >= |classes|
    ensures IsTree(h, parent, classes) && EdgesAsserted(ax, h)
    ensures forall i | 0 <= i < |classes| :: parent[classes[i]] == Thing || parent[classes[i]] in classes[..i]
    ensures ax == ax0 + SubClassAxioms(classes, parent)
  {
    assert classes[..i] == classes;
  }

  /** One iteration of `init_random_class_hierarchy` keeps `InitProgress`. */
  lemma InitStep(h: Hierarchy, parent: map<OwlClass, OwlClass>, ax: set<Axiom>, ax0: set<Axiom>,
                 classes: seq<OwlClass>, superClasses: seq<OwlClass>, i: nat, sup: OwlClass,
                 h': Hierarchy, parent': map<OwlClass, OwlClass>, ax': set<Axiom>, superClasses': seq<OwlClass>)
    requires (forall k | 0 <= k < |classes| :: classes[k] == Cls(k + 1))
    requires (forall c | c in classes :: ClassDeclaration(c) in ax0)
    requires i < |classes| && InitProgress(h, parent, ax, ax0, classes, superClasses, i)
    requires sup in superClasses
    requires h' == h[classes[i] := []][sup := h[sup] + [classes[i]]]
    requires parent' == parent[classes[i] := sup]
    requires ax' == ax + {ClassDeclaration(classes[i])} + {SubClassOf(classes[i], sup)}
    requires superClasses' == superClasses + [classes[i]]
    ensures InitProgress(h', parent', ax', ax0, classes, superClasses', i + 1)
  {
    var c, done := classes[i], classes[..i];
    PrefixGrows(classes, i);
    InitFresh(h, parent, ax, ax0, classes, superClasses, i);
    assert forall x | x in done :: Id(x) < Id(c);
    AttachStep(h, parent, done, c, sup, ax, ax');
    CandidatesGrow(classes, i, superClasses, superClasses');
    AxiomsGrow(ax0, ax, ax', SubClassAxioms(done, parent), SubClassAxioms(done + [c], parent'),
               ClassDeclaration(c), SubClassOf(c, sup));
    ParentsEarlierStep(classes, parent, i, sup, parent');
  }

  lemma CandidatesGrow(classes: seq<OwlClass>, i: nat, superClasses: seq<OwlClass>, superClasses': seq<OwlClass>)
    requires i < |classes| && superClasses == [Thing] + classes[..i]
    requires superClasses' == superClasses + [classes[i]]
    ensures superClasses' == [Thing] + classes[..i + 1]
  {
    PrefixGrows(classes, i);
  }

  lemma AxiomsGrow(ax0: set<Axiom>, ax: set<Axiom>, ax': set<Axiom>, before: set<Axiom>, after: set<Axiom>,
                   declaration: Axiom, edge: Axiom)
    requires ax == ax0 + before && declaration in ax0
    requires ax' == ax + {declaration} + {edge} && after == before + {edge}
    ensures ax' == ax0 + after
  {
  }

  lemma ParentsEarlierStep(classes: seq<OwlClass>, parent: map<OwlClass, OwlClass>, i: nat, sup: OwlClass,
                           parent': map<OwlClass, OwlClass>)
    requires (forall k | 0 <= k < |classes| :: classes[k] == Cls(k + 1))
    requires i < |classes|
    requires forall j | 0 <= j < i :: classes[j] in parent && (parent[classes[j]] == Thing || parent[classes[j]] in classes[..j])
    requires sup in [Thing] + classes[..i] && parent' == parent[classes[i] := sup]
    ensures forall j | 0 <= j < i + 1 :: parent'[classes[j]] == Thing || parent'[classes[j]] in classes[..j]
  {
    forall j | 0 <= j < i + 1 ensures parent'[classes[j]] == Thing || parent'[classes[j]] in classes[..j] {
      if j == i {
        assert sup == Thing || sup in classes[..j];
      }
    }
  }

  /** One iteration of `init_random_class_hierarchy` keeps the tree, its
      asserted edges and the record of SubClassOf axioms. */
  lemma AttachStep(h: Hierarchy, parent: map<OwlClass, OwlClass>, done: seq<OwlClass>,
                   c: OwlClass, sup: OwlClass, ax: set<Axiom>, ax': set<Axiom>)
    requires IsTree(h, parent, done) && EdgesAsserted(ax, h)
    requires c != Thing && c !in h && sup in h && Id(sup) < Id(c)
    requires ax' == ax + {ClassDeclaration(c), SubClassOf(c, sup)}
    ensures IsTree(h[c := []][sup := h[sup] + [c]], parent[c := sup], done + [c])
    ensures EdgesAsserted(ax', h[c := []][sup := h[sup] + [c]])
    ensures SubClassAxioms(done + [c], parent[c := sup]) == SubClassAxioms(done, parent) + {SubClassOf(c, sup)}
  {
    AttachPreservesTree(h, parent, done, c, sup);
    var h' := h[c := []][sup := h[sup] + [c]];
    forall p, x | p in h' && x in h'[p] ensures SubClassOf(x, p) in ax' {
      if p == sup && x == c {
      } else if p == c {
      } else if p == sup {
        assert x in h[sup];
      } else {
        assert x in h[p];
      }
    }
    assert c !in done;
    var parent' := parent[c := sup];
    var before := SubClassAxioms(done, parent);
    var after := SubClassAxioms(done + [c], parent');
    forall a | a in after ensures a in before + {SubClassOf(c, sup)} {
      var x :| x in done + [c] && a == SubClassOf(x, parent'[x]);
      if x != c {
        assert x in done;
      }
    }
    forall a | a in before + {SubClassOf(c, sup)} ensures a in after {
      if a != SubClassOf(c, sup) {
        var x :| x in done && a == SubClassOf(x, parent[x]);
        assert x in done + [c] && x != c;
      } else {
        assert c in done + [c];
      }
    }
  }
}
