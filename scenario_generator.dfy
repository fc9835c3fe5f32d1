/** `SimulatedAnnealingLearningScenario1Generator`
    (learningscenariogenerators/simulatedannealing/__init__.py): a learning
    scenario whose target concept is a chain of existential restrictions
    `p1 some (p2 some ... (pn some PosFiller))`.  Every positive example
    starts a chain of fresh individuals linked by `p1 ... pn` and ending in
    a subclass of the positive filler; every negative example starts the
    same kind of chain ending in a subclass of a sibling of it, the negative
    filler.  This module models the constructor check and the constructive
    part of `generate_scenario`. */
module SimulatedAnnealing {
  import opened Wrappers
  import opened Seqs
  import opened Owl
  import opened ClassHierarchy
  import opened AssertedSemantics
  import opened OntologyGen

  /** Why the constructor rejects its parameters (both are
      `OntologyConstraintsViolatedException` in the source). */
  datatype ConfigError = TooFewIndividuals | TooFewObjectProperties

  /** Why the pipeline produces no scenario: the source's filler search
      would never stop. */
  datatype GenerationError = NoFillerClass

  /** `LearningScenario` (learningscenariogenerators/__init__.py): the
      examples, the target concept and the axioms of the background
      ontology. */
  datatype LearningScenario = LearningScenario(
    positiveExamples: set<Individual>,
    negativeExamples: set<Individual>,
    targetConcept: ClassExpression,
    backgroundKnowledge: set<Axiom>)

  /** The generator's parameters; the source never changes them after the
      constructor. */
  datatype Scenario1Generator = Scenario1Generator(
    numPosExamples: int,
    numNegExamples: int,
    numClasses: int,
    numObjectProperties: int,
    numDataProperties: int,
    numOverallIndividuals: int,
    existentialNestingDepth: int)
  {
    function NumNonExampleIndividuals(): int {
      numOverallIndividuals - numPosExamples - numNegExamples
    }

    /** The two conditions the constructor checks: enough non-example
        individuals for one fresh chain per example, and enough object
        properties for a chain without repeats. */
    predicate Admissible() {
      && NumNonExampleIndividuals() >= existentialNestingDepth * (numPosExamples + numNegExamples)
      && numObjectProperties >= existentialNestingDepth
    }

    /** A class that `_get_final_filler` accepts: it has at least two direct
        subclasses and more than `existentialNestingDepth` classes lie
        outside its subtree. */
    predicate IsFinalFiller(h: Hierarchy, classes: seq<OwlClass>, c: OwlClass)
      requires Ordered(h) && c in h
    {
      |h[c]| >= 2 && |Without(classes, SubClasses(h, c))| > existentialNestingDepth
    }

    /** `_generate_target_obj_prop_nesting`: `existentialNestingDepth`
        distinct object properties.  The source redraws a random property
        until it is unused; the model draws among the unused ones. */
    method GenerateTargetObjPropNesting(og: OntologyGenerator) returns (props: seq<ObjectProperty>)
      requires og.Counted() && 0 <= existentialNestingDepth <= |og.objectProperties|
      ensures |props| == existentialNestingDepth
      ensures NoDup(props)
      ensures forall p | p in props :: p in og.objectProperties
    {
      og.CountedDistinct();
      props := [];
      for i := 0 to existentialNestingDepth
        invariant |props| == i && NoDup(props)
        invariant forall p | p in props :: p in og.objectProperties
      {
        var unused := FreshElement(og.objectProperties, props);
        var objProp :| objProp in og.objectProperties && objProp !in props;
        props := props + [objProp];
      }
    }

    /** One round of the `_get_final_filler` loop: the direct subclasses
        and the classes outside the subtree of `c`, and the test on their
        numbers. */
    method TestFinalFiller(og: OntologyGenerator, c: OwlClass) returns (qualifies: bool)
      requires og.Counted() && Ordered(og.classHierarchy) && c in og.classHierarchy
      ensures qualifies == IsFinalFiller(og.classHierarchy, og.classes, c)
    {
      var directSubClasses := og.AllDirectSubClasses(c);
      var complement := og.ClassesFromComplementOfSubtree(c);
      assert |complement| == |Without(og.classes, SubClasses(og.classHierarchy, c))| by {
        assert |multiset(complement)| == |multiset(og.ComplementOfSubtree(c))|;
      }
      qualifies := |directSubClasses| >= 2 && |complement| > existentialNestingDepth;
    }

    /** `_get_final_filler`.  The source redraws random classes until one is
        accepted and never stops when none is; the model scans the classes
        in a random order and reports `None` in that case. */
    method GetFinalFiller(og: OntologyGenerator) returns (r: Option<OwlClass>)
      requires og.Counted() && Ordered(og.classHierarchy)
      requires forall c | c in og.classes :: c in og.classHierarchy
      ensures r.Some? ==> r.value in og.classes && IsFinalFiller(og.classHierarchy, og.classes, r.value)
      ensures r.None? <==> forall c | c in og.classes :: !IsFinalFiller(og.classHierarchy, og.classes, c)
    {
      var h, classes := og.classHierarchy, og.classes;
      assert multiset(classes) == multiset(classes);
      var candidates: seq<OwlClass> :| multiset(candidates) == multiset(classes);
      forall k | 0 <= k < |candidates| ensures candidates[k] in classes {
        assert candidates[k] in multiset(candidates);
      }
      for i := 0 to |candidates|
        invariant forall k | 0 <= k < |candidates| :: candidates[k] in classes
        invariant forall k | 0 <= k < i :: !IsFinalFiller(h, classes, candidates[k])
      {
        var qualifies := TestFinalFiller(og, candidates[i]);
        if qualifies {
          return Some(candidates[i]);
        }
      }
      forall c | c in classes ensures !IsFinalFiller(h, classes, c) {
        assert c in multiset(candidates);
        var k :| 0 <= k < |candidates| && candidates[k] == c;
      }
      return None;
    }

    /** Lines 594-606 of `generate_scenario`: a fresh generator with the
        configured numbers of classes, object and data properties, and the
        random class hierarchy over the classes. */
    method BuildOntology(ontologyPrefix: string) returns (og: OntologyGenerator)
      ensures fresh(og) && og.Valid() && og.HierarchyBuilt() && og.individuals == []
      ensures EdgesAsserted(og.axioms, og.classHierarchy) && OnlyEdgesAsserted(og.axioms, og.classHierarchy)
      ensures NoTypes(og.axioms)
      ensures |og.classes| == Repeats(numClasses) && |og.objectProperties| == Repeats(numObjectProperties)
      ensures |og.dataProperties| == Repeats(numDataProperties)
    {
      og := new OntologyGenerator(ontologyPrefix);
      assert og.individuals == [] && og.classes == [] && og.objectProperties == [] && og.dataProperties == [];
      AddClasses(og, numClasses);
      AddObjectProperties(og, numObjectProperties);
      AddDataProperties(og, numDataProperties);
      ghost var ax := og.axioms;
      og.InitRandomClassHierarchy();
      TreeEdgesOnly(ax, og.classHierarchy, og.parent, og.classes);
    }

    /** Lines 608-620 of `generate_scenario`: the positive examples, the
        negative examples and the other individuals, in that order; the
        hierarchy and the asserted edges stay. */
    method CreateIndividuals(og: OntologyGenerator)
      returns (posExamples: seq<Individual>, negExamples: seq<Individual>, nonExamples: seq<Individual>)
      requires og.Valid() && og.individuals == []
      modifies og`individuals, og`axioms, og`indivCntr
      ensures og.Valid() && old(og.axioms) <= og.axioms && NoTypesAdded(old(og.axioms), og.axioms)
      ensures NoEdgesAdded(old(og.axioms), og.axioms)
      ensures og.individuals == posExamples + negExamples + nonExamples
      ensures |posExamples| == Repeats(numPosExamples) && |negExamples| == Repeats(numNegExamples)
      ensures |nonExamples| == Repeats(NumNonExampleIndividuals())
      ensures forall x | x in posExamples :: x.localPrefix == "pos_indiv"
      ensures forall x | x in negExamples :: x.localPrefix == "neg_indiv"
      ensures forall x | x in nonExamples :: x.localPrefix == "indiv"
    {
      posExamples := AddIndividuals(og, numPosExamples, "pos_indiv");
      assert og.individuals == posExamples;
      negExamples := AddIndividuals(og, numNegExamples, "neg_indiv");
      nonExamples := AddIndividuals(og, NumNonExampleIndividuals(), "indiv");
    }

    /** Lines 636-700 of `generate_scenario`: the property chain, its domains
        and ranges, and the positive and the negative target expressions. */
    method SetUpChain(og: OntologyGenerator, filler: OwlClass, posFiller: OwlClass, negFiller: OwlClass)
      returns (props: seq<ObjectProperty>, domains: seq<OwlClass>, ranges: seq<OwlClass>,
               target: ClassExpression, negative: ClassExpression)
      requires og.Valid() && og.HierarchyBuilt() && filler in og.classes
      requires IsFinalFiller(og.classHierarchy, og.classes, filler)
      requires 2 <= existentialNestingDepth <= |og.objectProperties|
      modifies og`objectPropertyDomains, og`objectPropertyRanges, og`axioms
      ensures og.Valid() && old(og.axioms) <= og.axioms && NoTypesAdded(old(og.axioms), og.axioms)
      ensures NoEdgesAdded(old(og.axioms), og.axioms)
      ensures |props| == existentialNestingDepth && NoDup(props)
      ensures forall p | p in props :: p in og.objectProperties
      ensures ChainClasses(og.classHierarchy, og.classes, filler, props, domains, ranges)
      ensures ChainRecorded(og.objectPropertyDomains, og.objectPropertyRanges, props, domains, ranges)
      ensures DomainRangeAxioms(props, domains, ranges) <= og.axioms
      ensures target == Nest(props, posFiller) && negative == Nest(props, negFiller)
    {
      props := GenerateTargetObjPropNesting(og);
      ghost var domains0, ranges0 := og.objectPropertyDomains, og.objectPropertyRanges;
      domains, ranges := DrawChainClasses(og, props, filler);
      DomainRangeUntyped(props, domains, ranges);
      AssignedLookup(domains0, props, domains);
      AssignedLookup(ranges0, props, ranges);
      target := BuildNestedExpression(props, posFiller);
      negative := BuildNestedExpression(props, negFiller);
    }

    /** `generate_scenario` up to the chain walks (lines 594-777 and
        867-902) and its result (lines 1361-1365).  Every positive example
        reaches, in `existentialNestingDepth` links through fresh individuals,
        a told instance of the positive filler, and so is a told instance of
        the target concept; the negative examples do the same along the same
        properties with the negative filler, a sibling of the positive one
        below the range of the last property. */
    method GenerateScenario(ontologyPrefix: string)
      returns (r: Result<LearningScenario, GenerationError>, negativeConcept: ClassExpression,
               leftover: seq<Individual>, ghost walked: seq<Individual>, ghost h: Hierarchy,
               ghost parent: map<OwlClass, OwlClass>, ghost classes: seq<OwlClass>, ghost examples: seq<Individual>)
      requires Admissible() && existentialNestingDepth >= 2 && numPosExamples >= 0 && numNegExamples >= 0
      ensures IsTree(h, parent, classes) && |classes| == Repeats(numClasses)
      ensures r.Failure? <==> forall c | c in classes :: !IsFinalFiller(h, classes, c)
      ensures r.Failure? ==> r.error == NoFillerClass
      ensures r.Success? ==> EdgesAsserted(r.value.backgroundKnowledge, h) && OnlyEdgesAsserted(r.value.backgroundKnowledge, h)
      ensures r.Success? ==> OwnChains(r.value, negativeConcept, h, examples, numPosExamples, walked)
      ensures r.Success? ==> ScenarioShape(r.value, negativeConcept, existentialNestingDepth)
      ensures r.Success? ==> |r.value.positiveExamples| == numPosExamples && |r.value.negativeExamples| == numNegExamples
      ensures r.Success? ==> Separated(r.value, negativeConcept, walked)
      ensures r.Success? ==>
                && |walked| == existentialNestingDepth * (numPosExamples + numNegExamples)
                && |leftover| == NumNonExampleIndividuals() - existentialNestingDepth * (numPosExamples + numNegExamples)
                && NoDup(walked + leftover)
                && forall x | x in walked + leftover :: x !in r.value.positiveExamples && x !in r.value.negativeExamples
    {
      MulNonNegative(existentialNestingDepth, numPosExamples + numNegExamples);
      var og, posExamples, negExamples, nonExamples := PrepareOntology(ontologyPrefix);
      h, parent, classes, examples := og.classHierarchy, og.parent, og.classes, posExamples + negExamples;
      var found := GetFinalFiller(og);
      if found.None? {
        r, negativeConcept, leftover, walked := Failure(NoFillerClass), Atomic(Thing), [], [];
        return;
      }
      var scenario;
      scenario, negativeConcept, leftover, walked := BuildScenario(og, found.value, posExamples, negExamples, nonExamples);
      r := Success(scenario);
    }

    /** Lines 594-621 of `generate_scenario`: the ontology with its
        hierarchy, then the individuals, none of them typed yet. */
    method PrepareOntology(ontologyPrefix: string)
      returns (og: OntologyGenerator, posExamples: seq<Individual>, negExamples: seq<Individual>,
               nonExamples: seq<Individual>)
      requires Admissible() && existentialNestingDepth >= 2 && numPosExamples >= 0 && numNegExamples >= 0
      ensures fresh(og) && og.Valid() && og.HierarchyBuilt() && |og.classes| == Repeats(numClasses)
      ensures |og.objectProperties| == Repeats(numObjectProperties) && |og.dataProperties| == Repeats(numDataProperties)
      ensures EdgesAsserted(og.axioms, og.classHierarchy) && OnlyEdgesAsserted(og.axioms, og.classHierarchy)
      ensures NoTypes(og.axioms)
      ensures og.individuals == posExamples + negExamples + nonExamples && NoDup(og.individuals)
      ensures |posExamples| == numPosExamples && |negExamples| == numNegExamples
      ensures |nonExamples| == NumNonExampleIndividuals()
    {
      MulNonNegative(existentialNestingDepth, numPosExamples + numNegExamples);
      assert Repeats(NumNonExampleIndividuals()) == NumNonExampleIndividuals();
      og := BuildOntology(ontologyPrefix);
      ghost var ax0 := og.axioms;
      posExamples, negExamples, nonExamples := CreateIndividuals(og);
      og.CountedDistinct();
      EdgesAssertedGrow(ax0, og.axioms, og.classHierarchy);
      StillOnlyEdges(ax0, ax0, og.axioms, og.classHierarchy);
      StillNoTypes(ax0, ax0, og.axioms);
    }

    /** The constructor's bound, stated on the individuals created. */
    lemma CountsAgree(depth: nat, posExamples: seq<Individual>, negExamples: seq<Individual>, nonExamples: seq<Individual>)
      requires Admissible() && depth == existentialNestingDepth
      requires |posExamples| == numPosExamples && |negExamples| == numNegExamples
      requires |nonExamples| == NumNonExampleIndividuals()
      ensures depth * (|posExamples| + |negExamples|) <= |nonExamples|
      ensures depth * (|posExamples| + |negExamples|) == existentialNestingDepth * (numPosExamples + numNegExamples)
    { }

    /** Lines 626-714 of `generate_scenario`: the two fillers below
        `filler`, the chain, and the other properties' domains and ranges. */
    method PrepareChain(og: OntologyGenerator, filler: OwlClass)
      returns (posFiller: OwlClass, negFiller: OwlClass, props: seq<ObjectProperty>, domains: seq<OwlClass>,
               ranges: seq<OwlClass>, target: ClassExpression, negative: ClassExpression)
      requires og.Valid() && og.HierarchyBuilt() && EdgesAsserted(og.axioms, og.classHierarchy)
      requires filler in og.classes && IsFinalFiller(og.classHierarchy, og.classes, filler)
      requires 2 <= existentialNestingDepth <= |og.objectProperties| && NoTypes(og.axioms)
      requires OnlyEdgesAsserted(og.axioms, og.classHierarchy)
      modifies og`objectPropertyDomains, og`objectPropertyRanges, og`axioms
      ensures og.Valid() && EdgesAsserted(og.axioms, og.classHierarchy) && NoTypes(og.axioms)
      ensures OnlyEdgesAsserted(og.axioms, og.classHierarchy)
      ensures posFiller != negFiller && posFiller in og.classHierarchy[filler] && negFiller in og.classHierarchy[filler]
      ensures |props| == existentialNestingDepth && NoDup(props)
      ensures forall p | p in props :: p in og.objectProperties
      ensures ChainClasses(og.classHierarchy, og.classes, filler, props, domains, ranges)
      ensures DomainRangeAxioms(props, domains, ranges) <= og.axioms
      ensures forall p | p in og.objectProperties && p !in props ::
                && p in og.objectPropertyDomains && og.objectPropertyDomains[p] in og.classes
                && p in og.objectPropertyRanges && og.objectPropertyRanges[p] in og.classes
      ensures target == Nest(props, posFiller) && negative == Nest(props, negFiller)
    {
      ghost var ax0 := og.axioms;
      posFiller, negFiller := PickFillerSubclasses(og, filler);
      props, domains, ranges, target, negative := SetUpChain(og, filler, posFiller, negFiller);
      ghost var ax1 := og.axioms;
      AssignRemainingDomainsAndRanges(og, props);
      EdgesAssertedGrow(ax0, og.axioms, og.classHierarchy);
      StillNoTypes(ax0, ax1, og.axioms);
      StillOnlyEdges(ax0, ax1, og.axioms, og.classHierarchy);
    }

    /** Lines 623-777 of `generate_scenario`: the chain, then the walks. */
    method BuildScenario(og: OntologyGenerator, filler: OwlClass, posExamples: seq<Individual>,
                         negExamples: seq<Individual>, nonExamples: seq<Individual>)
      returns (scenario: LearningScenario, negativeConcept: ClassExpression,
               leftover: seq<Individual>, ghost walked: seq<Individual>)
      requires og.Valid() && og.HierarchyBuilt() && EdgesAsserted(og.axioms, og.classHierarchy)
      requires filler in og.classes && IsFinalFiller(og.classHierarchy, og.classes, filler)
      requires og.individuals == posExamples + negExamples + nonExamples && NoDup(og.individuals)
      requires Admissible() && 2 <= existentialNestingDepth <= |og.objectProperties|
      requires |posExamples| == numPosExamples && |negExamples| == numNegExamples
      requires |nonExamples| == NumNonExampleIndividuals() && NoTypes(og.axioms)
      requires OnlyEdgesAsserted(og.axioms, og.classHierarchy)
      modifies og`objectPropertyDomains, og`objectPropertyRanges, og`axioms, og`individualsTypes
      ensures EdgesAsserted(scenario.backgroundKnowledge, og.classHierarchy)
      ensures OnlyEdgesAsserted(scenario.backgroundKnowledge, og.classHierarchy)
      ensures ScenarioShape(scenario, negativeConcept, existentialNestingDepth)
      ensures |scenario.positiveExamples| == numPosExamples && |scenario.negativeExamples| == numNegExamples
      ensures Separated(scenario, negativeConcept, walked)
      ensures OwnChains(scenario, negativeConcept, og.classHierarchy, posExamples + negExamples, numPosExamples, walked)
      ensures && |walked| == existentialNestingDepth * (numPosExamples + numNegExamples)
              && |leftover| == NumNonExampleIndividuals() - existentialNestingDepth * (numPosExamples + numNegExamples)
              && NoDup(walked + leftover)
              && forall x | x in walked + leftover :: x !in scenario.positiveExamples && x !in scenario.negativeExamples
    {
      var posFiller, negFiller, props, domains, ranges, target, negative := PrepareChain(og, filler);
      CountsAgree(|props|, posExamples, negExamples, nonExamples);
      scenario, leftover, walked := WalkScenario(og, posExamples, negExamples, nonExamples, filler, posFiller, negFiller,
                                                 props, domains, ranges, target, negative);
      negativeConcept := negative;
    }
  }

  /** Lines 716-777 and 867-902 of `generate_scenario` and its result: the
      pool, the walks, and the scenario with the final axioms. */
  method WalkScenario(og: OntologyGenerator, posExamples: seq<Individual>, negExamples: seq<Individual>,
                      nonExamples: seq<Individual>, filler: OwlClass, posFiller: OwlClass, negFiller: OwlClass,
                      props: seq<ObjectProperty>, domains: seq<OwlClass>, ranges: seq<OwlClass>,
                      target: ClassExpression, negative: ClassExpression)
    returns (scenario: LearningScenario, leftover: seq<Individual>, ghost walked: seq<Individual>)
    requires og.Valid() && og.HierarchyBuilt() && EdgesAsserted(og.axioms, og.classHierarchy)
    requires og.individuals == posExamples + negExamples + nonExamples && NoDup(og.individuals)
    requires |props| * (|posExamples| + |negExamples|) <= |nonExamples|
    requires filler in og.classes && posFiller in og.classHierarchy[filler] && negFiller in og.classHierarchy[filler]
    requires posFiller != negFiller
    requires NoDup(props) && forall p | p in props :: p in og.objectProperties
    requires ChainClasses(og.classHierarchy, og.classes, filler, props, domains, ranges)
    requires DomainRangeAxioms(props, domains, ranges) <= og.axioms
    requires target == Nest(props, posFiller) && negative == Nest(props, negFiller)
    requires NoTypes(og.axioms) && OnlyEdgesAsserted(og.axioms, og.classHierarchy)
    modifies og`axioms, og`individualsTypes
    ensures EdgesAsserted(scenario.backgroundKnowledge, og.classHierarchy)
    ensures OnlyEdgesAsserted(scenario.backgroundKnowledge, og.classHierarchy)
    ensures ScenarioShape(scenario, negative, |props|)
    ensures |scenario.positiveExamples| == |posExamples| && |scenario.negativeExamples| == |negExamples|
    ensures Separated(scenario, negative, walked)
    ensures OwnChains(scenario, negative, og.classHierarchy, posExamples + negExamples, |posExamples|, walked)
    ensures && |walked| == |props| * (|posExamples| + |negExamples|)
            && |leftover| == |nonExamples| - |walked|
            && NoDup(walked + leftover)
            && forall x | x in walked + leftover :: x !in scenario.positiveExamples && x !in scenario.negativeExamples
  {
    ghost var h, parent, classes, ax0 := og.classHierarchy, og.parent, og.classes, og.axioms;
    assert IsTree(h, parent, classes);
    var pool := PreparePool(og.individuals, posExamples, negExamples, nonExamples);
    NoTypesUntyped(og.axioms, pool);
    ChainInTree(h, parent, classes, filler, props, domains, ranges);
    assert posFiller in h && negFiller in h;
    leftover, walked := WalkAllChains(og, posExamples, negExamples, pool, props, domains, ranges, posFiller, negFiller);
    scenario := LearningScenario(Elements(posExamples), Elements(negExamples), target, og.axioms);
    NoDupSplit(posExamples + negExamples, nonExamples);
    EdgesAssertedGrow(ax0, og.axioms, h);
    StillOnlyEdges(ax0, ax0, og.axioms, h);
    ScenarioFacts(scenario, negative, walked, h, parent, classes, ax0, ax0,
                  filler, posFiller, negFiller, props, domains, ranges, posExamples, negExamples);
    OwnChainsFacts(scenario, negative, h, parent, classes, filler, posFiller, negFiller, props,
                   posExamples, negExamples, walked);
  }

  /** The walks read off the scenario: example `k` of the positives
      followed by the negatives walked its own block of `walked`, along the
      target's properties, to an individual typed under its own filler and
      under no class below the other one. */
  lemma OwnChainsFacts(s: LearningScenario, negativeConcept: ClassExpression, h: Hierarchy,
                       parent: map<OwlClass, OwlClass>, classes: seq<OwlClass>, filler: OwlClass,
                       posFiller: OwlClass, negFiller: OwlClass, props: seq<ObjectProperty>,
                       pos: seq<Individual>, neg: seq<Individual>, walked: seq<Individual>)
    requires IsTree(h, parent, classes) && filler in h && posFiller in h[filler] && negFiller in h[filler]
    requires OnlyEdgesAsserted(s.backgroundKnowledge, h)
    requires posFiller != negFiller && 1 <= |props|
    requires s.targetConcept == Nest(props, posFiller) && negativeConcept == Nest(props, negFiller)
    requires s.positiveExamples == Elements(pos) && s.negativeExamples == Elements(neg) && NoDup(pos + neg)
    requires |walked| == |props| * (|pos| + |neg|)
    requires forall k | 0 <= k < |pos| + |neg| ::
               BlockWalked(s.backgroundKnowledge, h, (pos + neg)[k], props, BlockOf(walked, |props|, k),
                           FillerOf(k, |pos|, posFiller, negFiller))
    ensures OwnChains(s, negativeConcept, h, pos + neg, |pos|, walked)
  {
    SpineOfNest(props, posFiller);
    SpineOfNest(props, negFiller);
    var examples := pos + neg;
    assert examples[..|pos|] == pos && examples[|pos|..] == neg;
    forall k | 0 <= k < |examples| ensures OwnChainAt(s, negativeConcept, h, examples, |pos|, walked, k) {
      OwnChainFacts(s, negativeConcept, h, parent, classes, filler, posFiller, negFiller, props, examples, |pos|, walked, k);
    }
  }

  /** The exclusive half for one example. */
  lemma OwnChainFacts(s: LearningScenario, negativeConcept: ClassExpression, h: Hierarchy,
                      parent: map<OwlClass, OwlClass>, classes: seq<OwlClass>, filler: OwlClass,
                      posFiller: OwlClass, negFiller: OwlClass, props: seq<ObjectProperty>,
                      examples: seq<Individual>, nPos: nat, walked: seq<Individual>, k: nat)
    requires IsTree(h, parent, classes) && filler in h && posFiller in h[filler] && negFiller in h[filler]
    requires posFiller != negFiller && OnlyEdgesAsserted(s.backgroundKnowledge, h) && k < |examples|
    requires Spine(s.targetConcept) == props
    requires InnerClass(s.targetConcept) == posFiller && InnerClass(negativeConcept) == negFiller
    requires BlockWalked(s.backgroundKnowledge, h, examples[k], props, BlockOf(walked, |props|, k),
                         FillerOf(k, nPos, posFiller, negFiller))
    ensures OwnChainAt(s, negativeConcept, h, examples, nPos, walked, k)
  {
    var own, other := FillerOf(k, nPos, posFiller, negFiller), FillerOf(k, nPos, negFiller, posFiller);
    var y := BlockOf(walked, |props|, k)[|props| - 1];
    ExclusiveFiller(s.backgroundKnowledge, h, parent, classes, filler, own, other, y);
    NotToldUnderSibling(s.backgroundKnowledge, h, parent, classes, filler, own, other, y);
  }

  /** The shape of a generated scenario: the target concept nests
      `depth` distinct object properties, declared in the background
      knowledge, around a class; the negative concept nests the same
      properties around a different class; and both classes are children of
      one class, the range of the last property. */
  ghost predicate ScenarioShape(s: LearningScenario, negativeConcept: ClassExpression, depth: int) {
    var props := Spine(s.targetConcept);
    && |props| == depth >= 1 && NoDup(props)
    && (forall p | p in props :: ObjectPropertyDeclaration(p) in s.backgroundKnowledge)
    && Spine(negativeConcept) == props
    && InnerClass(negativeConcept) != InnerClass(s.targetConcept)
    && exists f :: && SubClassOf(InnerClass(s.targetConcept), f) in s.backgroundKnowledge
                   && SubClassOf(InnerClass(negativeConcept), f) in s.backgroundKnowledge
                   && ObjectPropertyRange(props[|props| - 1], f) in s.backgroundKnowledge
  }

  lemma NoTypesUntyped(ax: set<Axiom>, ys: seq<Individual>)
    requires NoTypes(ax)
    ensures Untyped(ax, ys)
  {
  }

  /** What separates the examples: the two example sets are disjoint, every
      positive example reaches a told instance of the target's inner class
      along its properties, and so is a told instance of the target concept,
      and likewise every negative example with the negative concept; all
      links run through individuals of `walked`. */
  ghost predicate Separated(s: LearningScenario, negativeConcept: ClassExpression, walked: seq<Individual>) {
    var bk := s.backgroundKnowledge;
    && s.positiveExamples !! s.negativeExamples
    && (forall x | x in s.positiveExamples ::
          && ReachesFiller(bk, x, Spine(s.targetConcept), InnerClass(s.targetConcept), walked)
          && AssertedInstanceOf(bk, x, s.targetConcept))
    && (forall x | x in s.negativeExamples ::
          && ReachesFiller(bk, x, Spine(negativeConcept), InnerClass(negativeConcept), walked)
          && AssertedInstanceOf(bk, x, negativeConcept))
  }

  /** The facts the pipeline has established, read off the scenario it returns. */
  lemma ScenarioFacts(s: LearningScenario, negativeConcept: ClassExpression, walked: seq<Individual>,
                      h: Hierarchy, parent: map<OwlClass, OwlClass>, classes: seq<OwlClass>,
                      ax0: set<Axiom>, ax1: set<Axiom>, filler: OwlClass, posFiller: OwlClass, negFiller: OwlClass,
                      props: seq<ObjectProperty>, domains: seq<OwlClass>, ranges: seq<OwlClass>,
                      posExamples: seq<Individual>, negExamples: seq<Individual>)
    requires s.positiveExamples == Elements(posExamples) && s.negativeExamples == Elements(negExamples)
    requires s.targetConcept == Nest(props, posFiller) && negativeConcept == Nest(props, negFiller)
    requires IsTree(h, parent, classes) && EdgesAsserted(ax0, h) && ax0 <= ax1 <= s.backgroundKnowledge
    requires filler in h && posFiller in h[filler] && negFiller in h[filler] && posFiller != negFiller
    requires NoDup(props) && forall p | p in props :: ObjectPropertyDeclaration(p) in s.backgroundKnowledge
    requires ChainClasses(h, classes, filler, props, domains, ranges)
    requires DomainRangeAxioms(props, domains, ranges) <= ax1
    requires NoDup(posExamples + negExamples)
    requires forall x | x in posExamples :: ReachesFiller(s.backgroundKnowledge, x, props, posFiller, walked)
    requires forall x | x in negExamples :: ReachesFiller(s.backgroundKnowledge, x, props, negFiller, walked)
    ensures ScenarioShape(s, negativeConcept, |props|)
    ensures |s.positiveExamples| == |posExamples| && |s.negativeExamples| == |negExamples|
    ensures Separated(s, negativeConcept, walked)
  {
    var bk := s.backgroundKnowledge;
    SpineOfNest(props, posFiller);
    SpineOfNest(props, negFiller);
    var d := |props|;
    assert ObjectPropertyRange(props[d - 1], filler) in bk by {
      assert ObjectPropertyRange(props[d - 1], ranges[d - 1]) in DomainRangeAxioms(props, domains, ranges);
    }
    assert SubClassOf(posFiller, filler) in bk && SubClassOf(negFiller, filler) in bk;
    NoDupSplit(posExamples, negExamples);
    ElementsOfDistinct(posExamples);
    ElementsOfDistinct(negExamples);
    forall x | x in s.positiveExamples ensures AssertedInstanceOf(bk, x, s.targetConcept) {
      ReachesFillerInstance(bk, x, props, posFiller, walked);
    }
    forall x | x in s.negativeExamples ensures AssertedInstanceOf(bk, x, negativeConcept) {
      ReachesFillerInstance(bk, x, props, negFiller, walked);
    }
  }

  /** The chain's classes are classes of the tree. */
  lemma ChainInTree(h: Hierarchy, parent: map<OwlClass, OwlClass>, classes: seq<OwlClass>, filler: OwlClass,
                    props: seq<ObjectProperty>, domains: seq<OwlClass>, ranges: seq<OwlClass>)
    requires IsTree(h, parent, classes) && filler in classes
    requires ChainClasses(h, classes, filler, props, domains, ranges)
    ensures domains[0] in h && forall i | 0 <= i < |ranges| :: ranges[i] in h
  {
    LinkedInTree(h, classes, filler, domains, ranges);
  }

  /** ... stated on the links alone. */
  lemma LinkedInTree(h: Hierarchy, classes: seq<OwlClass>, filler: OwlClass, domains: seq<OwlClass>,
                     ranges: seq<OwlClass>)
    requires (forall c | c in classes :: c in h) && filler in classes
    requires |domains| == |ranges| >= 1 && ranges[|ranges| - 1] == filler
    requires forall i | 0 <= i < |ranges| - 1 :: domains[i + 1] == ranges[i]
    requires forall c | c in domains :: c in classes
    ensures domains[0] in h && forall i | 0 <= i < |ranges| :: ranges[i] in h
  {
    assert domains[0] in domains;
    forall i | 0 <= i < |ranges| ensures ranges[i] in h {
      if i < |ranges| - 1 {
        assert ranges[i] == domains[i + 1] && domains[i + 1] in domains;
      }
    }
  }

  /** The constructor: the parameters are kept, and rejected when either
      condition of `Admissible` fails; too few individuals is reported
      first. */
  function NewScenario1Generator(
    numPosExamples: int := 50,
    numNegExamples: int := 50,
    numClasses: int := 30,
    numObjectProperties: int := 10,
    numDataProperties: int := 5,
    numOverallIndividuals: int := 500,
    existentialNestingDepth: int := 2): (r: Result<Scenario1Generator, ConfigError>)
    ensures var g := Scenario1Generator(numPosExamples, numNegExamples, numClasses, numObjectProperties,
                                        numDataProperties, numOverallIndividuals, existentialNestingDepth);
            && (r.Success? <==> g.Admissible())
            && (r.Success? ==> r.value == g)
            && (r.Failure? ==> (r.error == TooFewIndividuals <==>
                  g.NumNonExampleIndividuals() < existentialNestingDepth * (numPosExamples + numNegExamples)))
  {
    var g := Scenario1Generator(numPosExamples, numNegExamples, numClasses, numObjectProperties,
                                numDataProperties, numOverallIndividuals, existentialNestingDepth);
    if g.NumNonExampleIndividuals() < existentialNestingDepth * (numPosExamples + numNegExamples) then
      Failure(TooFewIndividuals)
    else if numObjectProperties < existentialNestingDepth then
      Failure(TooFewObjectProperties)
    else
      Success(g)
  }

  /** The constructor's two bounds are tight: with 20 positive and 20
      negative examples and depth 5, 240 individuals are enough and 239 are
      not; with depth 2, two object properties are enough and one is not;
      and the default parameters are accepted. */
  lemma ConstructorBounds()
    ensures NewScenario1Generator().Success?
    ensures NewScenario1Generator(numPosExamples := 20, numNegExamples := 20,
                                  numOverallIndividuals := 250, existentialNestingDepth := 5).Success?
    ensures NewScenario1Generator(numPosExamples := 20, numNegExamples := 20,
                                  numOverallIndividuals := 240, existentialNestingDepth := 5).Success?
    ensures NewScenario1Generator(numPosExamples := 20, numNegExamples := 20,
                                  numOverallIndividuals := 239, existentialNestingDepth := 5)
            == Failure(TooFewIndividuals)
    ensures NewScenario1Generator(numObjectProperties := 20, existentialNestingDepth := 2).Success?
    ensures NewScenario1Generator(numObjectProperties := 2, existentialNestingDepth := 2).Success?
    ensures NewScenario1Generator(numObjectProperties := 1, existentialNestingDepth := 2)
            == Failure(TooFewObjectProperties)
  {
  }

  /** Lines 626-634 of `generate_scenario`: the positive and the negative
      filler are popped from a shuffled copy of the child list of `filler`,
      so they are two different children of it; the hierarchy itself is not
      touched. */
  method PickFillerSubclasses(og: OntologyGenerator, filler: OwlClass) returns (posFiller: OwlClass, negFiller: OwlClass)
    requires og.HierarchyBuilt() && filler in og.classHierarchy && |og.classHierarchy[filler]| >= 2
    ensures posFiller != negFiller
    ensures posFiller in og.classHierarchy[filler] && negFiller in og.classHierarchy[filler]
    ensures og.parent[posFiller] == filler && og.parent[negFiller] == filler
  {
    var direct := og.AllDirectSubClasses(filler);
    assert multiset(direct) == multiset(direct);
    var shuffled: seq<OwlClass> :| multiset(shuffled) == multiset(direct);
    PermutationKeepsNoDup(direct, shuffled);
    assert |shuffled| == |multiset(shuffled)| == |direct|;
    assert shuffled[0] in multiset(shuffled) && shuffled[1] in multiset(shuffled);
    posFiller := shuffled[0];
    shuffled := shuffled[1..];
    negFiller := shuffled[0];
  }

  /** `m` with `keys[i]` mapped to `values[i]`, assigned in order. */
  function Assigned<K, V>(m: map<K, V>, keys: seq<K>, values: seq<V>): map<K, V>
    requires |keys| == |values|
    decreases |keys|
  {
    if keys == [] then m
    else
      var n := |keys| - 1;
      Assigned(m, keys[..n], values[..n])[keys[n] := values[n]]
  }

  /** Assigning distinct keys: each key gets its own value, every other
      entry is kept. */
  lemma {:induction false} AssignedLookup<K, V>(m: map<K, V>, keys: seq<K>, values: seq<V>)
    requires |keys| == |values| && NoDup(keys)
    ensures forall i | 0 <= i < |keys| :: keys[i] in Assigned(m, keys, values) && Assigned(m, keys, values)[keys[i]] == values[i]
    ensures forall k | k !in keys :: (k in Assigned(m, keys, values) <==> k in m)
    ensures forall k | k !in keys && k in m :: Assigned(m, keys, values)[k] == m[k]
    decreases |keys|
  {
    if keys != [] {
      var n := |keys| - 1;
      var keys', values' := keys[..n], values[..n];
      assert NoDup(keys') by {
        forall i, j | 0 <= i < j < n ensures keys'[i] != keys'[j] {
          assert keys'[i] == keys[i] && keys'[j] == keys[j];
        }
      }
      AssignedLookup(m, keys', values');
      var before := Assigned(m, keys', values');
      assert Assigned(m, keys, values) == before[keys[n] := values[n]];
      forall i | 0 <= i < n
        ensures keys[i] in Assigned(m, keys, values) && Assigned(m, keys, values)[keys[i]] == values[i]
      {
        assert keys'[i] == keys[i] && values'[i] == values[i] && keys[i] != keys[n];
      }
    }
  }

  /** The domain and range axioms of `props[i]` with `domains[i]` and
      `ranges[i]`. */
  function DomainRangeAxioms(props: seq<ObjectProperty>, domains: seq<OwlClass>, ranges: seq<OwlClass>): (r: set<Axiom>)
    requires |props| == |domains| == |ranges|
    ensures forall i | 0 <= i < |props| ::
              ObjectPropertyDomain(props[i], domains[i]) in r && ObjectPropertyRange(props[i], ranges[i]) in r
    decreases |props|
  {
    if props == [] then {}
    else
      var n := |props| - 1;
      var before := DomainRangeAxioms(props[..n], domains[..n], ranges[..n]);
      assert forall i | 0 <= i < n :: props[..n][i] == props[i] && domains[..n][i] == domains[i] && ranges[..n][i] == ranges[i];
      before + {ObjectPropertyDomain(props[n], domains[n]), ObjectPropertyRange(props[n], ranges[n])}
  }

  /** The chain's domain and range axioms type no individual and relate
      no two classes. */
  lemma {:induction false} DomainRangeUntyped(props: seq<ObjectProperty>, domains: seq<OwlClass>, ranges: seq<OwlClass>)
    requires |props| == |domains| == |ranges|
    ensures NoTypes(DomainRangeAxioms(props, domains, ranges)) && NoEdges(DomainRangeAxioms(props, domains, ranges))
    decreases |props|
  {
    if props != [] {
      var n := |props| - 1;
      DomainRangeUntyped(props[..n], domains[..n], ranges[..n]);
    }
  }

  /** ... and nothing but those: every axiom of `DomainRangeAxioms` is the
      domain or the range axiom of one position. */
  lemma {:induction false} DomainRangeAxiomsOnly(props: seq<ObjectProperty>, domains: seq<OwlClass>, ranges: seq<OwlClass>, a: Axiom)
    requires |props| == |domains| == |ranges|
    requires a in DomainRangeAxioms(props, domains, ranges)
    ensures exists i | 0 <= i < |props| :: a == ObjectPropertyDomain(props[i], domains[i]) || a == ObjectPropertyRange(props[i], ranges[i])
    decreases |props|
  {
    var n := |props| - 1;
    if a !in {ObjectPropertyDomain(props[n], domains[n]), ObjectPropertyRange(props[n], ranges[n])} {
      DomainRangeAxiomsOnly(props[..n], domains[..n], ranges[..n], a);
      var i :| 0 <= i < n && (a == ObjectPropertyDomain(props[..n][i], domains[..n][i]) || a == ObjectPropertyRange(props[..n][i], ranges[..n][i]));
      assert props[..n][i] == props[i] && domains[..n][i] == domains[i] && ranges[..n][i] == ranges[i];
    }
  }

  /** Lines 648-684 of `generate_scenario`: the domains and ranges of the
      chain.  `candidates` is the shuffled complement of the filler subtree;
      the first round pops a domain and a range from it, each later round
      reuses the previous range as domain and pops a range, and the last
      property gets the previous range as domain and `filler` as range.
      That is `|props|` pops in all. */
  method AssignChainDomainsAndRanges(og: OntologyGenerator, props: seq<ObjectProperty>, filler: OwlClass,
                                     candidates: seq<OwlClass>)
    returns (domains: seq<OwlClass>, ranges: seq<OwlClass>)
    requires og.Valid() && 2 <= |props| <= |candidates|
    modifies og`objectPropertyDomains, og`objectPropertyRanges, og`axioms
    ensures og.Valid()
    ensures |domains| == |ranges| == |props|
    ensures forall i | 0 <= i < |props| - 1 :: domains[i + 1] == ranges[i]
    ensures ranges[|props| - 1] == filler
    ensures domains == candidates[..|props|] && ranges == candidates[1..|props|] + [filler]
    ensures og.objectPropertyDomains == Assigned(old(og.objectPropertyDomains), props, domains)
    ensures og.objectPropertyRanges == Assigned(old(og.objectPropertyRanges), props, ranges)
    ensures og.axioms == old(og.axioms) + DomainRangeAxioms(props, domains, ranges)
  {
    var d := |props|;
    domains, ranges := [], [];
    var pool := candidates;
    var lastRange: Option<OwlClass> := None;
    for i := 0 to d - 1
      invariant og.Valid()
      invariant |domains| == |ranges| == i
      invariant i == 0 <==> lastRange.None?
      invariant i > 0 ==> lastRange == Some(ranges[i - 1]) && pool == candidates[i + 1..]
      invariant i == 0 ==> pool == candidates
      invariant domains == candidates[..i] && ranges == candidates[1..i + 1]
      invariant og.objectPropertyDomains == Assigned(old(og.objectPropertyDomains), props[..i], domains)
      invariant og.objectPropertyRanges == Assigned(old(og.objectPropertyRanges), props[..i], ranges)
      invariant og.axioms == old(og.axioms) + DomainRangeAxioms(props[..i], domains, ranges)
    {
      var objProp := props[i];
      var domain;
      if lastRange.None? {
        domain := pool[0];
        pool := pool[1..];
      } else {
        domain := lastRange.value;
      }
      var rnge := pool[0];
      pool := pool[1..];
      ChainStep(candidates, props, domains, ranges, domain, rnge, i);
      ChainGrow(old(og.objectPropertyDomains), old(og.objectPropertyRanges), props, domains, ranges, i, domain, rnge);
      domains := domains + [domain];
      ranges := ranges + [rnge];
      og.SetObjectPropertyDomainAndRange(objProp, domain, rnge);
      lastRange := Some(rnge);
    }
    ChainStep(candidates, props, domains, ranges, lastRange.value, filler, d - 1);
    ChainGrow(old(og.objectPropertyDomains), old(og.objectPropertyRanges), props, domains, ranges, d - 1,
              lastRange.value, filler);
    og.SetObjectPropertyDomainAndRange(props[d - 1], lastRange.value, filler);
    domains := domains + [lastRange.value];
    ranges := ranges + [filler];
    assert props[..d] == props;
  }

  /** One more chain property: its domain and range join the maps and the
      axioms. */
  lemma ChainGrow(doms: map<ObjectProperty, OwlClass>, rngs: map<ObjectProperty, OwlClass>, props: seq<ObjectProperty>,
                  domains: seq<OwlClass>, ranges: seq<OwlClass>, i: nat, domain: OwlClass, rnge: OwlClass)
    requires i < |props| && |domains| == |ranges| == i
    ensures Assigned(doms, props[..i + 1], domains + [domain]) == Assigned(doms, props[..i], domains)[props[i] := domain]
    ensures Assigned(rngs, props[..i + 1], ranges + [rnge]) == Assigned(rngs, props[..i], ranges)[props[i] := rnge]
    ensures DomainRangeAxioms(props[..i + 1], domains + [domain], ranges + [rnge]) ==
            DomainRangeAxioms(props[..i], domains, ranges) + {ObjectPropertyDomain(props[i], domain), ObjectPropertyRange(props[i], rnge)}
  {
    assert props[..i + 1][..i] == props[..i] && props[..i + 1][i] == props[i];
    assert (domains + [domain])[..i] == domains && (ranges + [rnge])[..i] == ranges;
  }

  /** The classes of a chain along `props` towards `filler`: one domain
      and one range per property, each domain after the first the range
      before it, the last range the filler, and the domains distinct
      classes outside the filler's subtree. */
  ghost predicate ChainClasses(h: Hierarchy, classes: seq<OwlClass>, filler: OwlClass, props: seq<ObjectProperty>,
                               domains: seq<OwlClass>, ranges: seq<OwlClass>)
  {
    && |domains| == |ranges| == |props| >= 1
    && (forall i | 0 <= i < |props| - 1 :: domains[i + 1] == ranges[i])
    && ranges[|props| - 1] == filler
    && NoDup(domains)
    && (forall c | c in domains :: c in classes && !InSubtree(h, filler, c))
  }

  /** The domain and range maps record the chain's classes for its properties. */
  ghost predicate ChainRecorded(doms: map<ObjectProperty, OwlClass>, rngs: map<ObjectProperty, OwlClass>,
                                props: seq<ObjectProperty>, domains: seq<OwlClass>, ranges: seq<OwlClass>)
  {
    && |domains| == |ranges| == |props|
    && (forall i | 0 <= i < |props| :: props[i] in doms && doms[props[i]] == domains[i])
    && (forall i | 0 <= i < |props| :: props[i] in rngs && rngs[props[i]] == ranges[i])
  }

  /** Lines 648-684 of `generate_scenario`: the chain's domains and ranges
      are popped from a shuffled copy of the complement of the filler
      subtree, so they are distinct classes outside that subtree. */
  method DrawChainClasses(og: OntologyGenerator, props: seq<ObjectProperty>, filler: OwlClass)
    returns (domains: seq<OwlClass>, ranges: seq<OwlClass>)
    requires og.Valid() && og.HierarchyBuilt() && filler in og.classHierarchy
    requires 2 <= |props| < |Without(og.classes, SubClasses(og.classHierarchy, filler))|
    modifies og`objectPropertyDomains, og`objectPropertyRanges, og`axioms
    ensures og.Valid()
    ensures ChainClasses(og.classHierarchy, og.classes, filler, props, domains, ranges)
    ensures og.objectPropertyDomains == Assigned(old(og.objectPropertyDomains), props, domains)
    ensures og.objectPropertyRanges == Assigned(old(og.objectPropertyRanges), props, ranges)
    ensures og.axioms == old(og.axioms) + DomainRangeAxioms(props, domains, ranges)
  {
    var complement := og.ClassesFromComplementOfSubtree(filler);
    assert multiset(complement) == multiset(complement);
    var candidates: seq<OwlClass> :| multiset(candidates) == multiset(complement);
    PermutationKeepsNoDup(complement, candidates);
    assert |candidates| == |multiset(candidates)| == |multiset(og.ComplementOfSubtree(filler))|;
    ghost var classes, h := og.classes, og.classHierarchy;
    forall c | c in candidates ensures c in classes && !InSubtree(h, filler, c) {
      assert c in multiset(candidates);
    }
    domains, ranges := AssignChainDomainsAndRanges(og, props, filler, candidates);
    PrefixDistinct(candidates, |props|);
  }

  /** One round of the chain loop, on values. */
  lemma ChainStep(candidates: seq<OwlClass>, props: seq<ObjectProperty>, domains: seq<OwlClass>, ranges: seq<OwlClass>,
                  domain: OwlClass, rnge: OwlClass, i: nat)
    requires i < |props| && |domains| == |ranges| == i
    ensures props[..i + 1] == props[..i] + [props[i]]
    ensures i + 1 <= |candidates| && domains == candidates[..i] && domain == candidates[i] ==>
              domains + [domain] == candidates[..i + 1]
    ensures i + 2 <= |candidates| && ranges == candidates[1..i + 1] && rnge == candidates[i + 1] ==>
              ranges + [rnge] == candidates[1..i + 2]
  {
  }

  /** Lines 686-700 of `generate_scenario`: the restriction chain is built
      from the innermost filler outwards, from the last property to the
      first. */
  method BuildNestedExpression(props: seq<ObjectProperty>, filler: OwlClass) returns (e: ClassExpression)
    ensures e == Nest(props, filler)
  {
    e := Atomic(filler);
    var i := |props|;
    while i > 0
      invariant 0 <= i <= |props|
      invariant e == Nest(props[i..], filler)
    {
      i := i - 1;
      assert props[i..][1..] == props[i + 1..];
      e := ObjectSomeValuesFrom(props[i], e);
    }
  }

  /** `_remove_examples_from_indivs`: removes each example once.  The source
      raises when an example is missing from the list. */
  method RemoveExamplesFromIndivs(individuals: seq<Individual>, examples: seq<Individual>) returns (r: seq<Individual>)
    requires multiset(examples) <= multiset(individuals)
    ensures multiset(r) == multiset(individuals) - multiset(examples)
    ensures |r| == |individuals| - |examples|
  {
    r := individuals;
    for i := 0 to |examples|
      invariant multiset(r) == multiset(individuals) - multiset(examples[..i])
    {
      RemoveStep(individuals, examples, r, i);
      r := RemoveFirst(r, examples[i]);
    }
    RemoveDone(individuals, examples, r);
  }

  /** The next example is still there, and removing it once removes one
      more example. */
  lemma RemoveStep(individuals: seq<Individual>, examples: seq<Individual>, r: seq<Individual>, i: nat)
    requires multiset(examples) <= multiset(individuals) && i < |examples|
    requires multiset(r) == multiset(individuals) - multiset(examples[..i])
    ensures examples[i] in r
    ensures multiset(r) - multiset{examples[i]} == multiset(individuals) - multiset(examples[..i + 1])
  {
    PrefixGrows(examples, i);
    assert examples[i] in multiset(r) by {
      assert examples == examples[..i + 1] + examples[i + 1..];
    }
  }

  /** With every example removed once, `|examples|` elements are gone. */
  lemma RemoveDone(individuals: seq<Individual>, examples: seq<Individual>, r: seq<Individual>)
    requires multiset(examples) <= multiset(individuals)
    requires multiset(r) == multiset(individuals) - multiset(examples[..|examples|])
    ensures multiset(r) == multiset(individuals) - multiset(examples)
    ensures |r| == |individuals| - |examples|
  {
    assert examples[..|examples|] == examples;
    assert |multiset(r)| == |multiset(individuals)| - |multiset(examples)|;
  }

  /** What is left of a duplicate-free list after removing some of its
      elements is duplicate-free and holds none of them. */
  lemma RemainderDistinct(individuals: seq<Individual>, examples: seq<Individual>, r: seq<Individual>)
    requires NoDup(individuals) && multiset(examples) <= multiset(individuals)
    requires multiset(r) == multiset(individuals) - multiset(examples)
    ensures NoDup(r)
    ensures forall x | x in r :: x !in examples
  {
    forall x ensures multiset(r)[x] <= 1 && (x in examples ==> multiset(r)[x] == 0) {
      NoDupMultiplicity(individuals, x);
    }
    AtMostOnceNoDup(r);
  }

  /** Lines 702-714 of `generate_scenario`: every object property outside
      the chain gets a randomly picked domain and range class; the chain's
      entries are kept. */
  method AssignRemainingDomainsAndRanges(og: OntologyGenerator, props: seq<ObjectProperty>)
    requires og.Valid() && |og.classes| > 0
    modifies og`objectPropertyDomains, og`objectPropertyRanges, og`axioms
    ensures og.Valid()
    ensures forall p | p in og.objectProperties && p !in props ::
              && p in og.objectPropertyDomains && og.objectPropertyDomains[p] in og.classes
              && p in og.objectPropertyRanges && og.objectPropertyRanges[p] in og.classes
    ensures forall p | p in props || p !in og.objectProperties ::
              KeptEntry(old(og.objectPropertyDomains), og.objectPropertyDomains, p) &&
              KeptEntry(old(og.objectPropertyRanges), og.objectPropertyRanges, p)
    ensures old(og.axioms) <= og.axioms
    ensures forall a | a in og.axioms - old(og.axioms) :: DomainOrRangeOfOther(a, og.objectProperties, props)
    ensures NoTypesAdded(old(og.axioms), og.axioms) && NoEdgesAdded(old(og.axioms), og.axioms)
  {
    var all := og.objectProperties;
    for k := 0 to |all|
      invariant og.Valid()
      invariant forall p | p in all[..k] && p !in props ::
                  && p in og.objectPropertyDomains && og.objectPropertyDomains[p] in og.classes
                  && p in og.objectPropertyRanges && og.objectPropertyRanges[p] in og.classes
      invariant forall p | p in props || p !in all[..k] ::
                  KeptEntry(old(og.objectPropertyDomains), og.objectPropertyDomains, p) &&
                  KeptEntry(old(og.objectPropertyRanges), og.objectPropertyRanges, p)
      invariant old(og.axioms) <= og.axioms
      invariant forall a | a in og.axioms - old(og.axioms) :: DomainOrRangeOfOther(a, all[..k], props)
    {
      var objProp := all[k];
      PrefixGrows(all, k);
      assert forall p | p in all[..k] :: p in all[..k + 1];
      if objProp in props {
        continue;
      }
      ghost var ax := og.axioms;
      var domain, rnge := AssignRandomDomainAndRange(og, objProp);
      OthersGrow(old(og.axioms), ax, og.axioms, all, props, k, domain, rnge);
    }
    assert all[..|all|] == all;
    OthersUntyped(old(og.axioms), og.axioms, all, props);
  }

  /** Domain and range axioms are no class assertions and no SubClassOf
      axioms. */
  lemma OthersUntyped(ax0: set<Axiom>, ax: set<Axiom>, all: seq<ObjectProperty>, props: seq<ObjectProperty>)
    requires ax0 <= ax && forall a | a in ax - ax0 :: DomainOrRangeOfOther(a, all, props)
    ensures NoTypesAdded(ax0, ax) && NoEdgesAdded(ax0, ax)
  {
    forall y, t | ClassAssertion(y, t) in ax ensures ClassAssertion(y, t) in ax0 {
      assert !DomainOrRangeOfOther(ClassAssertion(y, t), all, props);
    }
    forall c, d | SubClassOf(c, d) in ax ensures SubClassOf(c, d) in ax0 {
      assert !DomainOrRangeOfOther(SubClassOf(c, d), all, props);
    }
  }

  /** One round of that loop: two random classes become the domain and the
      range of `p`. */
  method AssignRandomDomainAndRange(og: OntologyGenerator, p: ObjectProperty) returns (domain: OwlClass, rnge: OwlClass)
    requires og.Valid() && |og.classes| > 0
    modifies og`objectPropertyDomains, og`objectPropertyRanges, og`axioms
    ensures og.Valid()
    ensures domain in og.classes && rnge in og.classes
    ensures og.objectPropertyDomains == old(og.objectPropertyDomains)[p := domain]
    ensures og.objectPropertyRanges == old(og.objectPropertyRanges)[p := rnge]
    ensures og.axioms == old(og.axioms) + {ObjectPropertyDomain(p, domain), ObjectPropertyRange(p, rnge)}
  {
    domain := og.PickRandomClass();
    rnge := og.PickRandomClass();
    og.SetObjectPropertyDomainAndRange(p, domain, rnge);
  }

  lemma OthersGrow(ax0: set<Axiom>, ax: set<Axiom>, ax': set<Axiom>, all: seq<ObjectProperty>, props: seq<ObjectProperty>,
                   k: nat, domain: OwlClass, rnge: OwlClass)
    requires k < |all| && all[k] !in props
    requires forall a | a in ax - ax0 :: DomainOrRangeOfOther(a, all[..k], props)
    requires ax' == ax + {ObjectPropertyDomain(all[k], domain), ObjectPropertyRange(all[k], rnge)}
    ensures forall a | a in ax' - ax0 :: DomainOrRangeOfOther(a, all[..k + 1], props)
  {
    PrefixGrows(all, k);
    forall a | a in ax' - ax0 ensures DomainOrRangeOfOther(a, all[..k + 1], props) {
      if a in ax - ax0 {
        assert DomainOrRangeOfOther(a, all[..k], props);
      } else {
        assert all[k] in all[..k + 1];
      }
    }
  }

  /** `m'` has the entry `m` has for `k`, or no entry like `m`. */
  ghost predicate KeptEntry<K, V>(m: map<K, V>, m': map<K, V>, k: K) {
    (k in m' <==> k in m) && (k in m ==> m'[k] == m[k])
  }

  /** `a` is a domain or range axiom of a property of `all` outside `props`. */
  ghost predicate DomainOrRangeOfOther(a: Axiom, all: seq<ObjectProperty>, props: seq<ObjectProperty>) {
    || (a.ObjectPropertyDomain? && a.domainProperty in all && a.domainProperty !in props)
    || (a.ObjectPropertyRange? && a.rangeProperty in all && a.rangeProperty !in props)
  }

  /** The assertions a chain walk makes: `types[i]` for `hops[i]`, and the
      link `props[i]` from `hops[i]` to `hops[i + 1]`. */
  function ChainAxioms(hops: seq<Individual>, props: seq<ObjectProperty>, types: seq<OwlClass>): (r: set<Axiom>)
    requires |hops| == |types| == |props| + 1
    ensures forall i | 0 <= i < |props| :: ObjectPropertyAssertion(hops[i], props[i], hops[i + 1]) in r
    ensures forall i | 0 <= i < |hops| :: ClassAssertion(hops[i], types[i]) in r
    decreases |props|
  {
    if props == [] then {ClassAssertion(hops[0], types[0])}
    else
      var n := |props| - 1;
      var before := ChainAxioms(hops[..n + 1], props[..n], types[..n + 1]);
      assert forall i | 0 <= i <= n :: hops[..n + 1][i] == hops[i] && types[..n + 1][i] == types[i];
      assert forall i | 0 <= i < n :: props[..n][i] == props[i];
      before + {ClassAssertion(hops[n + 1], types[n + 1]), ObjectPropertyAssertion(hops[n], props[n], hops[n + 1])}
  }

  lemma ChainAxiomsGrow(hops: seq<Individual>, props: seq<ObjectProperty>, types: seq<OwlClass>, i: nat,
                        hop: Individual, t: OwlClass)
    requires i < |props| && |hops| == |types| == i + 1
    ensures ChainAxioms(hops + [hop], props[..i + 1], types + [t]) ==
            ChainAxioms(hops, props[..i], types) + {ClassAssertion(hop, t), ObjectPropertyAssertion(hops[i], props[i], hop)}
  {
    assert (hops + [hop])[..i + 1] == hops;
    assert props[..i + 1][..i] == props[..i];
    assert (types + [t])[..i + 1] == types;
  }

  /** `m` after appending `ts[i]` to the types of `ys[i]`, in order. */
  function TypesAppended(m: map<Individual, seq<OwlClass>>, ys: seq<Individual>, ts: seq<OwlClass>): map<Individual, seq<OwlClass>>
    requires |ys| == |ts|
    decreases |ys|
  {
    if ys == [] then m
    else
      var n := |ys| - 1;
      var before := TypesAppended(m, ys[..n], ts[..n]);
      before[ys[n] := TypesOf(before, ys[n]) + [ts[n]]]
  }

  lemma TypesAppendedGrow(m: map<Individual, seq<OwlClass>>, ys: seq<Individual>, ts: seq<OwlClass>, y: Individual, t: OwlClass)
    requires |ys| == |ts|
    ensures TypesAppended(m, ys + [y], ts + [t]) ==
            TypesAppended(m, ys, ts)[y := TypesOf(TypesAppended(m, ys, ts), y) + [t]]
  {
    assert (ys + [y])[..|ys|] == ys && (ts + [t])[..|ts|] == ts;
  }

  /** Appending types leaves every individual outside `ys` as it was. */
  lemma {:induction false} TypesAppendedKeeps(m: map<Individual, seq<OwlClass>>, ys: seq<Individual>, ts: seq<OwlClass>, y: Individual)
    requires |ys| == |ts| && y !in ys
    ensures KeptEntry(m, TypesAppended(m, ys, ts), y)
    decreases |ys|
  {
    if ys != [] {
      var n := |ys| - 1;
      assert y !in ys[..n] && y != ys[n] by {
        assert ys == ys[..n] + [ys[n]];
      }
      TypesAppendedKeeps(m, ys[..n], ts[..n], y);
    }
  }

  /** `hops` is linked by `props`: `props[i]` from hop `i` to hop `i + 1`. */
  ghost predicate IsChain(ax: set<Axiom>, hops: seq<Individual>, props: seq<ObjectProperty>) {
    |hops| == |props| + 1 &&
    forall i | 0 <= i < |props| :: ObjectPropertyAssertion(hops[i], props[i], hops[i + 1]) in ax
  }

  /** `y` is asserted to be of some class in the subtree of `c`. */
  ghost predicate TypedUnder(ax: set<Axiom>, h: Hierarchy, y: Individual, c: OwlClass) {
    exists t :: ClassAssertion(y, t) in ax && InSubtree(h, c, t)
  }

  /** What the walk for one example leaves in the axioms: the example and
      its hops are linked by the chain properties, the example is typed
      under the first domain, hop `i + 1` under `ranges[i]`, and the last
      hop under the last filler. */
  ghost predicate ChainWalked(ax: set<Axiom>, h: Hierarchy, hops: seq<Individual>, props: seq<ObjectProperty>,
                              firstDomain: OwlClass, ranges: seq<OwlClass>, lastFiller: OwlClass)
  {
    && IsChain(ax, hops, props)
    && |ranges| == |props|
    && TypedUnder(ax, h, hops[0], firstDomain)
    && (forall i | 0 <= i < |props| - 1 :: TypedUnder(ax, h, hops[i + 1], ranges[i]))
    && TypedUnder(ax, h, hops[|props|], lastFiller)
  }

  /** Later assertions keep a walked chain. */
  lemma ChainWalkedMonotone(ax: set<Axiom>, ax': set<Axiom>, h: Hierarchy, hops: seq<Individual>, props: seq<ObjectProperty>,
                            firstDomain: OwlClass, ranges: seq<OwlClass>, lastFiller: OwlClass)
    requires ax <= ax' && ChainWalked(ax, h, hops, props, firstDomain, ranges, lastFiller)
    ensures ChainWalked(ax', h, hops, props, firstDomain, ranges, lastFiller)
  {
    forall y, c | TypedUnder(ax, h, y, c) ensures TypedUnder(ax', h, y, c) {
      var t :| ClassAssertion(y, t) in ax && InSubtree(h, c, t);
      assert ClassAssertion(y, t) in ax';
    }
  }

  /** `x` reaches, along `props` and through individuals of `ys` only, an
      individual that is a told instance of `filler`. */
  ghost predicate ReachesFiller(ax: set<Axiom>, x: Individual, props: seq<ObjectProperty>, filler: OwlClass,
                                ys: seq<Individual>)
  {
    exists hops :: && IsChain(ax, hops, props) && hops[0] == x
                   && (forall k | 1 <= k < |hops| :: hops[k] in ys)
                   && AssertedInstanceOf(ax, hops[|props|], Atomic(filler))
  }

  /** Reaching the filler along `props` makes `x` a told instance of the
      nested restriction around it. */
  lemma ReachesFillerInstance(ax: set<Axiom>, x: Individual, props: seq<ObjectProperty>, filler: OwlClass,
                              ys: seq<Individual>)
    requires ReachesFiller(ax, x, props, filler, ys)
    ensures AssertedInstanceOf(ax, x, Nest(props, filler))
  {
    var hops :| && IsChain(ax, hops, props) && hops[0] == x
                && (forall k | 1 <= k < |hops| :: hops[k] in ys)
                && AssertedInstanceOf(ax, hops[|props|], Atomic(filler));
    NestFrom(ax, hops, props, filler, 0);
    assert props[0..] == props;
  }

  lemma {:induction false} NestFrom(ax: set<Axiom>, hops: seq<Individual>, props: seq<ObjectProperty>, filler: OwlClass, k: nat)
    requires IsChain(ax, hops, props) && AssertedInstanceOf(ax, hops[|props|], Atomic(filler)) && k <= |props|
    ensures AssertedInstanceOf(ax, hops[k], Nest(props[k..], filler))
    decreases |props| - k
  {
    if k == |props| {
      assert props[k..] == [];
    } else {
      NestFrom(ax, hops, props, filler, k + 1);
      assert props[k..][1..] == props[k + 1..];
      assert ObjectPropertyAssertion(hops[k], props[k], hops[k + 1]) in ax;
    }
  }

  /** `choice(get_all_sub_classes(c))`: a class of the subtree of `c`. */
  method ChooseSubClass(og: OntologyGenerator, c: OwlClass) returns (t: OwlClass)
    requires Ordered(og.classHierarchy) && c in og.classHierarchy
    ensures InSubtree(og.classHierarchy, c, t)
  {
    var subClasses := og.AllSubClasses(c);
    t :| t in subClasses;
  }

  /** One hop of the walk: type the popped individual `hop` under a class
      of the subtree of `rangeSuper` and link it from `cur` by `p`. */
  method AddHop(og: OntologyGenerator, cur: Individual, p: ObjectProperty, rangeSuper: OwlClass, hop: Individual)
    returns (t: OwlClass)
    requires og.Valid() && Ordered(og.classHierarchy) && rangeSuper in og.classHierarchy
    modifies og`axioms, og`individualsTypes
    ensures og.Valid()
    ensures InSubtree(og.classHierarchy, rangeSuper, t)
    ensures og.axioms == old(og.axioms) + {ClassAssertion(hop, t), ObjectPropertyAssertion(cur, p, hop)}
    ensures og.individualsTypes == old(og.individualsTypes)[hop := TypesOf(old(og.individualsTypes), hop) + [t]]
  {
    t := ChooseSubClass(og, rangeSuper);
    og.AddInstance(hop, t);
    og.AddAxiom(ObjectPropertyAssertion(cur, p, hop));
  }

  /** The class whose subtree types hop `i + 1` of a walk: the range of
      `props[i]`, except for the last hop, which is typed under the last
      filler instead. */
  function HopBound(ranges: seq<OwlClass>, lastFiller: OwlClass, i: nat): OwlClass
    requires i < |ranges|
  {
    if i < |ranges| - 1 then ranges[i] else lastFiller
  }

  /** The state of a walk after `i` hops: `hops` are `x` and the first `i`
      pool individuals, each hop typed under its bound, and the axioms and
      the type map hold exactly what the walk added. */
  ghost predicate WalkProgress(ax: set<Axiom>, ax0: set<Axiom>, tm: map<Individual, seq<OwlClass>>,
                               tm0: map<Individual, seq<OwlClass>>, h: Hierarchy, x: Individual,
                               props: seq<ObjectProperty>, ranges: seq<OwlClass>, lastFiller: OwlClass,
                               pool: seq<Individual>, hops: seq<Individual>, types: seq<OwlClass>, i: nat)
  {
    && i <= |props| == |ranges| && i <= |pool|
    && |hops| == |types| == i + 1 && hops == [x] + pool[..i]
    && (forall k | 0 <= k < i :: InSubtree(h, HopBound(ranges, lastFiller, k), types[k + 1]))
    && ax == ax0 + ChainAxioms(hops, props[..i], types)
    && tm == TypesAppended(tm0, hops, types)
  }

  lemma WalkStep(ax: set<Axiom>, ax0: set<Axiom>, tm: map<Individual, seq<OwlClass>>,
                 tm0: map<Individual, seq<OwlClass>>, h: Hierarchy, x: Individual,
                 props: seq<ObjectProperty>, ranges: seq<OwlClass>, lastFiller: OwlClass,
                 pool: seq<Individual>, hops: seq<Individual>, types: seq<OwlClass>, i: nat,
                 t: OwlClass, ax': set<Axiom>, tm': map<Individual, seq<OwlClass>>)
    requires WalkProgress(ax, ax0, tm, tm0, h, x, props, ranges, lastFiller, pool, hops, types, i)
    requires i < |props| && i < |pool| && InSubtree(h, HopBound(ranges, lastFiller, i), t)
    requires ax' == ax + {ClassAssertion(pool[i], t), ObjectPropertyAssertion(hops[i], props[i], pool[i])}
    requires tm' == tm[pool[i] := TypesOf(tm, pool[i]) + [t]]
    ensures WalkProgress(ax', ax0, tm', tm0, h, x, props, ranges, lastFiller, pool, hops + [pool[i]], types + [t], i + 1)
  {
    ChainAxiomsGrow(hops, props, types, i, pool[i], t);
    TypesAppendedGrow(tm0, hops, types, pool[i], t);
    PrefixGrows(pool, i);
    assert [x] + pool[..i] + [pool[i]] == [x] + pool[..i + 1];
  }

  /** Lines 742-777 (and 867-902 for the negatives) of `generate_scenario`:
      the walk for one example `x`.  `x` is typed under `firstDomain`;
      each of the first `|props| - 1` rounds pops the next individual of
      the pool, types it under the range of its property and links it from
      the previous one; the last round does the same with the last filler
      in place of the range.  That is `|props|` pops. */
  method WalkChain(og: OntologyGenerator, x: Individual, props: seq<ObjectProperty>, firstDomain: OwlClass,
                   ranges: seq<OwlClass>, lastFiller: OwlClass, pool: seq<Individual>)
    returns (hops: seq<Individual>, types: seq<OwlClass>, rest: seq<Individual>)
    requires og.Valid() && Ordered(og.classHierarchy)
    requires 1 <= |props| == |ranges| <= |pool|
    requires firstDomain in og.classHierarchy && lastFiller in og.classHierarchy
    requires forall i | 0 <= i < |ranges| :: ranges[i] in og.classHierarchy
    modifies og`axioms, og`individualsTypes
    ensures og.Valid()
    ensures hops == [x] + pool[..|props|] && rest == pool[|props|..]
    ensures |types| == |props| + 1
    ensures InSubtree(og.classHierarchy, firstDomain, types[0])
    ensures forall i | 0 <= i < |props| :: InSubtree(og.classHierarchy, HopBound(ranges, lastFiller, i), types[i + 1])
    ensures og.axioms == old(og.axioms) + ChainAxioms(hops, props, types)
    ensures og.individualsTypes == TypesAppended(old(og.individualsTypes), hops, types)
  {
    var d := |props|;
    ghost var h := og.classHierarchy;
    var t0 := ChooseSubClass(og, firstDomain);
    og.AddInstance(x, t0);
    hops, types, rest := [x], [t0], pool;
    WalkStarted(og.axioms, old(og.axioms), og.individualsTypes, old(og.individualsTypes), h, x,
                props, ranges, lastFiller, pool, t0);
    for i := 0 to d
      invariant og.Valid()
      invariant rest == pool[i..] && types != [] && types[0] == t0
      invariant WalkProgress(og.axioms, old(og.axioms), og.individualsTypes, old(og.individualsTypes), h, x,
                             props, ranges, lastFiller, pool, hops, types, i)
    {
      var hop := rest[0];
      rest := rest[1..];
      hops, types := NextHop(og, x, props, ranges, lastFiller, pool, i, hop, hops, types,
                             old(og.axioms), old(og.individualsTypes));
    }
    WalkFinished(og.axioms, old(og.axioms), og.individualsTypes, old(og.individualsTypes), h, x,
                 props, ranges, lastFiller, pool, hops, types);
  }

  /** Before the first round the walk has typed the example only. */
  lemma WalkStarted(ax: set<Axiom>, ax0: set<Axiom>, tm: map<Individual, seq<OwlClass>>,
                    tm0: map<Individual, seq<OwlClass>>, h: Hierarchy, x: Individual,
                    props: seq<ObjectProperty>, ranges: seq<OwlClass>, lastFiller: OwlClass,
                    pool: seq<Individual>, t0: OwlClass)
    requires |props| == |ranges|
    requires ax == ax0 + {ClassAssertion(x, t0)} && tm == tm0[x := TypesOf(tm0, x) + [t0]]
    ensures WalkProgress(ax, ax0, tm, tm0, h, x, props, ranges, lastFiller, pool, [x], [t0], 0)
  {
    assert [x] == [x] + pool[..0];
  }

  /** After `|props|` rounds the walk has its whole chain. */
  lemma WalkFinished(ax: set<Axiom>, ax0: set<Axiom>, tm: map<Individual, seq<OwlClass>>,
                     tm0: map<Individual, seq<OwlClass>>, h: Hierarchy, x: Individual,
                     props: seq<ObjectProperty>, ranges: seq<OwlClass>, lastFiller: OwlClass,
                     pool: seq<Individual>, hops: seq<Individual>, types: seq<OwlClass>)
    requires WalkProgress(ax, ax0, tm, tm0, h, x, props, ranges, lastFiller, pool, hops, types, |props|)
    ensures hops == [x] + pool[..|props|] && |types| == |props| + 1
    ensures forall i | 0 <= i < |props| :: InSubtree(h, HopBound(ranges, lastFiller, i), types[i + 1])
    ensures ax == ax0 + ChainAxioms(hops, props, types)
    ensures tm == TypesAppended(tm0, hops, types)
  {
    assert props[..|props|] == props;
  }

  /** One round of the hop loop of `WalkChain`: `hop`, popped from the
      pool, is typed under the bound of round `i` and linked from the
      previous hop by `props[i]`. */
  method NextHop(og: OntologyGenerator, x: Individual, props: seq<ObjectProperty>, ranges: seq<OwlClass>,
                 lastFiller: OwlClass, pool: seq<Individual>, i: nat, hop: Individual,
                 hops: seq<Individual>, types: seq<OwlClass>,
                 ghost ax0: set<Axiom>, ghost tm0: map<Individual, seq<OwlClass>>)
    returns (hops': seq<Individual>, types': seq<OwlClass>)
    requires og.Valid() && Ordered(og.classHierarchy)
    requires i < |props| <= |pool| && hop == pool[i]
    requires lastFiller in og.classHierarchy && forall k | 0 <= k < |ranges| :: ranges[k] in og.classHierarchy
    requires WalkProgress(og.axioms, ax0, og.individualsTypes, tm0, og.classHierarchy, x,
                          props, ranges, lastFiller, pool, hops, types, i)
    modifies og`axioms, og`individualsTypes
    ensures og.Valid() && hops' == hops + [hop] && |types'| == |types| + 1 && types'[0] == types[0]
    ensures WalkProgress(og.axioms, ax0, og.individualsTypes, tm0, og.classHierarchy, x,
                         props, ranges, lastFiller, pool, hops', types', i + 1)
  {
    ghost var ax, tm := og.axioms, og.individualsTypes;
    var t := AddHop(og, hops[i], props[i], HopBound(ranges, lastFiller, i), hop);
    WalkStep(ax, ax0, tm, tm0, og.classHierarchy, x, props, ranges, lastFiller, pool, hops, types, i,
             t, og.axioms, og.individualsTypes);
    hops', types' := hops + [hop], types + [t];
  }

  /** The walk types are witnesses of a walked chain. */
  lemma WalkedByTypes(ax: set<Axiom>, h: Hierarchy, hops: seq<Individual>, props: seq<ObjectProperty>, types: seq<OwlClass>,
                      firstDomain: OwlClass, ranges: seq<OwlClass>, lastFiller: OwlClass)
    requires 1 <= |props| == |ranges| && |hops| == |types| == |props| + 1
    requires ChainAxioms(hops, props, types) <= ax
    requires InSubtree(h, firstDomain, types[0])
    requires forall i | 0 <= i < |props| :: InSubtree(h, HopBound(ranges, lastFiller, i), types[i + 1])
    ensures ChainWalked(ax, h, hops, props, firstDomain, ranges, lastFiller)
  {
    TypedBy(ax, h, hops[0], firstDomain, types[0]);
    forall i | 0 <= i < |props| - 1 ensures TypedUnder(ax, h, hops[i + 1], ranges[i]) {
      assert HopBound(ranges, lastFiller, i) == ranges[i];
      TypedBy(ax, h, hops[i + 1], ranges[i], types[i + 1]);
    }
    var d := |props|;
    assert InSubtree(h, HopBound(ranges, lastFiller, d - 1), types[d - 1 + 1]);
    TypedBy(ax, h, hops[d], lastFiller, types[d]);
  }

  lemma TypedBy(ax: set<Axiom>, h: Hierarchy, y: Individual, c: OwlClass, t: OwlClass)
    requires ClassAssertion(y, t) in ax && InSubtree(h, c, t)
    ensures TypedUnder(ax, h, y, c)
  {
  }

  /** The hops of the walk of `examples[j]`: the example and the `j`-th
      block of `d` pool individuals. */
  function ExampleHops(examples: seq<Individual>, pool: seq<Individual>, d: nat, j: nat): seq<Individual>
    requires j < |examples| && d * j + d <= |pool|
  {
    [examples[j]] + pool[d * j..d * j + d]
  }

  /** The first `n` examples have walked their chains. */
  ghost predicate AllWalked(ax: set<Axiom>, h: Hierarchy, examples: seq<Individual>, pool: seq<Individual>,
                            props: seq<ObjectProperty>, firstDomain: OwlClass, ranges: seq<OwlClass>,
                            lastFiller: OwlClass, n: nat)
  {
    && n <= |examples| && |props| * n <= |pool|
    && forall j | 0 <= j < n ::
         |props| * j + |props| <= |pool| &&
         ChainWalked(ax, h, ExampleHops(examples, pool, |props|, j), props, firstDomain, ranges, lastFiller)
  }

  lemma AllWalkedStep(ax: set<Axiom>, ax': set<Axiom>, h: Hierarchy, examples: seq<Individual>, pool: seq<Individual>,
                      props: seq<ObjectProperty>, firstDomain: OwlClass, ranges: seq<OwlClass>,
                      lastFiller: OwlClass, n: nat, start: nat, hops: seq<Individual>, types: seq<OwlClass>)
    requires AllWalked(ax, h, examples, pool, props, firstDomain, ranges, lastFiller, n)
    requires start == |props| * n && |props| * (n + 1) == start + |props|
    requires n < |examples| && start + |props| <= |pool| && ax <= ax'
    requires 1 <= |props| == |ranges| && |types| == |props| + 1
    requires hops == [examples[n]] + pool[start..][..|props|]
    requires ChainAxioms(hops, props, types) <= ax'
    requires InSubtree(h, firstDomain, types[0])
    requires forall i | 0 <= i < |props| :: InSubtree(h, HopBound(ranges, lastFiller, i), types[i + 1])
    ensures AllWalked(ax', h, examples, pool, props, firstDomain, ranges, lastFiller, n + 1)
  {
    var d := |props|;
    forall j | 0 <= j < n
      ensures ChainWalked(ax', h, ExampleHops(examples, pool, d, j), props, firstDomain, ranges, lastFiller)
    {
      ChainWalkedMonotone(ax, ax', h, ExampleHops(examples, pool, d, j), props, firstDomain, ranges, lastFiller);
    }
    assert pool[start..][..d] == pool[start..start + d];
    assert hops == ExampleHops(examples, pool, d, n);
    WalkedByTypes(ax', h, hops, props, types, firstDomain, ranges, lastFiller);
  }

  /** Later assertions keep all walked chains. */
  lemma AllWalkedMonotone(ax: set<Axiom>, ax': set<Axiom>, h: Hierarchy, examples: seq<Individual>, pool: seq<Individual>,
                          props: seq<ObjectProperty>, firstDomain: OwlClass, ranges: seq<OwlClass>,
                          lastFiller: OwlClass, n: nat)
    requires ax <= ax' && AllWalked(ax, h, examples, pool, props, firstDomain, ranges, lastFiller, n)
    ensures AllWalked(ax', h, examples, pool, props, firstDomain, ranges, lastFiller, n)
  {
    forall j | 0 <= j < n
      ensures ChainWalked(ax', h, ExampleHops(examples, pool, |props|, j), props, firstDomain, ranges, lastFiller)
    {
      ChainWalkedMonotone(ax, ax', h, ExampleHops(examples, pool, |props|, j), props, firstDomain, ranges, lastFiller);
    }
  }

  /** With the hierarchy's edges asserted, every example whose chain was
      walked reaches a told instance of the last filler, through the first
      `|props| * |examples|` individuals of the pool. */
  lemma WalkReaches(ax: set<Axiom>, h: Hierarchy, examples: seq<Individual>, pool: seq<Individual>,
                    props: seq<ObjectProperty>, firstDomain: OwlClass, ranges: seq<OwlClass>,
                    lastFiller: OwlClass, ys: seq<Individual>)
    requires AllWalked(ax, h, examples, pool, props, firstDomain, ranges, lastFiller, |examples|)
    requires EdgesAsserted(ax, h) && 1 <= |props|
    requires forall k | 0 <= k < |props| * |examples| :: pool[k] in ys
    ensures forall x | x in examples :: ReachesFiller(ax, x, props, lastFiller, ys)
  {
    forall x | x in examples ensures ReachesFiller(ax, x, props, lastFiller, ys) {
      var j :| 0 <= j < |examples| && examples[j] == x;
      ExampleReaches(ax, h, examples, pool, props, firstDomain, ranges, lastFiller, ys, j);
    }
  }

  /** ... one example at a time. */
  lemma ExampleReaches(ax: set<Axiom>, h: Hierarchy, examples: seq<Individual>, pool: seq<Individual>,
                       props: seq<ObjectProperty>, firstDomain: OwlClass, ranges: seq<OwlClass>,
                       lastFiller: OwlClass, ys: seq<Individual>, j: nat)
    requires AllWalked(ax, h, examples, pool, props, firstDomain, ranges, lastFiller, |examples|)
    requires EdgesAsserted(ax, h) && 1 <= |props| && j < |examples|
    requires forall k | 0 <= k < |props| * |examples| :: pool[k] in ys
    ensures ReachesFiller(ax, examples[j], props, lastFiller, ys)
  {
    var d := |props|;
    var hops := ExampleHops(examples, pool, d, j);
    var start: nat, bound: nat := d * j, d * |examples|;
    MulMonotone(d, j + 1, |examples|);
    MulSucc(d, j);
    BlockInside(pool, ys, start, d, bound);
    assert hops[1..] == pool[start..start + d];
    ChainReaches(ax, h, hops, props, firstDomain, ranges, lastFiller, ys);
  }

  /** A block of the first `bound` pool individuals lies in `ys` when they all do. */
  lemma BlockInside(pool: seq<Individual>, ys: seq<Individual>, start: nat, d: nat, bound: nat)
    requires start + d <= bound <= |pool| && forall k | 0 <= k < bound :: pool[k] in ys
    ensures forall y | y in pool[start..start + d] :: y in ys
  {
    forall y | y in pool[start..start + d] ensures y in ys {
      var k :| 0 <= k < d && pool[start..start + d][k] == y;
      assert pool[start + k] == y;
    }
  }

  /** One walked chain whose hops come from `ys` reaches the last filler. */
  lemma ChainReaches(ax: set<Axiom>, h: Hierarchy, hops: seq<Individual>, props: seq<ObjectProperty>,
                     firstDomain: OwlClass, ranges: seq<OwlClass>, lastFiller: OwlClass, ys: seq<Individual>)
    requires ChainWalked(ax, h, hops, props, firstDomain, ranges, lastFiller) && EdgesAsserted(ax, h)
    requires forall y | y in hops[1..] :: y in ys
    ensures ReachesFiller(ax, hops[0], props, lastFiller, ys)
  {
    forall k | 1 <= k < |hops| ensures hops[k] in ys {
      assert hops[k] == hops[1..][k - 1];
    }
    var t :| ClassAssertion(hops[|props|], t) in ax && InSubtree(h, lastFiller, t);
    InSubtreeSubsumed(ax, h, lastFiller, t);
    assert AssertedInstanceOf(ax, hops[|props|], Atomic(lastFiller));
  }

  /** Lines 731-738 of `generate_scenario`: a shuffled copy of the
      individuals without the examples.  When the individuals are the
      examples followed by the other individuals, the pool holds exactly the
      others, once each. */
  method PreparePool(individuals: seq<Individual>, posExamples: seq<Individual>, negExamples: seq<Individual>,
                     nonExamples: seq<Individual>)
    returns (pool: seq<Individual>)
    requires NoDup(individuals) && individuals == posExamples + negExamples + nonExamples
    ensures NoDup(pool) && multiset(pool) == multiset(nonExamples) && |pool| == |nonExamples|
    ensures forall x | x in pool :: x !in posExamples && x !in negExamples
  {
    var tmp := RemoveExamplesFromIndivs(individuals, posExamples);
    tmp := RemoveExamplesFromIndivs(tmp, negExamples);
    RemainderDistinct(individuals, posExamples + negExamples, tmp);
    assert multiset(tmp) == multiset(tmp);
    pool :| multiset(pool) == multiset(tmp);
    PermutationKeepsNoDup(tmp, pool);
    assert |pool| == |multiset(pool)| == |multiset(nonExamples)|;
    forall x | x in pool ensures x !in posExamples && x !in negExamples {
      assert x in multiset(pool);
      assert x in tmp;
    }
  }

  /** Lines 742-777 and 867-902 of `generate_scenario`: the walks of the
      positive examples towards the positive filler, then those of the
      negative examples towards the negative filler, on one pool.  The walks
      use `|props|` individuals per example, all of them from the pool, and
      leave the rest of the pool over. */
  method WalkAllChains(og: OntologyGenerator, posExamples: seq<Individual>, negExamples: seq<Individual>,
                       pool: seq<Individual>, props: seq<ObjectProperty>, domains: seq<OwlClass>,
                       ranges: seq<OwlClass>, posFiller: OwlClass, negFiller: OwlClass)
    returns (leftover: seq<Individual>, ghost walked: seq<Individual>)
    requires og.Valid() && og.HierarchyBuilt() && EdgesAsserted(og.axioms, og.classHierarchy)
    requires 1 <= |props| == |domains| == |ranges|
    requires |props| * (|posExamples| + |negExamples|) <= |pool|
    requires domains[0] in og.classHierarchy && posFiller in og.classHierarchy && negFiller in og.classHierarchy
    requires forall i | 0 <= i < |ranges| :: ranges[i] in og.classHierarchy
    requires NoDup(pool) && forall x | x in pool :: x !in posExamples && x !in negExamples
    requires Untyped(og.axioms, pool)
    modifies og`axioms, og`individualsTypes
    ensures og.Valid() && old(og.axioms) <= og.axioms && NoEdgesAdded(old(og.axioms), og.axioms)
    ensures |walked| == |props| * (|posExamples| + |negExamples|) && walked + leftover == pool
    ensures forall x | x in posExamples :: ReachesFiller(og.axioms, x, props, posFiller, walked)
    ensures forall x | x in negExamples :: ReachesFiller(og.axioms, x, props, negFiller, walked)
    ensures forall k | 0 <= k < |posExamples| + |negExamples| ::
              BlockWalked(og.axioms, og.classHierarchy, (posExamples + negExamples)[k], props,
                          BlockOf(walked, |props|, k), FillerOf(k, |posExamples|, posFiller, negFiller))
  {
    var d, p, n := |props|, |posExamples|, |negExamples|;
    ghost var h, ax0 := og.classHierarchy, og.axioms;
    var a: nat, b: nat := d * p, d * n;
    Distribute(d, p, n);
    PoolApart(pool, posExamples, negExamples);
    var rest := WalkChains(og, posExamples, props, domains[0], ranges, posFiller, pool);
    ghost var ax1 := og.axioms;
    assert |rest| == |pool| - a;
    RestApart(pool, a, negExamples);
    leftover := WalkChains(og, negExamples, props, domains[0], ranges, negFiller, rest);
    walked := pool[..a + b];
    WalkedSplit(pool, a, b, rest, leftover, walked);
    AllWalkedMonotone(ax1, og.axioms, h, posExamples, pool, props, domains[0], ranges, posFiller, p);
    PositivesKept(ax1, og.axioms, negExamples, pool, a);
    LastHopsKept(ax1, og.axioms, h, posExamples, pool, d, posFiller, p, a);
    EdgesAssertedGrow(ax0, og.axioms, h);
    WalkReaches(og.axioms, h, posExamples, pool, props, domains[0], ranges, posFiller, walked);
    WalkReaches(og.axioms, h, negExamples, rest, props, domains[0], ranges, negFiller, walked);
    PositivesWalked(og.axioms, h, posExamples, negExamples, pool, walked, props, domains[0], ranges,
                    posFiller, negFiller);
    NegativesWalked(og.axioms, h, posExamples, negExamples, pool, rest, walked, props, domains[0], ranges,
                    posFiller, negFiller);
    AllBlocksWalked(og.axioms, h, posExamples, negExamples, walked, props, posFiller, negFiller);
  }

  /** The pool holds no example of either kind. */
  lemma PoolApart(pool: seq<Individual>, pos: seq<Individual>, neg: seq<Individual>)
    requires forall x | x in pool :: x !in pos && x !in neg
    ensures forall x | x in pos :: x !in pool
    ensures forall x | x in neg :: x !in pool
  {
  }

  /** What is left after the positive walks is duplicate-free and holds no
      negative example. */
  lemma RestApart(pool: seq<Individual>, a: nat, neg: seq<Individual>)
    requires NoDup(pool) && a <= |pool| && forall x | x in neg :: x !in pool
    ensures NoDup(pool[a..]) && forall x | x in neg :: x !in pool[a..]
  {
    var rest := pool[a..];
    forall i, j | 0 <= i < j < |rest| ensures rest[i] != rest[j] {
      assert rest[i] == pool[a + i] && rest[j] == pool[a + j];
    }
    forall x | x in neg ensures x !in rest {
      forall i | 0 <= i < |rest| ensures rest[i] != x {
        assert rest[i] == pool[a + i];
      }
    }
  }

  /** The negative walks type nothing among the first `a` pool individuals,
      the positives' share. */
  lemma PositivesKept(ax1: set<Axiom>, ax2: set<Axiom>, neg: seq<Individual>, pool: seq<Individual>, a: nat)
    requires NoDup(pool) && a <= |pool| && forall x | x in neg :: x !in pool
    requires TypesAddedOnlyTo(ax1, ax2, neg, pool[a..])
    ensures forall m, t | 0 <= m < a && ClassAssertion(pool[m], t) in ax2 :: ClassAssertion(pool[m], t) in ax1
  {
    forall m, t | 0 <= m < a && ClassAssertion(pool[m], t) in ax2 ensures ClassAssertion(pool[m], t) in ax1 {
      forall i | 0 <= i < |pool| - a ensures pool[a..][i] != pool[m] {
        assert pool[a..][i] == pool[a + i];
      }
    }
  }

  /** Every example of the concatenated list walked its own block of the
      walked prefix, towards its own filler: the positives' and the
      negatives' halves put together. */
  lemma AllBlocksWalked(ax: set<Axiom>, h: Hierarchy, pos: seq<Individual>, neg: seq<Individual>,
                        walked: seq<Individual>, props: seq<ObjectProperty>, posFiller: OwlClass, negFiller: OwlClass)
    requires forall k | 0 <= k < |pos| ::
               BlockWalked(ax, h, (pos + neg)[k], props, BlockOf(walked, |props|, k),
                           FillerOf(k, |pos|, posFiller, negFiller))
    requires forall k | |pos| <= k < |pos| + |neg| ::
               BlockWalked(ax, h, (pos + neg)[k], props, BlockOf(walked, |props|, k),
                           FillerOf(k, |pos|, posFiller, negFiller))
    ensures forall k | 0 <= k < |pos| + |neg| ::
              BlockWalked(ax, h, (pos + neg)[k], props, BlockOf(walked, |props|, k),
                          FillerOf(k, |pos|, posFiller, negFiller))
  {
    forall k | 0 <= k < |pos| + |neg|
      ensures BlockWalked(ax, h, (pos + neg)[k], props, BlockOf(walked, |props|, k),
                          FillerOf(k, |pos|, posFiller, negFiller))
    {
      if k < |pos| {
      }
    }
  }

  /** The positives' half: example `k` walked block `k` towards the
      positive filler. */
  lemma PositivesWalked(ax: set<Axiom>, h: Hierarchy, pos: seq<Individual>, neg: seq<Individual>,
                        pool: seq<Individual>, walked: seq<Individual>,
                        props: seq<ObjectProperty>, firstDomain: OwlClass, ranges: seq<OwlClass>,
                        posFiller: OwlClass, negFiller: OwlClass)
    requires 1 <= |props| && EdgesAsserted(ax, h)
    requires |props| * |pos| <= |walked| <= |pool| && walked == pool[..|walked|]
    requires AllWalked(ax, h, pos, pool, props, firstDomain, ranges, posFiller, |pos|)
    requires LastHopsTyped(ax, h, pos, pool, |props|, posFiller, |pos|)
    ensures forall k | 0 <= k < |pos| ::
              BlockWalked(ax, h, (pos + neg)[k], props, BlockOf(walked, |props|, k),
                          FillerOf(k, |pos|, posFiller, negFiller))
  {
    forall k | 0 <= k < |pos|
      ensures BlockWalked(ax, h, (pos + neg)[k], props, BlockOf(walked, |props|, k),
                          FillerOf(k, |pos|, posFiller, negFiller))
    {
      WalkedAt(ax, h, pos, pool, props, firstDomain, ranges, posFiller, |pos|, k);
      PositiveBlock(ax, h, pos, neg, pool, walked, props, firstDomain, ranges, posFiller, k);
    }
  }

  /** The negatives' half: example `k` past the positives walked block
      `k` towards the negative filler. */
  lemma NegativesWalked(ax: set<Axiom>, h: Hierarchy, pos: seq<Individual>, neg: seq<Individual>,
                        pool: seq<Individual>, rest: seq<Individual>, walked: seq<Individual>,
                        props: seq<ObjectProperty>, firstDomain: OwlClass, ranges: seq<OwlClass>,
                        posFiller: OwlClass, negFiller: OwlClass)
    requires 1 <= |props| && EdgesAsserted(ax, h)
    requires |props| * |pos| + |props| * |neg| == |walked| <= |pool| && walked == pool[..|walked|]
    requires rest == pool[|props| * |pos|..]
    requires AllWalked(ax, h, neg, rest, props, firstDomain, ranges, negFiller, |neg|)
    requires LastHopsTyped(ax, h, neg, rest, |props|, negFiller, |neg|)
    ensures forall k | |pos| <= k < |pos| + |neg| ::
              BlockWalked(ax, h, (pos + neg)[k], props, BlockOf(walked, |props|, k),
                          FillerOf(k, |pos|, posFiller, negFiller))
  {
    forall k | |pos| <= k < |pos| + |neg|
      ensures BlockWalked(ax, h, (pos + neg)[k], props, BlockOf(walked, |props|, k),
                          FillerOf(k, |pos|, posFiller, negFiller))
    {
      WalkedAt(ax, h, neg, rest, props, firstDomain, ranges, negFiller, |neg|, k - |pos|);
      NegativeBlock(ax, h, pos, neg, pool, rest, walked, props, firstDomain, ranges, negFiller, k);
    }
  }

  lemma MulNonNegative(a: int, b: int)
    requires a >= 0 && b >= 0
    ensures a * b >= 0
  {
  }

  /** Block `j` of `d` pops ends inside a pool that holds `n` blocks. */
  lemma NextBlockFits(d: nat, j: nat, n: nat, size: nat, consumed: nat)
    requires j < n && d * n <= size && consumed == d * j
    ensures consumed + d == d * (j + 1) <= size
  {
    MulSucc(d, j);
    MulMonotone(d, j + 1, n);
  }

  lemma MulSucc(d: nat, j: nat)
    ensures d * (j + 1) == d * j + d
  {
  }

  lemma Distribute(d: nat, p: nat, n: nat)
    ensures d * (p + n) == d * p + d * n
  {
  }

  /** The two walks' shares of the pool. */
  lemma WalkedSplit(pool: seq<Individual>, a: nat, b: nat, rest: seq<Individual>, leftover: seq<Individual>,
                    walked: seq<Individual>)
    requires a + b <= |pool| && rest == pool[a..] && leftover == rest[b..] && walked == pool[..a + b]
    ensures walked + leftover == pool
    ensures forall k | 0 <= k < a :: pool[k] in walked
    ensures forall k | 0 <= k < b :: rest[k] in walked
  {
    assert forall k | 0 <= k < b :: rest[k] == walked[a + k];
    assert forall k | 0 <= k < a :: pool[k] == walked[k];
  }

  /** Multiplying by `d` is monotone. */
  lemma {:induction false} MulMonotone(d: nat, a: nat, b: nat)
    requires a <= b
    ensures d * a <= d * b
    decreases b - a
  {
    if a < b {
      MulMonotone(d, a, b - 1);
      assert d * b == d * (b - 1) + d;
    }
  }

  /** Popping `d` more from what is left after `start` pops. */
  lemma DropTwice(pool: seq<Individual>, start: nat, d: nat)
    requires start + d <= |pool|
    ensures pool[start..][d..] == pool[start + d..]
  {
  }

  /** The walks of all `examples`, one after the other, each consuming the
      next `|props|` individuals of the pool: `|props| * |examples|` pops
      in all, so the pool must hold that many. */
  method WalkChains(og: OntologyGenerator, examples: seq<Individual>, props: seq<ObjectProperty>, firstDomain: OwlClass,
                    ranges: seq<OwlClass>, lastFiller: OwlClass, pool: seq<Individual>)
    returns (rest: seq<Individual>)
    requires og.Valid() && Ordered(og.classHierarchy)
    requires 1 <= |props| == |ranges| && |props| * |examples| <= |pool|
    requires firstDomain in og.classHierarchy && lastFiller in og.classHierarchy
    requires forall i | 0 <= i < |ranges| :: ranges[i] in og.classHierarchy
    requires NoDup(pool) && (forall x | x in examples :: x !in pool) && Untyped(og.axioms, pool)
    modifies og`axioms, og`individualsTypes
    ensures og.Valid() && old(og.axioms) <= og.axioms && NoEdgesAdded(old(og.axioms), og.axioms)
    ensures rest == pool[|props| * |examples|..]
    ensures AllWalked(og.axioms, og.classHierarchy, examples, pool, props, firstDomain, ranges, lastFiller, |examples|)
    ensures LastHopsTyped(og.axioms, og.classHierarchy, examples, pool, |props|, lastFiller, |examples|)
    ensures Untyped(og.axioms, rest) && TypesAddedOnlyTo(old(og.axioms), og.axioms, examples, pool)
  {
    var d := |props|;
    ghost var h := og.classHierarchy;
    rest := pool;
    ghost var consumed: nat := 0;
    for j := 0 to |examples|
      invariant og.Valid() && old(og.axioms) <= og.axioms && NoEdgesAdded(old(og.axioms), og.axioms)
      invariant consumed == d * j && consumed <= |pool| && rest == pool[consumed..]
      invariant AllWalked(og.axioms, h, examples, pool, props, firstDomain, ranges, lastFiller, j)
      invariant LastHopsTyped(og.axioms, h, examples, pool, d, lastFiller, j)
      invariant Untyped(og.axioms, rest) && TypesAddedOnlyTo(old(og.axioms), og.axioms, examples, pool)
    {
      rest := WalkNext(og, examples, props, firstDomain, ranges, lastFiller, pool, j, consumed, rest, old(og.axioms));
      consumed := consumed + d;
    }
  }

  /** One round of `WalkChains`: the walk of example `j` from the next
      pool block. */
  method WalkNext(og: OntologyGenerator, examples: seq<Individual>, props: seq<ObjectProperty>, firstDomain: OwlClass,
                  ranges: seq<OwlClass>, lastFiller: OwlClass, pool: seq<Individual>, j: nat, ghost consumed: nat,
                  rest: seq<Individual>, ghost ax0: set<Axiom>)
    returns (rest': seq<Individual>)
    requires og.Valid() && Ordered(og.classHierarchy)
    requires 1 <= |props| == |ranges| && |props| * |examples| <= |pool|
    requires firstDomain in og.classHierarchy && lastFiller in og.classHierarchy
    requires forall i | 0 <= i < |ranges| :: ranges[i] in og.classHierarchy
    requires j < |examples| && consumed == |props| * j && rest == pool[consumed..]
    requires NoDup(pool) && forall x | x in examples :: x !in pool
    requires AllWalked(og.axioms, og.classHierarchy, examples, pool, props, firstDomain, ranges, lastFiller, j)
    requires Untyped(og.axioms, rest) && TypesAddedOnlyTo(ax0, og.axioms, examples, pool)
    requires LastHopsTyped(og.axioms, og.classHierarchy, examples, pool, |props|, lastFiller, j)
    requires NoEdgesAdded(ax0, og.axioms)
    modifies og`axioms, og`individualsTypes
    ensures og.Valid() && old(og.axioms) <= og.axioms && NoEdgesAdded(ax0, og.axioms)
    ensures consumed + |props| == |props| * (j + 1) <= |pool| && rest' == pool[consumed + |props|..]
    ensures AllWalked(og.axioms, og.classHierarchy, examples, pool, props, firstDomain, ranges, lastFiller, j + 1)
    ensures Untyped(og.axioms, rest') && TypesAddedOnlyTo(ax0, og.axioms, examples, pool)
    ensures LastHopsTyped(og.axioms, og.classHierarchy, examples, pool, |props|, lastFiller, j + 1)
  {
    var d := |props|;
    NextBlockFits(d, j, |examples|, |pool|, consumed);
    ghost var ax := og.axioms;
    var hops, types;
    hops, types, rest' := WalkChain(og, examples[j], props, firstDomain, ranges, lastFiller, rest);
    DropTwice(pool, consumed, d);
    AllWalkedStep(ax, og.axioms, og.classHierarchy, examples, pool, props, firstDomain, ranges, lastFiller, j, consumed, hops, types);
    assert InSubtree(og.classHierarchy, HopBound(ranges, lastFiller, d - 1), types[d - 1 + 1]);
    WalkTypesStep(ax0, ax, og.axioms, og.classHierarchy, examples, pool, props, ranges, lastFiller, j, consumed, hops, types);
    ChainNoEdges(hops, props, types);
  }

  /** A walk relates no two classes. */
  lemma {:induction false} ChainNoEdges(hops: seq<Individual>, props: seq<ObjectProperty>, types: seq<OwlClass>)
    requires |hops| == |types| == |props| + 1
    ensures NoEdges(ChainAxioms(hops, props, types))
    decreases |props|
  {
    if props != [] {
      var n := |props| - 1;
      ChainNoEdges(hops[..n + 1], props[..n], types[..n + 1]);
    }
  }

  /** How often `for i in range(n)` runs. */
  function Repeats(n: int): nat {
    if n < 0 then 0 else n
  }

  /** Lines 597-598 of `generate_scenario`: `n` new classes. */
  method AddClasses(og: OntologyGenerator, n: int)
    requires og.Valid()
    modifies og`classes, og`axioms, og`clsCntr
    ensures og.Valid() && |og.classes| == old(|og.classes|) + Repeats(n) && old(og.axioms) <= og.axioms
    ensures NoTypesAdded(old(og.axioms), og.axioms) && NoEdgesAdded(old(og.axioms), og.axioms)
  {
    var i := 0;
    while i < n
      invariant og.Valid() && 0 <= i && |og.classes| == old(|og.classes|) + i && old(og.axioms) <= og.axioms
      invariant NoTypesAdded(old(og.axioms), og.axioms) && NoEdgesAdded(old(og.axioms), og.axioms)
      invariant i <= Repeats(n)
    {
      og.AddNewClass();
      i := i + 1;
    }
  }

  /** Lines 600-601 of `generate_scenario`: `n` new object properties. */
  method AddObjectProperties(og: OntologyGenerator, n: int)
    requires og.Valid()
    modifies og`objectProperties, og`axioms, og`objPropCntr
    ensures og.Valid() && |og.objectProperties| == old(|og.objectProperties|) + Repeats(n) && old(og.axioms) <= og.axioms
    ensures NoTypesAdded(old(og.axioms), og.axioms) && NoEdgesAdded(old(og.axioms), og.axioms)
  {
    var i := 0;
    while i < n
      invariant og.Valid() && 0 <= i && |og.objectProperties| == old(|og.objectProperties|) + i && old(og.axioms) <= og.axioms
      invariant NoTypesAdded(old(og.axioms), og.axioms) && NoEdgesAdded(old(og.axioms), og.axioms)
      invariant i <= Repeats(n)
    {
      og.AddNewObjectProperty();
      i := i + 1;
    }
  }

  /** Lines 603-604 of `generate_scenario`: `n` new data properties. */
  method AddDataProperties(og: OntologyGenerator, n: int)
    requires og.Valid()
    modifies og`dataProperties, og`axioms, og`dataPropCntr
    ensures og.Valid() && |og.dataProperties| == old(|og.dataProperties|) + Repeats(n) && old(og.axioms) <= og.axioms
    ensures NoTypesAdded(old(og.axioms), og.axioms) && NoEdgesAdded(old(og.axioms), og.axioms)
  {
    var i := 0;
    while i < n
      invariant og.Valid() && 0 <= i && |og.dataProperties| == old(|og.dataProperties|) + i && old(og.axioms) <= og.axioms
      invariant NoTypesAdded(old(og.axioms), og.axioms) && NoEdgesAdded(old(og.axioms), og.axioms)
      invariant i <= Repeats(n)
    {
      og.AddNewDataProperty();
      i := i + 1;
    }
  }

  /** Lines 608-620 of `generate_scenario`: `n` new individuals with the
      local-part prefix `localPartPrefix`, returned in creation order. */
  method AddIndividuals(og: OntologyGenerator, n: int, localPartPrefix: string) returns (added: seq<Individual>)
    requires og.Valid()
    modifies og`individuals, og`axioms, og`indivCntr
    ensures og.Valid() && og.individuals == old(og.individuals) + added && |added| == Repeats(n)
    ensures old(og.axioms) <= og.axioms && NoTypesAdded(old(og.axioms), og.axioms)
    ensures NoEdgesAdded(old(og.axioms), og.axioms)
    ensures forall x | x in added :: x.localPrefix == localPartPrefix
  {
    added := [];
    var i := 0;
    while i < n
      invariant og.Valid() && 0 <= i && |added| == i && og.individuals == old(og.individuals) + added
      invariant old(og.axioms) <= og.axioms && NoTypesAdded(old(og.axioms), og.axioms)
      invariant NoEdgesAdded(old(og.axioms), og.axioms)
      invariant i <= Repeats(n)
      invariant forall x | x in added :: x.localPrefix == localPartPrefix
    {
      var indiv := og.AddNewIndividual(localPartPrefix);
      added := added + [indiv];
      i := i + 1;
    }
  }

  /** No individual has an asserted type in `ax`. */
  ghost predicate NoTypes(ax: set<Axiom>) {
    forall y, t :: ClassAssertion(y, t) !in ax
  }

  /** Two steps that add no class assertion to an untyped set leave it
      untyped. */
  lemma StillNoTypes(ax0: set<Axiom>, ax1: set<Axiom>, ax2: set<Axiom>)
    requires NoTypes(ax0) && NoTypesAdded(ax0, ax1) && NoTypesAdded(ax1, ax2)
    ensures NoTypes(ax2)
  {
  }

  /** No two classes are related by a SubClassOf axiom of `ax`. */
  ghost predicate NoEdges(ax: set<Axiom>) {
    forall c, d :: SubClassOf(c, d) !in ax
  }

  /** Every SubClassOf axiom of `ax` is already in `ax0`. */
  ghost predicate NoEdgesAdded(ax0: set<Axiom>, ax: set<Axiom>) {
    forall c, d | SubClassOf(c, d) in ax :: SubClassOf(c, d) in ax0
  }

  /** Two steps that add no SubClassOf axiom keep the tree's edges the only
      ones. */
  lemma StillOnlyEdges(ax0: set<Axiom>, ax1: set<Axiom>, ax2: set<Axiom>, h: Hierarchy)
    requires OnlyEdgesAsserted(ax0, h) && NoEdgesAdded(ax0, ax1) && NoEdgesAdded(ax1, ax2)
    ensures OnlyEdgesAsserted(ax2, h)
  {
  }

  /** The SubClassOf axioms of `init_random_class_hierarchy`, added where
      there were none, are the tree's edges and nothing else. */
  lemma TreeEdgesOnly(ax: set<Axiom>, h: Hierarchy, parent: map<OwlClass, OwlClass>, classes: seq<OwlClass>)
    requires IsTree(h, parent, classes) && NoEdgesAdded({}, ax)
    ensures OnlyEdgesAsserted(ax + SubClassAxioms(classes, parent), h)
  {
    forall c, d | SubClassOf(c, d) in ax + SubClassAxioms(classes, parent) ensures d in h && c in h[d] {
      assert SubClassOf(c, d) in SubClassAxioms(classes, parent);
    }
  }

  /** Every class assertion of `ax` is already in `ax0`. */
  ghost predicate NoTypesAdded(ax0: set<Axiom>, ax: set<Axiom>) {
    forall y, t | ClassAssertion(y, t) in ax :: ClassAssertion(y, t) in ax0
  }

  /** The class assertions of `ax` that are not in `ax0` are about
      individuals of `xs` or of `ys`. */
  ghost predicate TypesAddedOnlyTo(ax0: set<Axiom>, ax: set<Axiom>, xs: seq<Individual>, ys: seq<Individual>) {
    forall y, t | ClassAssertion(y, t) in ax :: ClassAssertion(y, t) in ax0 || y in xs || y in ys
  }

  /** No individual of `ys` has an asserted type in `ax`. */
  ghost predicate Untyped(ax: set<Axiom>, ys: seq<Individual>) {
    forall k, t | 0 <= k < |ys| :: ClassAssertion(ys[k], t) !in ax
  }

  /** Every class `y` is asserted to belong to lies in the subtree of `c`. */
  ghost predicate OnlyTypedUnder(ax: set<Axiom>, h: Hierarchy, y: Individual, c: OwlClass) {
    forall t | ClassAssertion(y, t) in ax :: InSubtree(h, c, t)
  }

  /** The last hop of each of the first `n` walks is typed under the last
      filler only. */
  ghost predicate LastHopsTyped(ax: set<Axiom>, h: Hierarchy, examples: seq<Individual>, pool: seq<Individual>,
                                d: nat, lastFiller: OwlClass, n: nat)
  {
    && n <= |examples|
    && forall j | 0 <= j < n ::
         d * j + d <= |pool| && OnlyTypedUnder(ax, h, ExampleHops(examples, pool, d, j)[d], lastFiller)
  }

  /** `x` is linked along `props` through the individuals of `block`, in
      order, to a told instance of `filler`, and `filler`'s subtree holds
      every class the last of them is asserted to belong to. */
  ghost predicate BlockWalked(ax: set<Axiom>, h: Hierarchy, x: Individual, props: seq<ObjectProperty>,
                              block: seq<Individual>, filler: OwlClass)
  {
    && |block| == |props| >= 1
    && IsChain(ax, [x] + block, props)
    && AssertedInstanceOf(ax, block[|props| - 1], Atomic(filler))
    && OnlyTypedUnder(ax, h, block[|props| - 1], filler)
  }

  /** The filler of example `k` when the first `nPos` examples are the
      positive ones. */
  function FillerOf(k: nat, nPos: nat, posFiller: OwlClass, negFiller: OwlClass): OwlClass {
    if k < nPos then posFiller else negFiller
  }

  /** Block `k` of `d` individuals of `walked`, if `walked` is long enough. */
  function BlockOf(walked: seq<Individual>, d: nat, k: nat): (b: seq<Individual>)
    ensures d * k + d <= |walked| ==> b == walked[d * k..d * k + d]
  {
    if d * k + d <= |walked| then walked[d * k..d * k + d] else []
  }

  /** Each example has a chain of its own: `examples` lists the positive
      examples, then the negative ones, and example `k` is linked through
      block `k` of `walked`, `depth` individuals long, to a told instance of
      its filler. */
  ghost predicate OwnChains(s: LearningScenario, negativeConcept: ClassExpression, h: Hierarchy,
                            examples: seq<Individual>, nPos: nat, walked: seq<Individual>)
  {
    && nPos <= |examples| && NoDup(examples)
    && Elements(examples[..nPos]) == s.positiveExamples && Elements(examples[nPos..]) == s.negativeExamples
    && |walked| == |Spine(s.targetConcept)| * |examples|
    && forall k | 0 <= k < |examples| :: OwnChainAt(s, negativeConcept, h, examples, nPos, walked, k)
  }

  /** The chain of example `k`: its block is walked to its filler, and the
      last individual of the block is typed under that filler only, never
      under the filler of the other kind. */
  ghost predicate OwnChainAt(s: LearningScenario, negativeConcept: ClassExpression, h: Hierarchy,
                             examples: seq<Individual>, nPos: nat, walked: seq<Individual>, k: nat)
    requires k < |examples|
  {
    var props := Spine(s.targetConcept);
    var b := BlockOf(walked, |props|, k);
    var pos, neg := InnerClass(s.targetConcept), InnerClass(negativeConcept);
    && BlockWalked(s.backgroundKnowledge, h, examples[k], props, b, FillerOf(k, nPos, pos, neg))
    && !TypedUnder(s.backgroundKnowledge, h, b[|props| - 1], FillerOf(k, nPos, neg, pos))
    && !AssertedInstanceOf(s.backgroundKnowledge, b[|props| - 1], Atomic(FillerOf(k, nPos, neg, pos)))
  }

  /** Two examples' chains share no individual: the blocks of distinct
      examples are disjoint. */
  lemma ChainsShareNoIndividual(s: LearningScenario, negativeConcept: ClassExpression, h: Hierarchy,
                                examples: seq<Individual>, nPos: nat, walked: seq<Individual>, j: nat, k: nat)
    requires OwnChains(s, negativeConcept, h, examples, nPos, walked) && NoDup(walked)
    requires j < k < |examples|
    ensures var d := |Spine(s.targetConcept)|;
            Elements(BlockOf(walked, d, j)) !! Elements(BlockOf(walked, d, k))
  {
    var d := |Spine(s.targetConcept)|;
    assert OwnChainAt(s, negativeConcept, h, examples, nPos, walked, k);
    var bj, bk := BlockOf(walked, d, j), BlockOf(walked, d, k);
    assert |bk| == d >= 1;
    assert d * k + d <= |walked|;
    EarlierBlock(d, j, k);
    forall y | y in Elements(bj) ensures y !in Elements(bk) {
      var u :| 0 <= u < d && bj[u] == y;
      assert y == walked[d * j + u];
      forall v | 0 <= v < d ensures bk[v] != y {
        assert bk[v] == walked[d * k + v];
      }
    }
  }

  /** Block `j` ends where block `j + 1` starts, so before block `k > j`. */
  lemma EarlierBlock(d: nat, j: nat, k: nat)
    requires j < k
    ensures d * j + d <= d * k
  {
    MulSucc(d, j);
    MulMonotone(d, j + 1, k);
  }

  /** A walk asserts types only for its hops, ... */
  lemma {:induction false} ChainAxiomsOnly(hops: seq<Individual>, props: seq<ObjectProperty>, types: seq<OwlClass>,
                                           y: Individual, t: OwlClass)
    requires |hops| == |types| == |props| + 1
    requires ClassAssertion(y, t) in ChainAxioms(hops, props, types)
    ensures exists i | 0 <= i < |hops| :: hops[i] == y && types[i] == t
    decreases |props|
  {
    if props == [] {
      assert hops[0] == y && types[0] == t;
    } else {
      var n := |props| - 1;
      if ClassAssertion(y, t) == ClassAssertion(hops[n + 1], types[n + 1]) {
        assert hops[n + 1] == y && types[n + 1] == t;
      } else {
        ChainAxiomsOnly(hops[..n + 1], props[..n], types[..n + 1], y, t);
        var i :| 0 <= i < n + 1 && hops[..n + 1][i] == y && types[..n + 1][i] == t;
        assert hops[i] == y && types[i] == t;
      }
    }
  }

  /** ... so an individual outside them gets none. */
  lemma {:induction false} ChainUntyped(hops: seq<Individual>, props: seq<ObjectProperty>, types: seq<OwlClass>,
                                        y: Individual, t: OwlClass)
    requires |hops| == |types| == |props| + 1 && y !in hops
    ensures ClassAssertion(y, t) !in ChainAxioms(hops, props, types)
    decreases |props|
  {
    if props != [] {
      var n := |props| - 1;
      assert hops == hops[..n + 1] + [hops[n + 1]];
      ChainUntyped(hops[..n + 1], props[..n], types[..n + 1], y, t);
    }
  }

  /** A pool individual outside block `[start, start + d)` is not a hop of
      the walk that consumes that block. */
  lemma OutsideBlock(pool: seq<Individual>, x: Individual, start: nat, d: nat, hops: seq<Individual>, m: nat)
    requires NoDup(pool) && x !in pool && start + d <= |pool| && hops == [x] + pool[start..start + d]
    requires m < |pool| && (m < start || start + d <= m)
    ensures pool[m] !in hops
  {
    forall i | 0 <= i < |hops| ensures hops[i] != pool[m] {
      if i > 0 {
        assert hops[i] == pool[start + i - 1];
      }
    }
  }

  /** The last hop of such a walk occurs once among its hops. */
  lemma LastHopOnce(pool: seq<Individual>, x: Individual, start: nat, d: nat, hops: seq<Individual>, i: nat)
    requires NoDup(pool) && x !in pool && 1 <= d && start + d <= |pool| && hops == [x] + pool[start..start + d]
    requires i < |hops| && hops[i] == hops[d]
    ensures i == d
  {
    assert hops[d] == pool[start + d - 1];
    if i > 0 {
      assert hops[i] == pool[start + i - 1];
    }
  }

  /** Once the walk of example `j` has consumed block `j`: the rest of the
      pool is still untyped, the last hops walked so far, this one
      included, are typed under the last filler only, and the types added
      are about the example and the pool. */
  lemma WalkTypesStep(ax0: set<Axiom>, ax: set<Axiom>, ax': set<Axiom>, h: Hierarchy, examples: seq<Individual>,
                      pool: seq<Individual>, props: seq<ObjectProperty>, ranges: seq<OwlClass>, lastFiller: OwlClass,
                      j: nat, start: nat, hops: seq<Individual>, types: seq<OwlClass>)
    requires NoDup(pool) && forall x | x in examples :: x !in pool
    requires j < |examples| && start == |props| * j && start + |props| <= |pool| && 1 <= |props| == |ranges|
    requires |props| * (j + 1) == start + |props|
    requires |types| == |props| + 1 && hops == [examples[j]] + pool[start..][..|props|]
    requires ax' == ax + ChainAxioms(hops, props, types)
    requires InSubtree(h, HopBound(ranges, lastFiller, |props| - 1), types[|props|])
    requires Untyped(ax, pool[start..])
    requires LastHopsTyped(ax, h, examples, pool, |props|, lastFiller, j)
    requires TypesAddedOnlyTo(ax0, ax, examples, pool)
    ensures Untyped(ax', pool[start + |props|..])
    ensures LastHopsTyped(ax', h, examples, pool, |props|, lastFiller, j + 1)
    ensures TypesAddedOnlyTo(ax0, ax', examples, pool)
  {
    var d := |props|;
    assert pool[start..][..d] == pool[start..start + d];
    StepTypesOnly(ax0, ax, ax', examples, pool, props, j, start, hops, types);
    StepRestUntyped(ax, ax', pool, props, examples[j], start, hops, types);
    StepEarlierKept(ax, ax', pool, props, examples[j], start, hops, types);
    LastHopsKept(ax, ax', h, examples, pool, d, lastFiller, j, start);
    StepLastHop(ax, ax', h, pool, props, ranges, lastFiller, examples[j], start, hops, types);
    assert hops == ExampleHops(examples, pool, d, j);
  }

  /** A walk adds types to the example and its block of the pool only. */
  lemma StepTypesOnly(ax0: set<Axiom>, ax: set<Axiom>, ax': set<Axiom>, examples: seq<Individual>,
                      pool: seq<Individual>, props: seq<ObjectProperty>, j: nat, start: nat,
                      hops: seq<Individual>, types: seq<OwlClass>)
    requires j < |examples| && start + |props| <= |pool|
    requires |types| == |props| + 1 && hops == [examples[j]] + pool[start..start + |props|]
    requires ax' == ax + ChainAxioms(hops, props, types)
    requires TypesAddedOnlyTo(ax0, ax, examples, pool)
    ensures TypesAddedOnlyTo(ax0, ax', examples, pool)
  {
    forall y, t | ClassAssertion(y, t) in ax' ensures ClassAssertion(y, t) in ax0 || y in examples || y in pool {
      if ClassAssertion(y, t) !in ax {
        ChainAxiomsOnly(hops, props, types, y, t);
        var i :| 0 <= i < |hops| && hops[i] == y && types[i] == t;
        if i > 0 {
          assert hops[i] == pool[start + i - 1];
        }
      }
    }
  }

  /** The pool past a walk's block stays untyped. */
  lemma StepRestUntyped(ax: set<Axiom>, ax': set<Axiom>, pool: seq<Individual>, props: seq<ObjectProperty>,
                        x: Individual, start: nat, hops: seq<Individual>, types: seq<OwlClass>)
    requires NoDup(pool) && x !in pool && start + |props| <= |pool|
    requires |types| == |props| + 1 && hops == [x] + pool[start..start + |props|]
    requires ax' == ax + ChainAxioms(hops, props, types)
    requires Untyped(ax, pool[start..])
    ensures Untyped(ax', pool[start + |props|..])
  {
    var d := |props|;
    var later := pool[start + d..];
    forall k, t | 0 <= k < |later| ensures ClassAssertion(later[k], t) !in ax' {
      var m := start + d + k;
      assert later[k] == pool[m] == pool[start..][d + k];
      OutsideBlock(pool, x, start, d, hops, m);
      ChainUntyped(hops, props, types, pool[m], t);
    }
  }

  /** A walk asserts no type of a pool individual before its block. */
  lemma StepEarlierKept(ax: set<Axiom>, ax': set<Axiom>, pool: seq<Individual>, props: seq<ObjectProperty>,
                        x: Individual, start: nat, hops: seq<Individual>, types: seq<OwlClass>)
    requires NoDup(pool) && x !in pool && start + |props| <= |pool|
    requires |types| == |props| + 1 && hops == [x] + pool[start..start + |props|]
    requires ax' == ax + ChainAxioms(hops, props, types)
    ensures forall m, t | 0 <= m < start && ClassAssertion(pool[m], t) in ax' :: ClassAssertion(pool[m], t) in ax
  {
    forall m, t | 0 <= m < start && ClassAssertion(pool[m], t) in ax' ensures ClassAssertion(pool[m], t) in ax {
      OutsideBlock(pool, x, start, |props|, hops, m);
      ChainUntyped(hops, props, types, pool[m], t);
    }
  }

  /** The last hop of a walk over an untyped block is typed under the last
      filler only. */
  lemma StepLastHop(ax: set<Axiom>, ax': set<Axiom>, h: Hierarchy, pool: seq<Individual>, props: seq<ObjectProperty>,
                    ranges: seq<OwlClass>, lastFiller: OwlClass, x: Individual, start: nat,
                    hops: seq<Individual>, types: seq<OwlClass>)
    requires NoDup(pool) && x !in pool && start + |props| <= |pool| && 1 <= |props| == |ranges|
    requires |types| == |props| + 1 && hops == [x] + pool[start..start + |props|]
    requires ax' == ax + ChainAxioms(hops, props, types)
    requires InSubtree(h, HopBound(ranges, lastFiller, |props| - 1), types[|props|])
    requires Untyped(ax, pool[start..])
    ensures OnlyTypedUnder(ax', h, hops[|props|], lastFiller)
  {
    var d := |props|;
    forall t | ClassAssertion(hops[d], t) in ax' ensures InSubtree(h, lastFiller, t) {
      assert ClassAssertion(pool[start..][d - 1], t) !in ax;
      ChainAxiomsOnly(hops, props, types, hops[d], t);
      var i :| 0 <= i < |hops| && hops[i] == hops[d] && types[i] == t;
      LastHopOnce(pool, x, start, d, hops, i);
    }
  }

  /** The last hops of earlier walks keep their types when the axioms
      added assert nothing about the first `bound` pool individuals. */
  lemma LastHopsKept(ax: set<Axiom>, ax': set<Axiom>, h: Hierarchy, examples: seq<Individual>, pool: seq<Individual>,
                     d: nat, lastFiller: OwlClass, n: nat, bound: nat)
    requires LastHopsTyped(ax, h, examples, pool, d, lastFiller, n) && 1 <= d
    requires d * n <= bound <= |pool|
    requires forall m, t | 0 <= m < bound && ClassAssertion(pool[m], t) in ax' :: ClassAssertion(pool[m], t) in ax
    ensures LastHopsTyped(ax', h, examples, pool, d, lastFiller, n)
  {
    forall j | 0 <= j < n ensures OnlyTypedUnder(ax', h, ExampleHops(examples, pool, d, j)[d], lastFiller) {
      MulSucc(d, j);
      MulMonotone(d, j + 1, n);
      var m := d * j + d - 1;
      assert ExampleHops(examples, pool, d, j)[d] == pool[m];
      forall t | ClassAssertion(pool[m], t) in ax' ensures InSubtree(h, lastFiller, t) {
        assert ClassAssertion(pool[m], t) in ax;
      }
    }
  }

  /** A walked chain whose last hop is typed under the last filler only is
      a walked block. */
  lemma BlockOfWalk(ax: set<Axiom>, h: Hierarchy, hops: seq<Individual>, props: seq<ObjectProperty>,
                    firstDomain: OwlClass, ranges: seq<OwlClass>, lastFiller: OwlClass)
    requires ChainWalked(ax, h, hops, props, firstDomain, ranges, lastFiller) && EdgesAsserted(ax, h) && 1 <= |props|
    requires OnlyTypedUnder(ax, h, hops[|props|], lastFiller)
    ensures BlockWalked(ax, h, hops[0], props, hops[1..], lastFiller)
  {
    assert [hops[0]] + hops[1..] == hops;
    var t :| ClassAssertion(hops[|props|], t) in ax && InSubtree(h, lastFiller, t);
    InSubtreeSubsumed(ax, h, lastFiller, t);
    assert hops[1..][|props| - 1] == hops[|props|];
  }

  /** The facts about walk `j` among the first `n`. */
  lemma WalkedAt(ax: set<Axiom>, h: Hierarchy, examples: seq<Individual>, pool: seq<Individual>,
                 props: seq<ObjectProperty>, firstDomain: OwlClass, ranges: seq<OwlClass>, lastFiller: OwlClass,
                 n: nat, j: nat)
    requires AllWalked(ax, h, examples, pool, props, firstDomain, ranges, lastFiller, n)
    requires LastHopsTyped(ax, h, examples, pool, |props|, lastFiller, n)
    requires j < n
    ensures |props| * j + |props| <= |pool|
    ensures ChainWalked(ax, h, ExampleHops(examples, pool, |props|, j), props, firstDomain, ranges, lastFiller)
    ensures OnlyTypedUnder(ax, h, ExampleHops(examples, pool, |props|, j)[|props|], lastFiller)
  {
  }

  /** The positive walks, read off the concatenated example list: example
      `k` walked block `k` of the pool. */
  lemma PositiveBlock(ax: set<Axiom>, h: Hierarchy, pos: seq<Individual>, neg: seq<Individual>, pool: seq<Individual>,
                      walked: seq<Individual>, props: seq<ObjectProperty>, firstDomain: OwlClass,
                      ranges: seq<OwlClass>, posFiller: OwlClass, k: nat)
    requires 1 <= |props| && k < |pos| && |props| * |pos| <= |walked| <= |pool| && walked == pool[..|walked|]
    requires |props| * k + |props| <= |pool|
    requires ChainWalked(ax, h, ExampleHops(pos, pool, |props|, k), props, firstDomain, ranges, posFiller)
    requires OnlyTypedUnder(ax, h, ExampleHops(pos, pool, |props|, k)[|props|], posFiller)
    requires EdgesAsserted(ax, h)
    ensures BlockWalked(ax, h, (pos + neg)[k], props, BlockOf(walked, |props|, k), posFiller)
  {
    var d := |props|;
    EarlierBlock(d, k, |pos|);
    var s := d * k;
    MulNonNegative(d, k);
    var hops := ExampleHops(pos, pool, d, k);
    BlockOfWalk(ax, h, hops, props, firstDomain, ranges, posFiller);
    SliceShift(pool, pool, walked, 0, s, d);
    assert hops[1..] == pool[s..s + d] == walked[s..s + d] == BlockOf(walked, d, k);
    assert (pos + neg)[k] == pos[k] == hops[0];
  }

  /** The negative walks, read off the concatenated example list: example
      `|pos| + j` walked block `j` of what the positives left. */
  lemma NegativeBlock(ax: set<Axiom>, h: Hierarchy, pos: seq<Individual>, neg: seq<Individual>, pool: seq<Individual>,
                      rest: seq<Individual>, walked: seq<Individual>, props: seq<ObjectProperty>, firstDomain: OwlClass,
                      ranges: seq<OwlClass>, negFiller: OwlClass, k: nat)
    requires 1 <= |props| && |pos| <= k < |pos| + |neg|
    requires |props| * |pos| + |props| * |neg| == |walked| <= |pool| && walked == pool[..|walked|]
    requires rest == pool[|props| * |pos|..]
    requires |props| * (k - |pos|) + |props| <= |rest|
    requires ChainWalked(ax, h, ExampleHops(neg, rest, |props|, k - |pos|), props, firstDomain, ranges, negFiller)
    requires OnlyTypedUnder(ax, h, ExampleHops(neg, rest, |props|, k - |pos|)[|props|], negFiller)
    requires EdgesAsserted(ax, h)
    ensures BlockWalked(ax, h, (pos + neg)[k], props, BlockOf(walked, |props|, k), negFiller)
  {
    var hops := ExampleHops(neg, rest, |props|, k - |pos|);
    NegativeSlice(pos, neg, pool, rest, walked, |props|, k);
    BlockOfWalk(ax, h, hops, props, firstDomain, ranges, negFiller);
  }

  /** The hops of negative example `k` are its own block of the walked
      prefix. */
  lemma NegativeSlice(pos: seq<Individual>, neg: seq<Individual>, pool: seq<Individual>, rest: seq<Individual>,
                      walked: seq<Individual>, d: nat, k: nat)
    requires |pos| <= k < |pos| + |neg|
    requires d * |pos| + d * |neg| == |walked| <= |pool| && walked == pool[..|walked|]
    requires rest == pool[d * |pos|..] && d * (k - |pos|) + d <= |rest|
    ensures var hops := ExampleHops(neg, rest, d, k - |pos|);
            hops[0] == (pos + neg)[k] && hops[1..] == BlockOf(walked, d, k)
  {
    var j := k - |pos|;
    ConcatAt(pos, neg, k);
    NegativeOffsets(d, |pos|, j, |neg|);
    var a: nat, s: nat := d * |pos|, d * j;
    var m := d * k;
    var hops := ExampleHops(neg, rest, d, j);
    SliceShift(pool, rest, walked, a, s, d);
    assert hops[1..] == rest[s..s + d] == walked[m..m + d] == BlockOf(walked, d, k);
  }

  /** Position `k` past the positives is the negatives' position `k - |pos|`. */
  lemma ConcatAt(pos: seq<Individual>, neg: seq<Individual>, k: nat)
    requires |pos| <= k < |pos| + |neg|
    ensures (pos + neg)[k] == neg[k - |pos|]
  {
  }

  /** The offsets of the negatives' block `j` inside the walked prefix. */
  lemma NegativeOffsets(d: nat, p: nat, j: nat, n: nat)
    requires j < n
    ensures 0 <= d * p && 0 <= d * j && d * (p + j) == d * p + d * j && d * j + d <= d * n
  {
    MulNonNegative(d, p);
    MulNonNegative(d, j);
    Distribute(d, p, j);
    EarlierBlock(d, j, n);
  }

  /** Block `s` of what follows position `a` is block `a + s` of the
      walked prefix. */
  lemma SliceShift(pool: seq<Individual>, rest: seq<Individual>, walked: seq<Individual>, a: nat, s: nat, d: nat)
    requires a + s + d <= |walked| <= |pool| && rest == pool[a..] && walked == pool[..|walked|]
    ensures rest[s..s + d] == walked[a + s..a + s + d]
  {
  }

  /** A class assertion under one child's subtree is none under a
      sibling's. */
  lemma ExclusiveFiller(ax: set<Axiom>, h: Hierarchy, parent: map<OwlClass, OwlClass>, classes: seq<OwlClass>,
                        p: OwlClass, a: OwlClass, b: OwlClass, y: Individual)
    requires IsTree(h, parent, classes) && p in h && a in h[p] && b in h[p] && a != b
    requires OnlyTypedUnder(ax, h, y, a)
    ensures !TypedUnder(ax, h, y, b)
  {
    forall t | ClassAssertion(y, t) in ax ensures !InSubtree(h, b, t) {
      SiblingSubtreesDisjoint(h, parent, classes, p, a, b, t);
    }
  }

  /** ... and, when the only SubClassOf axioms are the tree's edges, it is
      no told instance of the sibling. */
  lemma NotToldUnderSibling(ax: set<Axiom>, h: Hierarchy, parent: map<OwlClass, OwlClass>, classes: seq<OwlClass>,
                            p: OwlClass, a: OwlClass, b: OwlClass, y: Individual)
    requires IsTree(h, parent, classes) && p in h && a in h[p] && b in h[p] && a != b
    requires OnlyTypedUnder(ax, h, y, a) && OnlyEdgesAsserted(ax, h)
    ensures !AssertedInstanceOf(ax, y, Atomic(b))
  {
    forall t | ClassAssertion(y, t) in ax ensures !SubsumedBy(ax, t, b) {
      SiblingSubtreesDisjoint(h, parent, classes, p, a, b, t);
      SubsumedInSubtree(ax, h, t, b);
    }
  }
}
