# Learning-scenario generator: a Dafny model

The repository generates random OWL ontologies and supervised
concept-learning problems over them.
A *learning scenario* has four parts:
- positive examples;
- negative examples;
- a target class expression;
- the background ontology.

This project models two pieces of it.

- **`OntologyGenerator`** (module `OntologyGen`, class `OntologyGenerator`). It is the bookkeeping object. It does the following:
  - creates classes, object properties, data properties and individuals, each numbered by its own counter, and declares them;
  - builds a random class tree below owl:Thing, in which each class's parent is owl:Thing or an earlier class;
  - answers subtree and complement-of-subtree queries;
  - records the domains and ranges of the properties and the asserted types of the individuals;
  - filters properties by domain or by range;
  - collects every axiom in a set.

  The pure queries over the class tree are in module `ClassHierarchy`. The IRIs the counters produce are in module `Iri`.

- **The constructive pipeline of `SimulatedAnnealingLearningScenario1Generator`** (module `SimulatedAnnealing`). It covers:
  - the constructor's configuration check;
  - the choice of `depth` distinct object properties for the chain;
  - the filler class, which has at least two children and enough classes outside its subtree;
  - two distinct children of the filler, used as the positive and the negative filler;
  - the chained domains and ranges, taken from the complement of the filler's subtree;
  - the target expression `p1 some (p2 some (... pn some PosFiller))` and the negative one;
  - the pool of non-example individuals;
  - one chain walk per example, which pops `depth` fresh individuals from the pool;
  - the resulting `LearningScenario`.

The main results are these.

- **The constructor's bound keeps the walks inside the pool.**
  - `NewScenario1Generator` accepts exactly the admissible parameters.
  - The pipeline consumes exactly `depth * (pos + neg)` pool individuals, which that bound makes available.
  - The individuals left over are disjoint from the walked ones and from the examples.
- **Separation.**
  - Every positive example reaches, through `depth` asserted property links via fresh pool individuals, an individual typed under a subclass of the positive filler. So it is a told instance of the target concept.
  - The negative examples do the same along the same properties with the negative filler. The negative filler is a sibling of the positive filler, and their subtrees are disjoint (`ClassHierarchy.SiblingSubtreesDisjoint`).
  - The last hop of a chain is typed under its own filler's subtree only. So a positive chain's last hop is typed under no class below the negative filler, and a negative chain's last hop under none below the positive filler (`SimulatedAnnealing.OwnChains`, through `SimulatedAnnealing.ExclusiveFiller`).
  - The SubClassOf axioms of the background knowledge are exactly the edges of the generated tree. So the last hop of a chain is no told instance of the other filler either (`SimulatedAnnealing.NotToldUnderSibling`, through `AssertedSemantics.SubsumedInSubtree`).
- **Every example has a block of its own.** Example `k` of the positives followed by the negatives walks `walked[depth*k..depth*k+depth]`. So the chains of two different examples share no individual (`SimulatedAnnealing.ChainsShareNoIndividual`).
- **Failure.** `GenerateScenario` fails exactly when no class of the built tree qualifies as the filler.
  - "Told instance" (module `AssertedSemantics`) is read off the asserted axioms alone: class assertions, SubClassOf chains and property assertions. It under-approximates what a reasoner entails.

Randomness is modelled as nondeterministic choice:
- `choice` becomes `:|` or any member of the list;
- `shuffle` becomes any permutation.

Every property is therefore proved for every outcome.

Dafny's `nat` and `int` are unbounded. Python's integers are unbounded too, so no wrap-around needs modelling.

Entities are identified by kind and counter:
- `Cls(n)`, `ObjProp(n)`, `DataProp(n)`;
- `Individual(localPrefix, n)`.

`Iri` proves that, for the generator's local prefixes, this identity agrees with IRI identity.

`get_all_sub_classes` (learningscenariogenerators/__init__.py:165-172) copies the child list, appends the class itself and then recurses into each child. So each proper descendant is listed twice: once in its parent's copied child list and once by its own call. `ClassHierarchy.ChildListedTwice` proves that a direct child occurs at least twice. Contracts therefore speak of membership only.

## Model

| member | source | states |
|---|---|---|
| `OntologyGen.OntologyGenerator.constructor` | learningscenariogenerators/__init__.py:76-106 | every list, map and the axiom set start empty and every counter at zero; the data-property ranges are int, double and string; the invariant holds |
| `OntologyGen.OntologyGenerator.CountedDistinct` | learningscenariogenerators/__init__.py:108-143 | because each entity list holds exactly the entities numbered 1..counter, no list has duplicates and owl:Thing is never among the classes |
| `OntologyGen.OntologyGenerator.DistinctIris` | learningscenariogenerators/__init__.py:108-142 | the IRIs built from the ontology prefix and the counters are pairwise distinct for the classes, for the object properties, for the data properties, and for the individuals with the generator's local prefixes |
| `OntologyGen.OntologyGenerator.AddNewClass` | learningscenariogenerators/__init__.py:120-123 | the class counter goes up by one, `Cls(counter)` is appended and declared, and every other field keeps its value |
| `OntologyGen.OntologyGenerator.AddNewObjectProperty` | learningscenariogenerators/__init__.py:125-128 | the property counter goes up by one, the new property is appended and declared, nothing else changes |
| `OntologyGen.OntologyGenerator.AddNewDataProperty` | learningscenariogenerators/__init__.py:130-133 | the data-property counter goes up by one, the new data property is appended and declared, nothing else changes |
| `OntologyGen.OntologyGenerator.AddNewIndividual` | learningscenariogenerators/__init__.py:135-143 | the local prefix defaults to `indiv`; the individual counter goes up by one; the returned individual carries the given local prefix and the new count, is appended and declared; nothing else changes |
| `OntologyGen.OntologyGenerator.AddAxiom` | learningscenariogenerators/__init__.py:145-146 | the axiom set grows by exactly the given axiom |
| `OntologyGen.OntologyGenerator.InitRandomClassHierarchy` | learningscenariogenerators/__init__.py:148-163 | the hierarchy becomes a tree over the classes rooted at owl:Thing: every class is a key, sits in exactly one child list, and its parent is owl:Thing or an earlier class; the axioms grow by exactly one SubClassOf per class and every tree edge is asserted |
| `OntologyGen.BuildRandomHierarchy` | learningscenariogenerators/__init__.py:148-163 | the same loop on values: the result is a tree whose edges are asserted, parents come earlier, and the axioms added are exactly the SubClassOf axioms of the chosen parents |
| `OntologyGen.InitStep` | learningscenariogenerators/__init__.py:152-163 | one iteration that attaches a new class below any earlier candidate keeps the loop invariant (tree over the classes so far, candidates are owl:Thing and those classes, edges asserted) |
| `OntologyGen.InitDone` | learningscenariogenerators/__init__.py:148-163 | when the loop ends, the invariant gives the tree over all classes and the exact axiom set |
| `OntologyGen.AttachStep` | learningscenariogenerators/__init__.py:155-163 | attaching a fresh class below a class already in the tree keeps the tree, keeps every edge asserted and adds exactly its SubClassOf axiom |
| `ClassHierarchy.AttachPreservesTree` | learningscenariogenerators/__init__.py:160-163 | appending a fresh class to one child list and giving it an empty list of its own keeps every tree property |
| `ClassHierarchy.RootedAtThing` | learningscenariogenerators/__init__.py:148-163 | every class of the built tree lies in the subtree of owl:Thing |
| `ClassHierarchy.IdsIncreaseAlongPath` | learningscenariogenerators/__init__.py:155-162 | counters strictly increase down a child path, because parents are always created earlier |
| `ClassHierarchy.SiblingSubtreesDisjoint` | learningscenariogenerators/__init__.py:148-163 | two different children of one class have disjoint subtrees |
| `ClassHierarchy.CommonDescendant` | learningscenariogenerators/__init__.py:148-163 | in a tree two child paths ending at the same class start on one path, one above the other |
| `OntologyGen.OntologyGenerator.AllSubClasses` | learningscenariogenerators/__init__.py:165-172 | the result contains the class itself, and an element is in it exactly when it lies in the class's subtree (reflexive-transitive closure of the child relation) |
| `ClassHierarchy.SubClassesClosure` | learningscenariogenerators/__init__.py:165-172 | the recursive closure contains its root and is exactly the subtree |
| `ClassHierarchy.SubClassesSound` | learningscenariogenerators/__init__.py:165-172 | every listed class is reached from the root by a child path |
| `ClassHierarchy.SubClassesComplete` | learningscenariogenerators/__init__.py:165-172 | the end of every child path from the root is listed |
| `ClassHierarchy.ChildListedTwice` | learningscenariogenerators/__init__.py:166-170 | a direct child occurs at least twice in the closure: once from the copied child list and once from its own recursive call |
| `OntologyGen.OntologyGenerator.AllDirectSubClasses` | learningscenariogenerators/__init__.py:174-175 | in a built tree the result has no duplicates and holds exactly the classes whose parent is the given class |
| `OntologyGen.OntologyGenerator.ComplementOfSubtree` | learningscenariogenerators/__init__.py:177-182 | exactly the classes outside the class's subtree, without duplicates when the classes have none |
| `OntologyGen.OntologyGenerator.ClassesFromComplementOfSubtree` | learningscenariogenerators/__init__.py:177-182 | some ordering of the complement: exactly the classes outside the subtree, never the class itself nor owl:Thing, without duplicates |
| `OntologyGen.OntologyGenerator.PickRandomClass` | learningscenariogenerators/__init__.py:184-185 | the class returned is one of the classes |
| `OntologyGen.OntologyGenerator.SetObjectPropertyDomainAndRange` | learningscenariogenerators/__init__.py:187-197 | the property's domain and range entries become the given classes, other entries are unchanged, and exactly the two domain and range axioms are added |
| `OntologyGen.OntologyGenerator.SetDataPropertyDomainAndRange` | learningscenariogenerators/__init__.py:199-208 | the same for a data property and its datatype |
| `OntologyGen.OntologyGenerator.PickRandomClsWithAtLeastTwoSubClasses` | learningscenariogenerators/__init__.py:237-254 | on success the class has more than one direct child; it fails exactly when no class has more than one |
| `OntologyGen.OntologyGenerator.AddInstance` | learningscenariogenerators/__init__.py:256-261 | the class is appended to the individual's type list (duplicates allowed), a class-assertion axiom is added, and every other individual's types are unchanged |
| `OntologyGen.OntologyGenerator.HasTypes` | learningscenariogenerators/__init__.py:263-267 | an individual never typed has the empty list; every listed type is asserted |
| `OntologyGen.OntologyGenerator.GetRandomRangeClass` | learningscenariogenerators/__init__.py:287-292 | the class returned lies in the subtree of the property's range |
| `OntologyGen.OntologyGenerator.GetRandomDomainClass` | learningscenariogenerators/__init__.py:294-299 | the class returned lies in the subtree of the property's domain |
| `OntologyGen.OntologyGenerator.ObjectPropertiesByDomain` | learningscenariogenerators/__init__.py:301-313 | the scan returns the filter of the property list by "the class lies in the domain's subtree" |
| `OntologyGen.OntologyGenerator.ObjectPropertiesByRange` | learningscenariogenerators/__init__.py:315-327 | the same filter by range |
| `OntologyGen.Covering` | learningscenariogenerators/__init__.py:301-327 | the filter is no longer than the property list and holds exactly the properties whose domain (range) subtree contains the class |
| `OntologyGen.CoveringGrows` | learningscenariogenerators/__init__.py:305-311 | scanning one more property appends it exactly when its subtree contains the class |
| `OntologyGen.OntologyGenerator.RangeCls` | learningscenariogenerators/__init__.py:329-330 | the recorded range is asserted as a range axiom |
| `OntologyGen.OntologyGenerator.DomainCls` | learningscenariogenerators/__init__.py:332-333 | the recorded domain is asserted as a domain axiom |
| `OntologyGen.OntologyGenerator.RangeDatatype` | learningscenariogenerators/__init__.py:335-336 | the recorded datatype is asserted as a data range axiom |
| `Iri.DecimalInjective` | learningscenariogenerators/__init__.py:136-138 | `str` of a non-negative counter is injective |
| `Iri.TaggedIriInjective` | learningscenariogenerators/__init__.py:108-118 | for one prefix and tag, two counters give the same IRI exactly when they are equal |
| `Iri.ClassIriInjective` | learningscenariogenerators/__init__.py:108-110 | distinct classes, owl:Thing included, have distinct IRIs |
| `Iri.IndividualIriInjective` | learningscenariogenerators/__init__.py:135-138 | for the local prefixes the generator uses, two individuals share an IRI exactly when they are the same (prefix, counter) pair |
| `Iri.LocalPrefixCollision` | learningscenariogenerators/__init__.py:135-138 | for arbitrary local prefixes the IRI can collide: prefix "a1" with counter 1 and prefix "a" with counter 11 |
| `Owl.SpineOfNest` | learningscenariogenerators/simulatedannealing/__init__.py:686-700 | the nested expression built from a property sequence and a filler gives back that sequence and that filler |
| `Owl.NestOfSpine` | learningscenariogenerators/simulatedannealing/__init__.py:686-700 | every class expression is the nest of its own spine and inner class |
| `Owl.SameSpineDifferentFiller` | learningscenariogenerators/simulatedannealing/__init__.py:686-700 | the positive and negative expressions share their spine and are equal exactly when their fillers are |
| `AssertedSemantics.EdgesAssertedGrow` | learningscenariogenerators/__init__.py:145-146 | asserting more axioms keeps every tree edge asserted |
| `AssertedSemantics.InstanceMonotone` | learningscenariogenerators/__init__.py:145-146 | the generator only adds axioms, and a told instance stays one when axioms are added |
| `AssertedSemantics.SubtreeSubsumed` | learningscenariogenerators/__init__.py:155-156 | along a child path the asserted SubClassOf axioms climb from the last class to the first |
| `AssertedSemantics.InSubtreeSubsumed` | learningscenariogenerators/__init__.py:155-156 | every class in a subtree is subsumed by its root through asserted axioms |
| `AssertedSemantics.ChainInSubtree` | learningscenariogenerators/__init__.py:155-156 | when the only SubClassOf axioms are tree edges, a chain of them climbs from a member of a subtree to its root |
| `AssertedSemantics.SubsumedInSubtree` | learningscenariogenerators/__init__.py:155-156 | under the same condition a told subsumption is a subtree relation, the converse of `InSubtreeSubsumed` |
| `SimulatedAnnealing.NewScenario1Generator` | learningscenariogenerators/simulatedannealing/__init__.py:503-539 | the constructor fails exactly when overall - pos - neg < depth * (pos + neg) or there are fewer object properties than `depth`, and reports which bound fails |
| `SimulatedAnnealing.ConstructorBounds` | test/learningscenariogenerators/simulatedannealing/__init__.py:11-97 | the bounds' boundary cases: 240 individuals suffice and 239 do not for 20/20 examples at depth 5; two properties suffice and one does not at depth 2; the defaults are accepted |
| `SimulatedAnnealing.Scenario1Generator.GenerateTargetObjPropNesting` | learningscenariogenerators/simulatedannealing/__init__.py:541-555 | `depth` pairwise distinct object properties of the ontology |
| `SimulatedAnnealing.Scenario1Generator.TestFinalFiller` | learningscenariogenerators/simulatedannealing/__init__.py:578-582 | the test is true exactly when the class has at least two direct children and more than `depth` classes outside its subtree |
| `SimulatedAnnealing.Scenario1Generator.GetFinalFiller` | learningscenariogenerators/simulatedannealing/__init__.py:557-584 | a class found satisfies the filler test; nothing is found exactly when no class does |
| `SimulatedAnnealing.RemoveExamplesFromIndivs` | learningscenariogenerators/simulatedannealing/__init__.py:586-592 | each example is removed once: the multiset shrinks by the examples and the length by their number |
| `SimulatedAnnealing.RemainderDistinct` | learningscenariogenerators/simulatedannealing/__init__.py:731-736 | removing the examples from a duplicate-free list leaves a duplicate-free list containing no example |
| `SimulatedAnnealing.Scenario1Generator.BuildOntology` | learningscenariogenerators/simulatedannealing/__init__.py:594-606 | a fresh generator with the configured numbers of classes and properties, no individuals, no class assertion, and a tree hierarchy whose edges are exactly the asserted SubClassOf axioms |
| `SimulatedAnnealing.TreeEdgesOnly` | learningscenariogenerators/__init__.py:148-163 | the SubClassOf axioms of the random hierarchy, added where there were none, are exactly edges of the tree |
| `SimulatedAnnealing.AddClasses` | learningscenariogenerators/simulatedannealing/__init__.py:597-598 | the class list grows by the configured number (none if it is negative); no class assertion and no SubClassOf axiom is added |
| `SimulatedAnnealing.AddObjectProperties` | learningscenariogenerators/simulatedannealing/__init__.py:600-601 | the object-property list grows by the configured number; no class assertion and no SubClassOf axiom is added |
| `SimulatedAnnealing.AddDataProperties` | learningscenariogenerators/simulatedannealing/__init__.py:603-604 | the data-property list grows by the configured number; no class assertion and no SubClassOf axiom is added |
| `SimulatedAnnealing.AddIndividuals` | learningscenariogenerators/simulatedannealing/__init__.py:609-611 | the individuals grow by exactly the returned new individuals, as many as configured, all with the given local prefix; no class assertion and no SubClassOf axiom is added |
| `SimulatedAnnealing.Scenario1Generator.CreateIndividuals` | learningscenariogenerators/simulatedannealing/__init__.py:608-621 | positive, negative and other individuals are created in that order, with the configured counts and their local prefixes, and are exactly the generator's individuals; no class assertion and no SubClassOf axiom is added |
| `SimulatedAnnealing.PickFillerSubclasses` | learningscenariogenerators/simulatedannealing/__init__.py:626-634 | two different direct children of the filler; the hierarchy is not changed |
| `SimulatedAnnealing.Scenario1Generator.SetUpChain` | learningscenariogenerators/simulatedannealing/__init__.py:636-700 | `depth` distinct properties, their chained domains and ranges recorded and asserted, and the positive and negative nested expressions over them; no class assertion and no SubClassOf axiom is added |
| `SimulatedAnnealing.DrawChainClasses` | learningscenariogenerators/simulatedannealing/__init__.py:644-684 | the chain classes come from a permutation of the complement of the filler subtree: `domains[i+1] == ranges[i]`, the last range is the filler, and the `depth` popped classes are distinct and outside the filler subtree |
| `SimulatedAnnealing.AssignChainDomainsAndRanges` | learningscenariogenerators/simulatedannealing/__init__.py:655-684 | domains are the first `depth` candidates, ranges the next `depth - 1` followed by the filler; the maps and axioms record exactly these pairs |
| `SimulatedAnnealing.AssignedLookup` | learningscenariogenerators/simulatedannealing/__init__.py:672-681 | after assigning values to distinct keys, each key maps to its value and every other entry is unchanged |
| `SimulatedAnnealing.DomainRangeAxioms` | learningscenariogenerators/simulatedannealing/__init__.py:672-681 | the chain's axioms contain the domain and range axiom of every chain property |
| `SimulatedAnnealing.DomainRangeAxiomsOnly` | learningscenariogenerators/simulatedannealing/__init__.py:672-681 | and nothing else |
| `SimulatedAnnealing.DomainRangeUntyped` | learningscenariogenerators/simulatedannealing/__init__.py:672-681 | the chain's domain and range axioms type no individual and relate no two classes |
| `SimulatedAnnealing.BuildNestedExpression` | learningscenariogenerators/simulatedannealing/__init__.py:686-700 | the right-to-left loop builds exactly `p1 some (... pn some filler)` |
| `SimulatedAnnealing.AssignRemainingDomainsAndRanges` | learningscenariogenerators/simulatedannealing/__init__.py:702-714 | every property outside the chain gets a domain and a range among the classes; the chain's entries are kept; only domain and range axioms of non-chain properties are added, so no class assertion and no SubClassOf axiom |
| `SimulatedAnnealing.AssignRandomDomainAndRange` | learningscenariogenerators/simulatedannealing/__init__.py:710-714 | one property gets a domain and a range among the classes, recorded and asserted |
| `SimulatedAnnealing.OthersUntyped` | learningscenariogenerators/simulatedannealing/__init__.py:702-714 | domain and range axioms added are no class assertions and no SubClassOf axioms |
| `SimulatedAnnealing.OthersGrow` | learningscenariogenerators/simulatedannealing/__init__.py:703-714 | the axioms added up to one more property are still domain and range axioms of non-chain properties |
| `SimulatedAnnealing.PreparePool` | learningscenariogenerators/simulatedannealing/__init__.py:731-738 | the pool is a permutation of the non-example individuals, without duplicates and containing no example |
| `SimulatedAnnealing.ChooseSubClass` | learningscenariogenerators/simulatedannealing/__init__.py:745-747 | a class picked from the closure lies in the given subtree |
| `SimulatedAnnealing.AddHop` | learningscenariogenerators/simulatedannealing/__init__.py:752-763 | the popped individual is typed under a subclass of the range, linked from the current one by the property, and nothing else is asserted |
| `SimulatedAnnealing.WalkStep` | learningscenariogenerators/simulatedannealing/__init__.py:749-763 | one hop keeps the walk invariant: the hops so far are the example and a pool prefix, typed and linked as required |
| `SimulatedAnnealing.WalkChain` | learningscenariogenerators/simulatedannealing/__init__.py:744-777 | one example's walk pops exactly `depth` pool individuals; hop `i` is typed under a subclass of `ranges[i]` (the last one under the filler) and linked by `props[i]`; the axioms and types grow by exactly these |
| `SimulatedAnnealing.ChainAxioms` | learningscenariogenerators/simulatedannealing/__init__.py:744-777 | a walk's axioms contain every link and every typing of its hops |
| `SimulatedAnnealing.ChainAxiomsGrow` | learningscenariogenerators/simulatedannealing/__init__.py:758-763 | one more hop adds exactly its typing and its link |
| `SimulatedAnnealing.TypesAppendedKeeps` | learningscenariogenerators/simulatedannealing/__init__.py:744-777 | individuals outside the walk keep their type lists |
| `SimulatedAnnealing.WalkedByTypes` | learningscenariogenerators/simulatedannealing/__init__.py:744-777 | a walk's asserted typings and links make it a walked chain under the tree |
| `SimulatedAnnealing.ChainWalkedMonotone` | learningscenariogenerators/simulatedannealing/__init__.py:742-777 | later walks only add axioms, so an earlier walk stays walked |
| `SimulatedAnnealing.WalkChains` | learningscenariogenerators/simulatedannealing/__init__.py:742-777 | the walks of all examples of one kind: example `j` uses pool block `j`, and the rest of the pool is what remains after `depth` pops per example; each walk's last hop is typed under the filler's subtree only, the rest of the pool stays untyped, types are added only to the examples and the pool, and no SubClassOf axiom is added |
| `SimulatedAnnealing.WalkNext` | learningscenariogenerators/simulatedannealing/__init__.py:743-777 | the walk of the next example takes the next pool block of `depth` individuals, which fits in the pool; the rest of the pool is what follows that block, and one more example is walked; its last hop is typed under the filler's subtree only, the earlier last hops keep that, and the rest of the pool stays untyped |
| `SimulatedAnnealing.NextHop` | learningscenariogenerators/simulatedannealing/__init__.py:750-777 | one hop pops the next pool individual, types it under a subclass of the hop's range (the filler for the last hop), links it by the hop's property, and extends the walk by exactly that hop |
| `SimulatedAnnealing.AllWalkedStep` | learningscenariogenerators/simulatedannealing/__init__.py:742-777 | one more example's walk extends the walked prefix |
| `SimulatedAnnealing.AllWalkedMonotone` | learningscenariogenerators/simulatedannealing/__init__.py:742-902 | the negatives' walks keep the positives walked |
| `SimulatedAnnealing.WalkReaches` | learningscenariogenerators/simulatedannealing/__init__.py:742-777 | every walked example reaches a told instance of the final filler through hops drawn from the walked individuals |
| `SimulatedAnnealing.ExampleReaches` | learningscenariogenerators/simulatedannealing/__init__.py:742-777 | one example's block lies inside the walked prefix, so it reaches the filler through it |
| `SimulatedAnnealing.ChainReaches` | learningscenariogenerators/simulatedannealing/__init__.py:749-777 | a walked chain whose hops are walked individuals takes its start to the filler |
| `SimulatedAnnealing.ReachesFillerInstance` | learningscenariogenerators/simulatedannealing/__init__.py:686-777 | an individual that reaches the filler along the spine is a told instance of the nested expression |
| `SimulatedAnnealing.NestFrom` | learningscenariogenerators/simulatedannealing/__init__.py:686-700 | each hop of such a chain is a told instance of the rest of the nest |
| `SimulatedAnnealing.WalkAllChains` | learningscenariogenerators/simulatedannealing/__init__.py:867-902 | positives then negatives consume exactly the first `depth * (pos + neg)` pool individuals; every positive reaches the positive filler and every negative the negative filler through them; example `k` of the positives followed by the negatives walked block `k` of the walked individuals, and its last hop is typed under its own filler's subtree only; no SubClassOf axiom is added |
| `SimulatedAnnealing.WalkScenario` | learningscenariogenerators/simulatedannealing/__init__.py:716-902 | from the pool to the scenario: the background knowledge asserts exactly the tree's edges as SubClassOf axioms; shape, sizes, separation, each example's own block with its last hop typed under its own filler, under no class below the other filler and no told instance of it; walked and leftover individuals distinct and never examples |
| `SimulatedAnnealing.ScenarioFacts` | learningscenariogenerators/simulatedannealing/__init__.py:1361-1365 | the returned scenario has the chain's shape, example sets as large as the example lists, and separated examples |
| `SimulatedAnnealing.OwnChainsFacts` | learningscenariogenerators/simulatedannealing/__init__.py:742-902 | the walks read off the scenario: example `k` of the positives followed by the negatives walked its own block along the target's spine, and its last hop is typed under its own filler, under no class below the other, and is no told instance of the other |
| `SimulatedAnnealing.ExclusiveFiller` | learningscenariogenerators/simulatedannealing/__init__.py:626-634 | an individual typed only under one child's subtree is typed under nothing below a sibling of that child |
| `SimulatedAnnealing.NotToldUnderSibling` | learningscenariogenerators/simulatedannealing/__init__.py:626-634 | when the SubClassOf axioms are exactly the tree's edges, an individual typed only under one child's subtree is no told instance of a sibling of that child |
| `SimulatedAnnealing.ChainsShareNoIndividual` | learningscenariogenerators/simulatedannealing/__init__.py:742-902 | with duplicate-free walked individuals, the blocks of two different examples have no individual in common |
| `SimulatedAnnealing.PositivesWalked` | learningscenariogenerators/simulatedannealing/__init__.py:742-777 | positive example `k` walked block `k` of the walked individuals towards the positive filler |
| `SimulatedAnnealing.NegativesWalked` | learningscenariogenerators/simulatedannealing/__init__.py:867-902 | negative example `k` walked block `pos + k` of the walked individuals towards the negative filler |
| `SimulatedAnnealing.PositiveBlock` | learningscenariogenerators/simulatedannealing/__init__.py:742-777 | one positive example's walk is its block of the walked individuals |
| `SimulatedAnnealing.NegativeBlock` | learningscenariogenerators/simulatedannealing/__init__.py:867-902 | one negative example's walk, on the pool left by the positives, is its block of the walked individuals |
| `SimulatedAnnealing.BlockOfWalk` | learningscenariogenerators/simulatedannealing/__init__.py:749-777 | a walked chain whose last hop is typed under the filler's subtree only links the example through its hops to a told instance of the filler |
| `SimulatedAnnealing.WalkTypesStep` | learningscenariogenerators/simulatedannealing/__init__.py:742-777 | one more walk keeps the rest of the pool untyped and the earlier last hops typed under the filler only, types its own last hop under the filler only, and types only examples and pool individuals |
| `SimulatedAnnealing.StepTypesOnly` | learningscenariogenerators/simulatedannealing/__init__.py:744-763 | a walk adds types only to its example and its pool block |
| `SimulatedAnnealing.StepRestUntyped` | learningscenariogenerators/simulatedannealing/__init__.py:749-763 | a walk types no pool individual after its block |
| `SimulatedAnnealing.StepEarlierKept` | learningscenariogenerators/simulatedannealing/__init__.py:749-763 | a walk types no pool individual before its block |
| `SimulatedAnnealing.StepLastHop` | learningscenariogenerators/simulatedannealing/__init__.py:765-777 | the last hop, untyped before, is typed under the filler's subtree only |
| `SimulatedAnnealing.LastHopsKept` | learningscenariogenerators/simulatedannealing/__init__.py:742-902 | earlier last hops keep their types when the new axioms type none of the pool individuals they are among |
| `SimulatedAnnealing.PositivesKept` | learningscenariogenerators/simulatedannealing/__init__.py:867-902 | the negatives' walks type none of the positives' share of the pool |
| `SimulatedAnnealing.RestApart` | learningscenariogenerators/simulatedannealing/__init__.py:867-902 | what the positives leave of the pool is duplicate-free and holds no negative example |
| `SimulatedAnnealing.ChainAxiomsOnly` | learningscenariogenerators/simulatedannealing/__init__.py:744-777 | every class assertion of a walk types one of its hops with that hop's type |
| `SimulatedAnnealing.ChainUntyped` | learningscenariogenerators/simulatedannealing/__init__.py:744-777 | a walk types no individual outside its hops |
| `SimulatedAnnealing.ChainNoEdges` | learningscenariogenerators/simulatedannealing/__init__.py:744-777 | a walk asserts no SubClassOf axiom |
| `SimulatedAnnealing.ChainInTree` | learningscenariogenerators/simulatedannealing/__init__.py:742-777 | the first domain and every range the walks draw from are classes of the tree |
| `SimulatedAnnealing.Scenario1Generator.CountsAgree` | learningscenariogenerators/simulatedannealing/__init__.py:524-531 | with the configured counts, the constructor's bound says the walks need at most the non-example individuals |
| `SimulatedAnnealing.Scenario1Generator.PrepareChain` | learningscenariogenerators/simulatedannealing/__init__.py:626-714 | two different children of the filler, a chain of `depth` distinct properties whose domains and ranges are linked and asserted, a domain and a range for every other property, the two nested expressions; still no class assertion, and the SubClassOf axioms are still exactly the tree's edges |
| `SimulatedAnnealing.Scenario1Generator.BuildScenario` | learningscenariogenerators/simulatedannealing/__init__.py:623-777 | from the filler to the scenario, with the counts stated in the configured numbers, the generator's tree edges exactly the SubClassOf axioms of the background knowledge, and each example's own block as in `WalkScenario` |
| `SimulatedAnnealing.Scenario1Generator.PrepareOntology` | learningscenariogenerators/simulatedannealing/__init__.py:594-621 | a fresh generator with the configured numbers of classes and properties and a tree hierarchy whose edges are exactly the SubClassOf axioms, then the positive, negative and other individuals with the configured counts, all distinct, and no class assertion yet |
| `SimulatedAnnealing.Scenario1Generator.GenerateScenario` | learningscenariogenerators/simulatedannealing/__init__.py:594-777 | the hierarchy built is a tree over the configured number of classes; the result is a failure (no filler class) exactly when no class of it qualifies as the filler; on success: the SubClassOf axioms of the background knowledge are exactly the tree's edges; the target is a nest of `depth` distinct declared properties whose last range is above both fillers, and the negative concept shares the spine with another filler; the example sets have the configured sizes; every positive (negative) example is a told instance of the target (negative) concept via `depth` fresh individuals; example `k` walked its own block `walked[depth*k..depth*k+depth]`, whose last individual is typed under its own filler, under no class below the other filler, and is no told instance of it; exactly `depth * (pos + neg)` individuals are walked and the rest are left over, all distinct and never examples |
| `Seqs.NoDupSplit` | learningscenariogenerators/simulatedannealing/__init__.py:608-621 | the parts of a duplicate-free concatenation are duplicate-free and disjoint |
| `Seqs.ElementsOfDistinct` | learningscenariogenerators/simulatedannealing/__init__.py:1361-1363 | the set of a duplicate-free list has as many elements as the list |
| `Seqs.PermutationKeepsNoDup` | learningscenariogenerators/simulatedannealing/__init__.py:646-647 | shuffling keeps a list duplicate-free |
| `Seqs.RemoveFirst` | learningscenariogenerators/simulatedannealing/__init__.py:591-592 | `list.remove` of a present element drops its first occurrence and keeps the other elements in their order: the length shrinks by one and the multiset by that element |
| `Seqs.FirstIndex` | learningscenariogenerators/simulatedannealing/__init__.py:591-592 | the position found holds the element and no earlier position does |
| `Seqs.Without` | learningscenariogenerators/__init__.py:180-182 | the set difference keeps exactly the elements not excluded, duplicate-free when the input is |

## Left out

- `is_instance_of`, at learningscenariogenerators/__init__.py:270-285, is left out because it calls the OWLlink reasoner over the network and waits for console input. For the same reason, `pick_random_individual_by_cls` (lines 219-229) is left out; it scans the unshuffled individuals in creation order.
- The random augmentation loops are left out because they are driven by reasoner answers and by `random()`. They are learningscenariogenerators/simulatedannealing/__init__.py:779-864, 904-998 and 1013-1044. Not modelled with them:
  - the retry counter that treats a success on the tenth try as giving up;
  - the reuse of `domain` between the incoming and outgoing loops;
  - the property loop at lines 1003-1007, which never ends when every property is in the chain.
- These loops only add axioms. By `AssertedSemantics.InstanceMonotone` they cannot undo the separation. They could, however, make a negative example a told instance of the target as well; the model does not state that negatives are not instances of it.
- The walk over the leftover individuals (line 1001 on) is left out; only the leftover list itself and its disjointness from the walks are stated.
- `LearningScenario.write_sml_bench_scenario` (RDF/XML files on disk) is left out: it is file output.
- `generate_random_literal` and the literal counter are left out: they involve floating point and random words.
- The data-property domain assignment is left out: it is commented out at lines 724-729.
- Every `print` is left out.
- The random ontology prefix (`%06i` of `randint`) is left out: it is a constructor parameter of `OntologyGenerator` and of `GenerateScenario` instead.
- The dead, commented-out code at learningscenariogenerators/simulatedannealing/__init__.py:30-439 and 1047-1352 is left out.
- `pick_random_object_property`, `pick_random_data_property`, `pick_random_individual`, `pick_random_datatype` and `get_ontology` are left out. They are one-line choices or wrappers. The model uses the axiom set directly as the background ontology.
- `SimulatedAnnealing.Scenario1Generator.GetFinalFiller`: the source draws random classes until one qualifies. When there are classes but none qualifies, it never stops. When there are no classes, `pick_random_class` calls `choice` on the empty list, which raises (learningscenariogenerators/__init__.py:184-185). The model scans the classes in a random order and returns `None` in both cases, and then `GenerateScenario` returns `Failure(NoFillerClass)`. A class is found whenever one qualifies, so this covers every run that ends normally.
- `SimulatedAnnealing.Scenario1Generator.GenerateTargetObjPropNesting`: the source's resampling loop is modelled as a choice among the properties not yet picked. It terminates exactly when this choice exists, which the constructor's bound ensures.
- `SimulatedAnnealing.Scenario1Generator.GenerateScenario` requires a depth of at least 2. At depth 1 the source's chain loop leaves `last_range` as `None` and asserts a domain of `None`.
- `SimulatedAnnealing.Scenario1Generator.GenerateScenario` also requires non-negative example counts. With a negative count, Python's `range` silently creates nothing, and the constructor's bound no longer describes the pool.
- `SimulatedAnnealing.Scenario1Generator.GenerateScenario` states the told-instance relation, not reasoner entailment.
- `OntologyGen.OntologyGenerator.ClassesFromComplementOfSubtree`: the source iterates a Python set, whose order is unspecified. The model returns any ordering (a permutation) of the complement in creation order.
- Preconditions stand in for the source's exceptions in these places:
  - a missing key (`KeyError` in the getters);
  - an empty list given to `choice`;
  - an example missing from the individuals. `list.remove` then raises `ValueError` (learningscenariogenerators/simulatedannealing/__init__.py:592). `SimulatedAnnealing.RemoveExamplesFromIndivs` requires instead that the examples are among the individuals.
- Lists the source mutates in place are modelled as values. This covers the shuffled candidates, the pool with `pop(0)` and `_remove_examples_from_indivs`, where the model returns the new list. Aliasing of these local lists is not modelled; no other object refers to them.
- `get_all_sub_classes` returns each proper descendant twice. The model states membership only and does not state the list's order or multiplicities beyond `ChildListedTwice`.
