/** What the generated axioms assert, read without a reasoner: an
    individual is a told instance of a class when one of its asserted types
    climbs to that class along asserted SubClassOf axioms, and of `p some F`
    when it has an asserted `p`-successor that is a told instance of `F`.
    Everything told is entailed, so this relation under-approximates the
    entailment the OWLlink reasoner would compute. */
module AssertedSemantics {
  import opened Owl
  import opened ClassHierarchy

  /** `path` climbs from a class to a superclass along asserted SubClassOf axioms. */
  ghost predicate IsSubClassChain(ax: set<Axiom>, path: seq<OwlClass>) {
    |path| >= 1 && forall i | 0 <= i < |path| - 1 :: SubClassOf(path[i], path[i + 1]) in ax
  }

  ghost predicate SubsumedBy(ax: set<Axiom>, sub: OwlClass, sup: OwlClass) {
    exists path :: IsSubClassChain(ax, path) && path[0] == sub && path[|path| - 1] == sup
  }

  ghost predicate AssertedInstanceOf(ax: set<Axiom>, x: Individual, e: ClassExpression)
    decreases e
  {
    match e
    case Atomic(c) =>
      exists t :: ClassAssertion(x, t) in ax && SubsumedBy(ax, t, c)
    case ObjectSomeValuesFrom(p, f) =>
      exists y :: ObjectPropertyAssertion(x, p, y) in ax && AssertedInstanceOf(ax, y, f)
  }

  /** Every child edge of the hierarchy is asserted as a SubClassOf axiom. */
  ghost predicate EdgesAsserted(ax: set<Axiom>, h: Hierarchy) {
    forall p, c {:trigger c in h[p]} | p in h && c in h[p] :: SubClassOf(c, p) in ax
  }

  /** Every asserted SubClassOf axiom is a child edge of the hierarchy. */
  ghost predicate OnlyEdgesAsserted(ax: set<Axiom>, h: Hierarchy) {
    forall c, p | SubClassOf(c, p) in ax :: p in h && c in h[p]
  }

  /** When the only SubClassOf axioms are the hierarchy's edges, a chain
      of them climbs from a class of the subtree to the subtree's root. */
  lemma {:induction false} ChainInSubtree(ax: set<Axiom>, h: Hierarchy, path: seq<OwlClass>)
    requires OnlyEdgesAsserted(ax, h) && IsSubClassChain(ax, path)
    ensures InSubtree(h, path[|path| - 1], path[0])
    decreases |path|
  {
    if |path| == 1 {
      assert IsChildPath(h, [path[0]]);
    } else {
      var up := path[1..];
      assert IsSubClassChain(ax, up) by {
        forall i | 0 <= i < |up| - 1 ensures SubClassOf(up[i], up[i + 1]) in ax {
          assert up[i] == path[i + 1] && up[i + 1] == path[i + 2];
        }
      }
      ChainInSubtree(ax, h, up);
      var down :| IsChildPath(h, down) && down[0] == up[|up| - 1] && down[|down| - 1] == up[0];
      assert SubClassOf(path[0], path[1]) in ax;
      var down' := down + [path[0]];
      assert IsChildPath(h, down') by {
        forall i | 0 <= i < |down'| - 1 ensures down'[i] in h && down'[i + 1] in h[down'[i]] {
          if i < |down| - 1 {
            assert down'[i] == down[i] && down'[i + 1] == down[i + 1];
          }
        }
      }
      assert down'[0] == path[|path| - 1];
    }
  }

  /** The converse of `InSubtreeSubsumed` under the same condition: a told
      subsumption is a subtree relation. */
  lemma SubsumedInSubtree(ax: set<Axiom>, h: Hierarchy, sub: OwlClass, sup: OwlClass)
    requires OnlyEdgesAsserted(ax, h)
    ensures SubsumedBy(ax, sub, sup) ==> InSubtree(h, sup, sub)
  {
    if SubsumedBy(ax, sub, sup) {
      var path :| IsSubClassChain(ax, path) && path[0] == sub && path[|path| - 1] == sup;
      ChainInSubtree(ax, h, path);
    }
  }

  /** Asserting more keeps the edges asserted. */
  lemma EdgesAssertedGrow(ax: set<Axiom>, ax': set<Axiom>, h: Hierarchy)
    requires EdgesAsserted(ax, h) && ax <= ax'
    ensures EdgesAsserted(ax', h)
  {
  }

  /** Adding axioms never retracts a told instance: the relation holds in
      the final ontology, whatever is asserted after it was established. */
  lemma {:induction false} InstanceMonotone(ax: set<Axiom>, ax': set<Axiom>, x: Individual, e: ClassExpression)
    requires ax <= ax' && AssertedInstanceOf(ax, x, e)
    ensures AssertedInstanceOf(ax', x, e)
    decreases e
  {
    match e
    case Atomic(c) =>
      var t :| ClassAssertion(x, t) in ax && SubsumedBy(ax, t, c);
      var path :| IsSubClassChain(ax, path) && path[0] == t && path[|path| - 1] == c;
      assert IsSubClassChain(ax', path);
    case ObjectSomeValuesFrom(p, f) =>
      var y :| ObjectPropertyAssertion(x, p, y) in ax && AssertedInstanceOf(ax, y, f);
      InstanceMonotone(ax, ax', y, f);
  }

  /** A class in the subtree of `c` is told to be subsumed by `c` once the
      hierarchy's edges are asserted. */
  lemma {:induction false} SubtreeSubsumed(ax: set<Axiom>, h: Hierarchy, path: seq<OwlClass>)
    requires EdgesAsserted(ax, h) && IsChildPath(h, path)
    ensures SubsumedBy(ax, path[|path| - 1], path[0])
    decreases |path|
  {
    if |path| == 1 {
      assert IsSubClassChain(ax, [path[0]]);
    } else {
      var init := path[..|path| - 1];
      assert IsChildPath(h, init) by {
        forall i | 0 <= i < |init| - 1 ensures init[i] in h && init[i + 1] in h[init[i]] {
          assert init[i] == path[i] && init[i + 1] == path[i + 1];
        }
      }
      SubtreeSubsumed(ax, h, init);
      var up :| IsSubClassChain(ax, up) && up[0] == init[|init| - 1] && up[|up| - 1] == path[0];
      var x := path[|path| - 1];
      assert x in h[path[|path| - 2]];
      var up' := [x] + up;
      assert IsSubClassChain(ax, up') by {
        forall i | 0 <= i < |up'| - 1 ensures SubClassOf(up'[i], up'[i + 1]) in ax {
          if i > 0 {
            assert up'[i] == up[i - 1] && up'[i + 1] == up[i];
          }
        }
      }
    }
  }

  lemma InSubtreeSubsumed(ax: set<Axiom>, h: Hierarchy, c: OwlClass, x: OwlClass)
    requires EdgesAsserted(ax, h) && InSubtree(h, c, x)
    ensures SubsumedBy(ax, x, c)
  {
    var path :| IsChildPath(h, path) && path[0] == c && path[|path| - 1] == x;
    SubtreeSubsumed(ax, h, path);
  }

  /** `h` is a class tree over `classes` (see `IsTree`) and each of its
      edges is asserted in `ax`. */
  ghost predicate TreeEdges(h: Hierarchy, parent: map<OwlClass, OwlClass>, classes: seq<OwlClass>, ax: set<Axiom>)
  {
    IsTree(h, parent, classes) && EdgesAsserted(ax, h)
  }

  /** Every listed entity is declared in `ax`. */
  ghost predicate AllDeclared(classes: seq<OwlClass>, objectProperties: seq<ObjectProperty>,
                              dataProperties: seq<DataProperty>, individuals: seq<Individual>, ax: set<Axiom>)
  {
    && (forall c | c in classes :: ClassDeclaration(c) in ax)
    && (forall p | p in objectProperties :: ObjectPropertyDeclaration(p) in ax)
    && (forall p | p in dataProperties :: DataPropertyDeclaration(p) in ax)
    && (forall x | x in individuals :: NamedIndividualDeclaration(x) in ax)
  }

  /** Every recorded domain, range and type is asserted in `ax`. */
  ghost predicate AllRecorded(objectPropertyDomains: map<ObjectProperty, OwlClass>,
                              objectPropertyRanges: map<ObjectProperty, OwlClass>,
                              dataPropertyDomains: map<DataProperty, OwlClass>,
                              dataPropertyRanges: map<DataProperty, Datatype>,
                              individualsTypes: map<Individual, seq<OwlClass>>, ax: set<Axiom>)
  {
    && (forall p | p in objectPropertyDomains :: ObjectPropertyDomain(p, objectPropertyDomains[p]) in ax)
    && (forall p | p in objectPropertyRanges :: ObjectPropertyRange(p, objectPropertyRanges[p]) in ax)
    && (forall p | p in dataPropertyDomains :: DataPropertyDomain(p, dataPropertyDomains[p]) in ax)
    && (forall p | p in dataPropertyRanges :: DataPropertyRange(p, dataPropertyRanges[p]) in ax)
    && (forall x, c {:trigger c in individualsTypes[x]} | x in individualsTypes && c in individualsTypes[x] ::
          ClassAssertion(x, c) in ax)
  }
}
