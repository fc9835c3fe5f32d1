/** The class hierarchy of the generator as a value: a map from each class
    to the list of its direct subclasses (`class_hierarchy` in
    learningscenariogenerators/__init__.py), the subtree query
    `get_all_sub_classes`, and the tree shape `init_random_class_hierarchy`
    builds. */
module ClassHierarchy {
  import opened Owl
  import opened Seqs

  /** Each class mapped to its direct subclasses, in insertion order. */
  type Hierarchy = map<OwlClass, seq<OwlClass>>

  /** The counter of a class; owl:Thing comes before every generated class. */
  function Id(c: OwlClass): nat {
    match c
    case Thing => 0
    case Cls(n) => n
  }

  /** Every listed child is itself a key and was created after its parent. */
  ghost predicate Ordered(h: Hierarchy) {
    forall p, c {:trigger c in h[p]} | p in h && c in h[p] :: c in h && Id(p) < Id(c)
  }

  /** The keys created no earlier than counter `k`: the termination measure
      of the subtree walk. */
  ghost function Above(h: Hierarchy, k: nat): set<OwlClass> {
    set x | x in h.Keys && Id(x) >= k
  }

  /** `get_all_sub_classes`: the direct children, then the class itself,
      then the subtree of every child in turn. */
  function SubClasses(h: Hierarchy, c: OwlClass): seq<OwlClass>
    requires Ordered(h) && c in h
    decreases Above(h, Id(c)), 0, 0
  {
    assert c in Above(h, Id(c));
    h[c] + [c] + SubClassesOfAll(h, h[c], Id(c) + 1)
  }

  /** The concatenated subtrees of `cs`, all created no earlier than `lo`. */
  function SubClassesOfAll(h: Hierarchy, cs: seq<OwlClass>, lo: nat): seq<OwlClass>
    requires Ordered(h)
    requires forall c | c in cs :: c in h && lo <= Id(c)
    decreases Above(h, lo), 1, |cs|
  {
    if cs == [] then [] else SubClasses(h, cs[0]) + SubClassesOfAll(h, cs[1..], lo)
  }

  /** `path` walks from a class to a direct child, to one of its children, ... */
  ghost predicate IsChildPath(h: Hierarchy, path: seq<OwlClass>) {
    |path| >= 1 && forall i | 0 <= i < |path| - 1 :: path[i] in h && path[i + 1] in h[path[i]]
  }

  /** `x` is `c` or a descendant of `c`: the reflexive-transitive closure
      of the child relation. */
  ghost predicate InSubtree(h: Hierarchy, c: OwlClass, x: OwlClass) {
    exists path :: IsChildPath(h, path) && path[0] == c && path[|path| - 1] == x
  }

  lemma SubClassesSound(h: Hierarchy, c: OwlClass, x: OwlClass) returns (path: seq<OwlClass>)
    requires Ordered(h) && c in h && x in SubClasses(h, c)
    ensures IsChildPath(h, path) && path[0] == c && path[|path| - 1] == x
    decreases Above(h, Id(c)), 0, 0
  {
    assert c in Above(h, Id(c));
    if x in h[c] {
      path := [c, x];
    } else if x == c {
      path := [c];
    } else {
      var i, p := SubClassesOfAllSound(h, h[c], Id(c) + 1, x);
      path := [c] + p;
      assert path[1] == h[c][i];
    }
  }

  lemma SubClassesOfAllSound(h: Hierarchy, cs: seq<OwlClass>, lo: nat, x: OwlClass)
    returns (i: nat, path: seq<OwlClass>)
    requires Ordered(h)
    requires forall c | c in cs :: c in h && lo <= Id(c)
    requires x in SubClassesOfAll(h, cs, lo)
    ensures i < |cs| && IsChildPath(h, path) && path[0] == cs[i] && path[|path| - 1] == x
    decreases Above(h, lo), 1, |cs|
  {
    if x in SubClasses(h, cs[0]) {
      i := 0;
      path := SubClassesSound(h, cs[0], x);
    } else {
      var j;
      j, path := SubClassesOfAllSound(h, cs[1..], lo, x);
      i := j + 1;
    }
  }

  /** The subtree of the k-th listed class is part of the concatenation. */
  lemma {:induction false} MemberOfAll(h: Hierarchy, cs: seq<OwlClass>, lo: nat, k: nat, x: OwlClass)
    requires Ordered(h)
    requires forall c | c in cs :: c in h && lo <= Id(c)
    requires k < |cs| && x in SubClasses(h, cs[k])
    ensures x in SubClassesOfAll(h, cs, lo)
  {
    if k > 0 {
      MemberOfAll(h, cs[1..], lo, k - 1, x);
    }
  }

  lemma {:induction false} SubClassesComplete(h: Hierarchy, path: seq<OwlClass>)
    requires Ordered(h) && IsChildPath(h, path) && path[0] in h
    ensures path[|path| - 1] in SubClasses(h, path[0])
    decreases |path|
  {
    var c := path[0];
    if |path| > 1 {
      var tail := path[1..];
      assert IsChildPath(h, tail) by {
        forall i | 0 <= i < |tail| - 1 ensures tail[i] in h && tail[i + 1] in h[tail[i]] {
          assert tail[i] == path[i + 1] && tail[i + 1] == path[i + 2];
        }
      }
      assert path[1] in h[c];
      SubClassesComplete(h, tail);
      var k :| 0 <= k < |h[c]| && h[c][k] == path[1];
      MemberOfAll(h, h[c], Id(c) + 1, k, path[|path| - 1]);
    }
  }

  /** The elements of `get_all_sub_classes(c)` are exactly `c` and its
      descendants. */
  lemma SubClassesClosure(h: Hierarchy, c: OwlClass)
    requires Ordered(h) && c in h
    ensures c in SubClasses(h, c)
    ensures forall x :: x in SubClasses(h, c) <==> InSubtree(h, c, x)
  {
    forall x ensures x in SubClasses(h, c) <==> InSubtree(h, c, x) {
      if x in SubClasses(h, c) {
        var path := SubClassesSound(h, c, x);
      }
      if InSubtree(h, c, x) {
        var path :| IsChildPath(h, path) && path[0] == c && path[|path| - 1] == x;
        SubClassesComplete(h, path);
      }
    }
  }

  /** `get_all_sub_classes` is not duplicate-free: a direct child occurs
      once in the copied child list and again at the head of its own
      subtree. */
  lemma ChildListedTwice(h: Hierarchy, c: OwlClass, x: OwlClass)
    requires Ordered(h) && c in h && x in h[c]
    ensures multiset(SubClasses(h, c))[x] >= 2
  {
    var k :| 0 <= k < |h[c]| && h[c][k] == x;
    var kids := h[c];
    var all := SubClassesOfAll(h, kids, Id(c) + 1);
    assert x in SubClasses(h, x);
    MemberOfAll(h, kids, Id(c) + 1, k, x);
    assert SubClasses(h, c) == kids + [c] + all;
    assert multiset(kids)[x] >= 1 && multiset(all)[x] >= 1;
  }

  /** Every listed child records the class that lists it as its parent. */
  ghost predicate ParentsRecorded(h: Hierarchy, parent: map<OwlClass, OwlClass>) {
    && (forall p, c {:trigger c in h[p]} | p in h && c in h[p] :: c in parent && parent[c] == p)
    && (forall c | c in parent :: parent[c] in h && c in h[parent[c]])
  }

  /** No child list mentions a class twice. */
  ghost predicate ChildListsDistinct(h: Hierarchy) {
    forall p | p in h :: NoDup(h[p])
  }

  /** The tree that `init_random_class_hierarchy` builds over `classes`:
      owl:Thing and every class are keys, every class has exactly one
      recorded parent, is listed once in that parent's child list and in no
      other, and was created after it. */
  ghost predicate IsTree(h: Hierarchy, parent: map<OwlClass, OwlClass>, classes: seq<OwlClass>) {
    && Thing !in classes
    && Thing in h
    && (forall c | c in classes :: c in h && c in parent)
    && (forall c | c in h && c != Thing :: c in classes)
    && (forall c | c in parent :: c in classes)
    && Ordered(h)
    && ParentsRecorded(h, parent)
    && ChildListsDistinct(h)
  }

  lemma EmptyTree()
    ensures IsTree(map[Thing := []], map[], [])
  {
  }

  /** One step of `init_random_class_hierarchy`: a new class with an empty
      child list, appended to the child list of a parent created earlier. */
  lemma AttachPreservesTree(h: Hierarchy, parent: map<OwlClass, OwlClass>, done: seq<OwlClass>,
                            c: OwlClass, sup: OwlClass)
    requires IsTree(h, parent, done)
    requires c != Thing && c !in h && sup in h && Id(sup) < Id(c)
    ensures IsTree(h[c := []][sup := h[sup] + [c]], parent[c := sup], done + [c])
  {
    var h' := h[c := []][sup := h[sup] + [c]];
    var parent' := parent[c := sup];
    var done' := done + [c];
    assert c !in done;
    assert c !in parent;
    assert forall p | p in h :: c !in h[p];
    assert Ordered(h') by {
      forall p, x | p in h' && x in h'[p] ensures x in h' && Id(p) < Id(x) {
        if p == sup && x == c {
        } else if p == c {
        } else if p == sup {
          assert x in h[sup];
        } else {
          assert x in h[p];
        }
      }
    }
    assert ParentsRecorded(h', parent') by {
      forall p, x | p in h' && x in h'[p] ensures x in parent' && parent'[x] == p {
        if p == sup && x == c {
        } else if p == c {
        } else if p == sup {
          assert x in h[sup];
        } else {
          assert x in h[p];
        }
      }
      forall x | x in parent' ensures parent'[x] in h' && x in h'[parent'[x]] {
        if x != c {
          assert x in parent;
        }
      }
    }
    assert ChildListsDistinct(h') by {
      forall p | p in h' ensures NoDup(h'[p]) {
        if p == sup {
          assert NoDup(h[sup]);
          assert c !in h[sup];
        } else if p != c {
          assert h'[p] == h[p];
        }
      }
    }
  }

  /** Counters strictly increase along a child path. */
  lemma {:induction false} IdsIncreaseAlongPath(h: Hierarchy, path: seq<OwlClass>)
    requires Ordered(h) && IsChildPath(h, path)
    ensures Id(path[0]) <= Id(path[|path| - 1])
    ensures |path| > 1 ==> Id(path[0]) < Id(path[|path| - 1])
  {
    if |path| > 1 {
      var init := path[..|path| - 1];
      assert IsChildPath(h, init) by {
        forall i | 0 <= i < |init| - 1 ensures init[i] in h && init[i + 1] in h[init[i]] {
          assert init[i] == path[i] && init[i + 1] == path[i + 1];
        }
      }
      IdsIncreaseAlongPath(h, init);
      assert path[|path| - 1] in h[path[|path| - 2]];
    }
  }

  /** The tree is rooted at owl:Thing: every key lies in Thing's subtree. */
  lemma {:induction false} RootedAtThing(h: Hierarchy, parent: map<OwlClass, OwlClass>,
                                         classes: seq<OwlClass>, c: OwlClass)
    requires IsTree(h, parent, classes) && c in h
    ensures InSubtree(h, Thing, c)
    decreases Id(c)
  {
    if c == Thing {
      assert IsChildPath(h, [Thing]);
    } else {
      assert c in parent;
      var p := parent[c];
      RootedAtThing(h, parent, classes, p);
      var path :| IsChildPath(h, path) && path[0] == Thing && path[|path| - 1] == p;
      var path' := path + [c];
      assert IsChildPath(h, path') by {
        forall i | 0 <= i < |path'| - 1 ensures path'[i] in h && path'[i + 1] in h[path'[i]] {
          if i < |path| - 1 {
            assert path'[i] == path[i] && path'[i + 1] == path[i + 1];
          }
        }
      }
    }
  }

  /** Two classes with a common descendant lie on one path: one is in the
      other's subtree. The returned path joins them. */
  lemma {:induction false} CommonDescendant(h: Hierarchy, parent: map<OwlClass, OwlClass>,
                                            pa: seq<OwlClass>, pb: seq<OwlClass>) returns (q: seq<OwlClass>)
    requires ParentsRecorded(h, parent)
    requires IsChildPath(h, pa) && IsChildPath(h, pb) && pa[|pa| - 1] == pb[|pb| - 1]
    ensures IsChildPath(h, q)
    ensures (q[0] == pa[0] && q[|q| - 1] == pb[0]) || (q[0] == pb[0] && q[|q| - 1] == pa[0])
    decreases |pa| + |pb|
  {
    if |pa| == 1 {
      q := pb;
    } else if |pb| == 1 {
      q := pa;
    } else {
      var x := pa[|pa| - 1];
      var pa', pb' := pa[..|pa| - 1], pb[..|pb| - 1];
      assert IsChildPath(h, pa') by {
        forall i | 0 <= i < |pa'| - 1 ensures pa'[i] in h && pa'[i + 1] in h[pa'[i]] {
          assert pa'[i] == pa[i] && pa'[i + 1] == pa[i + 1];
        }
      }
      assert IsChildPath(h, pb') by {
        forall i | 0 <= i < |pb'| - 1 ensures pb'[i] in h && pb'[i + 1] in h[pb'[i]] {
          assert pb'[i] == pb[i] && pb'[i + 1] == pb[i + 1];
        }
      }
      assert x in h[pa[|pa| - 2]] && x in h[pb[|pb| - 2]];
      assert pa'[|pa'| - 1] == parent[x] == pb'[|pb'| - 1];
      q := CommonDescendant(h, parent, pa', pb');
    }
  }

  /** Distinct children of one parent have disjoint subtrees. */
  lemma SiblingSubtreesDisjoint(h: Hierarchy, parent: map<OwlClass, OwlClass>, classes: seq<OwlClass>,
                                p: OwlClass, a: OwlClass, b: OwlClass, x: OwlClass)
    requires IsTree(h, parent, classes)
    requires p in h && a in h[p] && b in h[p] && a != b
    ensures !(InSubtree(h, a, x) && InSubtree(h, b, x))
  {
    if InSubtree(h, a, x) && InSubtree(h, b, x) {
      var pa :| IsChildPath(h, pa) && pa[0] == a && pa[|pa| - 1] == x;
      var pb :| IsChildPath(h, pb) && pb[0] == b && pb[|pb| - 1] == x;
      var q := CommonDescendant(h, parent, pa, pb);
      var top, bottom := q[0], q[|q| - 1];
      assert |q| >= 2;
      var q' := q[..|q| - 1];
      assert IsChildPath(h, q') by {
        forall i | 0 <= i < |q'| - 1 ensures q'[i] in h && q'[i + 1] in h[q'[i]] {
          assert q'[i] == q[i] && q'[i + 1] == q[i + 1];
        }
      }
      assert bottom in h[q[|q| - 2]];
      assert q'[|q'| - 1] == p;
      IdsIncreaseAlongPath(h, q');
    }
  }
}
