/** IRIs of the generated entities (learningscenariogenerators/__init__.py,
    `_next_*_iri` and `add_new_individual`): the ontology prefix, a local
    part and the decimal counter. */
module Iri {
  import opened Owl

  const OwlThingIri := "http://www.w3.org/2002/07/owl#Thing"

  predicate IsDigit(ch: char) { '0' <= ch <= '9' }

  function DigitChar(d: nat): (ch: char)
    requires d < 10
    ensures IsDigit(ch)
  {
    (48 + d) as char
  }

  /** Python's `str(n)` for a non-negative integer. */
  function Decimal(n: nat): (s: string)
    ensures |s| >= 1 && IsDigit(s[|s| - 1])
    ensures n < 10 <==> |s| == 1
  {
    if n < 10 then [DigitChar(n)] else Decimal(n / 10) + [DigitChar(n % 10)]
  }

  lemma {:induction false} DecimalInjective(n: nat, m: nat)
    ensures Decimal(n) == Decimal(m) <==> n == m
  {
    if n >= 10 && m >= 10 {
      DecimalInjective(n / 10, m / 10);
      var a, b := Decimal(n / 10), Decimal(m / 10);
      if Decimal(n) == Decimal(m) {
        assert |a| == |b|;
        assert a == Decimal(n)[..|a|] && b == Decimal(m)[..|b|];
        assert Decimal(n)[|a|] == DigitChar(n % 10) && Decimal(m)[|b|] == DigitChar(m % 10);
      }
    }
  }

  /** Appending to a common prefix keeps distinct suffixes distinct. */
  lemma PrefixCancel(p: string, a: string, b: string)
    ensures p + a == p + b <==> a == b
  {
    if p + a == p + b {
      assert a == (p + a)[|p|..] && b == (p + b)[|p|..];
    }
  }

  function TaggedIri(ontologyPrefix: string, tag: string, n: nat): string {
    ontologyPrefix + tag + Decimal(n)
  }

  /** For a fixed prefix and tag, successive counters give distinct IRIs. */
  lemma TaggedIriInjective(ontologyPrefix: string, tag: string, n: nat, m: nat)
    ensures TaggedIri(ontologyPrefix, tag, n) == TaggedIri(ontologyPrefix, tag, m) <==> n == m
  {
    PrefixCancel(ontologyPrefix + tag, Decimal(n), Decimal(m));
    assert TaggedIri(ontologyPrefix, tag, n) == (ontologyPrefix + tag) + Decimal(n);
    assert TaggedIri(ontologyPrefix, tag, m) == (ontologyPrefix + tag) + Decimal(m);
    DecimalInjective(n, m);
  }

  function ClassIri(ontologyPrefix: string, c: OwlClass): string {
    match c
    case Thing => OwlThingIri
    case Cls(n) => TaggedIri(ontologyPrefix, "Cls", n)
  }

  /** Distinct classes have distinct IRIs, whatever the ontology prefix:
      generated IRIs end in a digit, owl:Thing's does not. */
  lemma ClassIriInjective(ontologyPrefix: string, c: OwlClass, d: OwlClass)
    ensures ClassIri(ontologyPrefix, c) == ClassIri(ontologyPrefix, d) <==> c == d
  {
    match (c, d)
    case (Cls(n), Cls(m)) => TaggedIriInjective(ontologyPrefix, "Cls", n, m);
    case (Thing, Thing) =>
    case (Cls(n), Thing) =>
      var s := TaggedIri(ontologyPrefix, "Cls", n);
      assert s[|s| - 1] == Decimal(n)[|Decimal(n)| - 1];
      assert OwlThingIri[|OwlThingIri| - 1] == 'g';
    case (Thing, Cls(m)) =>
      var s := TaggedIri(ontologyPrefix, "Cls", m);
      assert s[|s| - 1] == Decimal(m)[|Decimal(m)| - 1];
      assert OwlThingIri[|OwlThingIri| - 1] == 'g';
  }

  function ObjectPropertyIri(ontologyPrefix: string, p: ObjectProperty): string {
    TaggedIri(ontologyPrefix, "objProp", p.n)
  }

  function DataPropertyIri(ontologyPrefix: string, p: DataProperty): string {
    TaggedIri(ontologyPrefix, "dataProp", p.n)
  }

  /** `ontology_prefix + local_part_prefix + str(counter)`. */
  function IndividualIri(ontologyPrefix: string, i: Individual): string {
    TaggedIri(ontologyPrefix, i.localPrefix, i.n)
  }

  /** The local-part prefixes the scenario generator uses. */
  predicate GeneratorPrefix(localPrefix: string) {
    localPrefix == "pos_indiv" || localPrefix == "neg_indiv" || localPrefix == "indiv"
  }

  /** For the generator's prefixes, IRI identity and model identity agree:
      two individuals share an IRI exactly when they are the same
      (prefix, counter) pair. */
  lemma IndividualIriInjective(ontologyPrefix: string, i: Individual, j: Individual)
    requires GeneratorPrefix(i.localPrefix) && GeneratorPrefix(j.localPrefix)
    ensures IndividualIri(ontologyPrefix, i) == IndividualIri(ontologyPrefix, j) <==> i == j
  {
    if i.localPrefix == j.localPrefix {
      TaggedIriInjective(ontologyPrefix, i.localPrefix, i.n, j.n);
    } else {
      var s, t := IndividualIri(ontologyPrefix, i), IndividualIri(ontologyPrefix, j);
      var k := |ontologyPrefix|;
      assert s[k] == i.localPrefix[0] && t[k] == j.localPrefix[0];
    }
  }

  /** For arbitrary prefixes the (prefix, counter) identity is finer than
      IRI identity: "a1" with counter 1 and "a" with counter 11 collide. */
  lemma LocalPrefixCollision(ontologyPrefix: string)
    ensures Individual("a1", 1) != Individual("a", 11)
    ensures IndividualIri(ontologyPrefix, Individual("a1", 1)) == IndividualIri(ontologyPrefix, Individual("a", 11))
  {
    assert Decimal(11) == Decimal(1) + [DigitChar(1)];
    assert Decimal(1) == ['1'];
    assert "a1" + "1" == "a" + "11";
  }
}
