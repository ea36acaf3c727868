/**
 * The slug-based tags of `lib/merge-batch-data.ts`: a location's type and a
 * service's category, each decided by an if-chain of substring tests in
 * which the first test that holds wins.
 */
module Classification {
  import opened Text

  datatype LocationType = City | District | Suburb | Remote

  datatype ServiceCategory = Structures | PropertyPaths | Reporting | Tax | Education | Timelines

  /** The location type as the source's if-chain computes it. */
  function LocationTypeOf(slug: string): LocationType {
    if Contains(slug, "downtown") || Contains(slug, "district") || Contains(slug, "southside") ||
       Contains(slug, "7th") || Contains(slug, "stockyards") || Contains(slug, "clearfork") then
      District
    else if slug == "remote" then
      Remote
    else if Contains(slug, "benbrook") || Contains(slug, "ridglea") then
      Suburb
    else
      City
  }

  /** The service category as the source's if-chain computes it. */
  function ServiceCategoryOf(slug: string): ServiceCategory {
    if Contains(slug, "exchange") && !Contains(slug, "property") then
      Structures
    else if Contains(slug, "identification") || Contains(slug, "property") then
      PropertyPaths
    else if Contains(slug, "reporting") || Contains(slug, "documentation") then
      Reporting
    else if Contains(slug, "tax") || Contains(slug, "boot") || Contains(slug, "depreciation") then
      Tax
    else if Contains(slug, "education") || Contains(slug, "consultation") then
      Education
    else if Contains(slug, "timeline") || Contains(slug, "deadline") then
      Timelines
    else
      PropertyPaths
  }

  // ------------------------------------------------------------------
  // The same policy as an ordered rule table, evaluated first match wins.

  /** A test on a slug. */
  datatype Test =
    | AnyOf(keys: seq<string>)                    // contains one of the keys
    | Exactly(word: string)                       // is the word itself
    | WithWithout(with: string, without: string)  // contains one and not the other

  predicate Holds(t: Test, slug: string) {
    match t
    case AnyOf(keys) => exists k :: k in keys && Contains(slug, k)
    case Exactly(w) => slug == w
    case WithWithout(a, b) => Contains(slug, a) && !Contains(slug, b)
  }

  datatype Rule<C> = Rule(test: Test, result: C)

  /** The result of the first rule whose test holds, or `default` when none does. */
  function FirstMatch<C>(rules: seq<Rule<C>>, slug: string, default: C): C {
    if rules == [] then default
    else if Holds(rules[0].test, slug) then rules[0].result
    else FirstMatch(rules[1..], slug, default)
  }

  /** The rule table answers with the result of the first rule that holds... */
  lemma {:induction false} FirstMatchIsFirst<C>(rules: seq<Rule<C>>, slug: string, default: C, i: nat)
    requires i < |rules| && Holds(rules[i].test, slug)
    requires forall j :: 0 <= j < i ==> !Holds(rules[j].test, slug)
    ensures FirstMatch(rules, slug, default) == rules[i].result
  {
    if i > 0 {
      assert !Holds(rules[0].test, slug);
      assert rules[1..][i - 1] == rules[i];
      FirstMatchIsFirst(rules[1..], slug, default, i - 1);
      assert FirstMatch(rules, slug, default) == FirstMatch(rules[1..], slug, default);
    }
  }

  /** ...and with the default when no rule holds. */
  lemma {:induction false} FirstMatchDefault<C>(rules: seq<Rule<C>>, slug: string, default: C)
    requires forall j :: 0 <= j < |rules| ==> !Holds(rules[j].test, slug)
    ensures FirstMatch(rules, slug, default) == default
  {
    if rules != [] {
      assert !Holds(rules[0].test, slug);
      FirstMatchDefault(rules[1..], slug, default);
      assert FirstMatch(rules, slug, default) == FirstMatch(rules[1..], slug, default);
    }
  }

  const DistrictKeywords: seq<string> := ["downtown", "district", "southside", "7th", "stockyards", "clearfork"]
  const SuburbKeywords: seq<string> := ["benbrook", "ridglea"]

  const LocationRules: seq<Rule<LocationType>> := [
    Rule(AnyOf(DistrictKeywords), District),
    Rule(Exactly("remote"), Remote),
    Rule(AnyOf(SuburbKeywords), Suburb)
  ]

  const ServiceRules: seq<Rule<ServiceCategory>> := [
    Rule(WithWithout("exchange", "property"), Structures),
    Rule(AnyOf(["identification", "property"]), PropertyPaths),
    Rule(AnyOf(["reporting", "documentation"]), Reporting),
    Rule(AnyOf(["tax", "boot", "depreciation"]), Tax),
    Rule(AnyOf(["education", "consultation"]), Education),
    Rule(AnyOf(["timeline", "deadline"]), Timelines)
  ]

  lemma AnyOfTwo(slug: string, a: string, b: string)
    ensures Holds(AnyOf([a, b]), slug) <==> Contains(slug, a) || Contains(slug, b)
  {
    assert [a, b][0] == a && [a, b][1] == b;
  }

  lemma AnyOfThree(slug: string, a: string, b: string, c: string)
    ensures Holds(AnyOf([a, b, c]), slug) <==> Contains(slug, a) || Contains(slug, b) || Contains(slug, c)
  {
    assert [a, b, c][0] == a && [a, b, c][1] == b && [a, b, c][2] == c;
  }

  /** The location if-chain is the location rule table, for any keywords. */
  lemma {:induction false} LocationChain(slug: string, districts: seq<string>, remote: string, suburbs: seq<string>)
    ensures (if Holds(AnyOf(districts), slug) then District
             else if slug == remote then Remote
             else if Holds(AnyOf(suburbs), slug) then Suburb
             else City)
         == FirstMatch([Rule(AnyOf(districts), District), Rule(Exactly(remote), Remote), Rule(AnyOf(suburbs), Suburb)], slug, City)
  {
    var rs := [Rule(AnyOf(districts), District), Rule(Exactly(remote), Remote), Rule(AnyOf(suburbs), Suburb)];
    if Holds(rs[0].test, slug) {
      FirstMatchIsFirst(rs, slug, City, 0);
    } else if Holds(rs[1].test, slug) {
      FirstMatchIsFirst(rs, slug, City, 1);
    } else if Holds(rs[2].test, slug) {
      FirstMatchIsFirst(rs, slug, City, 2);
    } else {
      FirstMatchDefault(rs, slug, City);
    }
  }

  /** The location if-chain is the location rule table, with `city` as the default. */
  lemma LocationTypeByRules(slug: string)
    ensures LocationTypeOf(slug) == FirstMatch(LocationRules, slug, City)
  {
    var ds := DistrictKeywords;
    assert Holds(AnyOf(ds), slug) <==>
      Contains(slug, ds[0]) || Contains(slug, ds[1]) || Contains(slug, ds[2]) ||
      Contains(slug, ds[3]) || Contains(slug, ds[4]) || Contains(slug, ds[5]);
    AnyOfTwo(slug, "benbrook", "ridglea");
    LocationChain(slug, DistrictKeywords, "remote", SuburbKeywords);
  }

  /** The service if-chain is the service rule table, for any keywords. */
  lemma {:induction false} ServiceChain(slug: string, with: string, without: string,
                                        t1: seq<string>, t2: seq<string>, t3: seq<string>, t4: seq<string>, t5: seq<string>)
    ensures (if Holds(WithWithout(with, without), slug) then Structures
             else if Holds(AnyOf(t1), slug) then PropertyPaths
             else if Holds(AnyOf(t2), slug) then Reporting
             else if Holds(AnyOf(t3), slug) then Tax
             else if Holds(AnyOf(t4), slug) then Education
             else if Holds(AnyOf(t5), slug) then Timelines
             else PropertyPaths)
         == FirstMatch([Rule(WithWithout(with, without), Structures), Rule(AnyOf(t1), PropertyPaths),
                        Rule(AnyOf(t2), Reporting), Rule(AnyOf(t3), Tax), Rule(AnyOf(t4), Education),
                        Rule(AnyOf(t5), Timelines)], slug, PropertyPaths)
  {
    var rs := [Rule(WithWithout(with, without), Structures), Rule(AnyOf(t1), PropertyPaths),
               Rule(AnyOf(t2), Reporting), Rule(AnyOf(t3), Tax), Rule(AnyOf(t4), Education),
               Rule(AnyOf(t5), Timelines)];
    if Holds(rs[0].test, slug) {
      FirstMatchIsFirst(rs, slug, PropertyPaths, 0);
    } else if Holds(rs[1].test, slug) {
      FirstMatchIsFirst(rs, slug, PropertyPaths, 1);
    } else if Holds(rs[2].test, slug) {
      FirstMatchIsFirst(rs, slug, PropertyPaths, 2);
    } else if Holds(rs[3].test, slug) {
      FirstMatchIsFirst(rs, slug, PropertyPaths, 3);
    } else if Holds(rs[4].test, slug) {
      FirstMatchIsFirst(rs, slug, PropertyPaths, 4);
    } else if Holds(rs[5].test, slug) {
      FirstMatchIsFirst(rs, slug, PropertyPaths, 5);
    } else {
      FirstMatchDefault(rs, slug, PropertyPaths);
    }
  }

  /** The service if-chain is the service rule table, with `Property Paths` as the default. */
  lemma ServiceCategoryByRules(slug: string)
    ensures ServiceCategoryOf(slug) == FirstMatch(ServiceRules, slug, PropertyPaths)
  {
    AnyOfTwo(slug, "identification", "property");
    AnyOfTwo(slug, "reporting", "documentation");
    AnyOfThree(slug, "tax", "boot", "depreciation");
    AnyOfTwo(slug, "education", "consultation");
    AnyOfTwo(slug, "timeline", "deadline");
    ServiceChain(slug, "exchange", "property", ["identification", "property"], ["reporting", "documentation"],
                 ["tax", "boot", "depreciation"], ["education", "consultation"], ["timeline", "deadline"]);
  }

  /** Every character of an included string occurs in the including one. */
  lemma ContainsChars(s: string, t: string)
    requires Contains(s, t)
    ensures forall j :: 0 <= j < |t| ==> t[j] in s
  {
    var i := ContainsWitness(s, t);
    forall j | 0 <= j < |t| ensures t[j] in s {
      assert s[i..i + |t|][j] == s[i + j];
    }
  }

  /** A string with a character the other lacks is not included in it. */
  lemma MissingChar(s: string, t: string, c: char)
    requires c in t && c !in s
    ensures !Contains(s, t)
  {
    if Contains(s, t) {
      ContainsChars(s, t);
    }
  }

  /** The slug `remote` is tagged `remote`, and no other slug is. */
  lemma RemoteExactly(slug: string)
    ensures LocationTypeOf(slug) == Remote <==> slug == "remote"
  {
    if slug == "remote" {
      MissingChar(slug, "7th", '7');
    }
  }

  /** A slug with a district keyword is a district, whatever else it contains. */
  lemma DistrictFirst(slug: string, k: string)
    requires k in DistrictKeywords && Contains(slug, k)
    ensures LocationTypeOf(slug) == District
  {
  }

  /** A slug with `exchange` and without `property` is a structure, whatever else it contains. */
  lemma StructuresFirst(slug: string)
    requires Contains(slug, "exchange") && !Contains(slug, "property")
    ensures ServiceCategoryOf(slug) == Structures
  {
  }

  /** `exchange` without `property` wins over the later `reporting` rule. */
  lemma ExchangeReportingIsStructure()
    ensures ServiceCategoryOf("exchange-reporting") == Structures
  {
    var s := "exchange-reporting";
    assert s[..8] == "exchange";
    MissingChar(s, "property", 'y');
  }

  /** `exchange` together with `property` falls through to `Property Paths`. */
  lemma MultiPropertyExchangeIsPropertyPath()
    ensures ServiceCategoryOf("multi-property-exchange") == PropertyPaths
  {
    var u := "multi-property-exchange";
    assert OccursAt(u, "property", 6);
    ContainsAt(u, "property", 6);
  }
}
