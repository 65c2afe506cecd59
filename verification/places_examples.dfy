/**
 * The places function's classifier, gate and query expansion on concrete
 * inputs.
 */
module PlacesExamples {
  import opened Wrappers
  import opened Text
  import opened Places

  lemma HitsBy(rule: Rule, n: string, k: nat)
    requires k < |rule.keywords| && Contains(n, rule.keywords[k])
    ensures Hits(rule, n)
  {
  }

  lemma Misses(rule: Rule, n: string)
    requires forall k :: 0 <= k < |rule.keywords| ==> !Contains(n, rule.keywords[k])
    ensures !Hits(rule, n)
  {
  }

  lemma LowerPetCrematorium()
    ensures Lower("Pet Crematorium") == "pet crematorium"
  {
  }

  lemma PetCrematoriumFirstHit()
    ensures FirstHit(Rules, "pet crematorium") == "crematorium"
  {
    var n := "pet crematorium";
    assert OccursAt(n, "crematori", 4);
    assert Rules[0] == Rule(["crematori"], "crematorium");
    HitsBy(Rules[0], n, 0);
    FirstHitWins(Rules, n, 0);
  }

  /** "Pet Crematorium" is a crematorium: the first rule decides. */
  lemma PetCrematorium()
    ensures Classify("Pet Crematorium") == "crematorium"
  {
    LowerPetCrematorium();
    PetCrematoriumFirstHit();
  }

  /** The rule at index `k` decides the type of `name`. */
  lemma ClassifyBy(name: string, n: string, k: nat)
    requires Lower(name) == n
    requires k < |Rules| && Hits(Rules[k], n)
    requires forall j :: 0 <= j < k ==> !Hits(Rules[j], n)
    ensures Classify(name) == Rules[k].supplierType
  {
    FirstHitWins(Rules, n, k);
  }

  lemma LowerWoodland()
    ensures Lower("Woodland Burial Ground") == "woodland burial ground"
  {
  }

  lemma LowerHarpenden()
    ensures Lower("Harpenden Funeral Services") == "harpenden funeral services"
  {
  }

  lemma WoodlandRules()
    ensures !Hits(Rules[0], "woodland burial ground")
    ensures Hits(Rules[1], "woodland burial ground")
    ensures Hits(Rules[2], "woodland burial ground")
    ensures Rules[1].supplierType == "cemetery"
  {
    var n := "woodland burial ground";
    assert Rules[0] == Rule(["crematori"], "crematorium");
    AbsentChar(n, "crematori", 0);
    Misses(Rules[0], n);
    assert Rules[1] == Rule(["cemetery", "burial ground", "graveyard"], "cemetery");
    assert OccursAt(n, "burial ground", 9);
    HitsBy(Rules[1], n, 1);
    assert Rules[2] == Rule(["woodland burial", "natural burial", "green burial"], "natural-burial");
    assert OccursAt(n, "woodland burial", 0);
    HitsBy(Rules[2], n, 0);
  }

  lemma WoodlandFirstHit()
    ensures FirstHit(Rules, "woodland burial ground") == "cemetery"
  {
    WoodlandRules();
    FirstHitWins(Rules, "woodland burial ground", 1);
  }

  /**
   * "Woodland Burial Ground" also names a natural burial site, but the
   * cemetery rule comes first.
   */
  lemma WoodlandBurialGround()
    ensures Classify("Woodland Burial Ground") == "cemetery"
  {
    LowerWoodland();
    WoodlandFirstHit();
  }

  /** The characters of the lower-cased name "Harpenden Funeral Services". */
  lemma HarpendenLetters()
    ensures forall c :: c in "harpenden funeral services" ==> c in "harpend fulsvic"
  {
  }

  lemma HarpendenAvoids0()
    ensures !Contains("harpenden funeral services", "crematori")
  {
    var n := "harpenden funeral services";
    assert 'm' !in n;
    HarpendenLetters();
    AbsentChar(n, "crematori", 3);
  }

  lemma HarpendenMisses0()
    ensures !Hits(Rules[0], "harpenden funeral services")
  {
    HarpendenAvoids0();
    assert Rules[0] == Rule(["crematori"], "crematorium");
    Misses(Rules[0], "harpenden funeral services");
  }

  lemma HarpendenAvoids1()
    ensures !Contains("harpenden funeral services", "cemetery")
    ensures !Contains("harpenden funeral services", "burial ground")
    ensures !Contains("harpenden funeral services", "graveyard")
  {
    var n := "harpenden funeral services";
    assert 'm' !in n && 'b' !in n && 'g' !in n;
    HarpendenLetters();
    AbsentChar(n, "cemetery", 2);
    AbsentChar(n, "burial ground", 0);
    AbsentChar(n, "graveyard", 0);
  }

  lemma HarpendenMisses1()
    ensures !Hits(Rules[1], "harpenden funeral services")
  {
    HarpendenAvoids1();
    assert Rules[1] == Rule(["cemetery", "burial ground", "graveyard"], "cemetery");
    Misses(Rules[1], "harpenden funeral services");
  }

  lemma HarpendenAvoids2()
    ensures !Contains("harpenden funeral services", "woodland burial")
    ensures !Contains("harpenden funeral services", "natural burial")
    ensures !Contains("harpenden funeral services", "green burial")
  {
    var n := "harpenden funeral services";
    assert 'w' !in n && 't' !in n && 'g' !in n;
    HarpendenLetters();
    AbsentChar(n, "woodland burial", 0);
    AbsentChar(n, "natural burial", 2);
    AbsentChar(n, "green burial", 0);
  }

  lemma HarpendenMisses2()
    ensures !Hits(Rules[2], "harpenden funeral services")
  {
    HarpendenAvoids2();
    assert Rules[2] == Rule(["woodland burial", "natural burial", "green burial"], "natural-burial");
    Misses(Rules[2], "harpenden funeral services");
  }

  lemma HarpendenAvoids3()
    ensures !Contains("harpenden funeral services", "florist")
    ensures !Contains("harpenden funeral services", "flower")
  {
    var n := "harpenden funeral services";
    assert 'o' !in n;
    HarpendenLetters();
    AbsentChar(n, "florist", 2);
    AbsentChar(n, "flower", 2);
  }

  lemma HarpendenMisses3()
    ensures !Hits(Rules[3], "harpenden funeral services")
  {
    HarpendenAvoids3();
    assert Rules[3] == Rule(["florist", "flower"], "florist");
    Misses(Rules[3], "harpenden funeral services");
  }

  lemma HarpendenAvoids4()
    ensures !Contains("harpenden funeral services", "stone")
    ensures !Contains("harpenden funeral services", "mason")
    ensures !Contains("harpenden funeral services", "headstone")
    ensures !Contains("harpenden funeral services", "gravestone")
  {
    var n := "harpenden funeral services";
    assert 't' !in n && 'm' !in n && 'g' !in n;
    HarpendenLetters();
    AbsentChar(n, "stone", 1);
    AbsentChar(n, "mason", 0);
    AbsentChar(n, "headstone", 5);
    AbsentChar(n, "gravestone", 0);
  }

  lemma HarpendenMisses4()
    ensures !Hits(Rules[4], "harpenden funeral services")
  {
    HarpendenAvoids4();
    assert Rules[4] == Rule(["stone", "mason", "headstone", "gravestone"], "stonemason");
    Misses(Rules[4], "harpenden funeral services");
  }

  lemma HarpendenAvoids5()
    ensures !Contains("harpenden funeral services", "solicitor")
    ensures !Contains("harpenden funeral services", "law")
    ensures !Contains("harpenden funeral services", "probate")
  {
    var n := "harpenden funeral services";
    assert 'o' !in n && 'w' !in n;
    HarpendenLetters();
    AbsentChar(n, "solicitor", 1);
    AbsentChar(n, "law", 2);
    AbsentChar(n, "probate", 2);
  }

  lemma HarpendenMisses5()
    ensures !Hits(Rules[5], "harpenden funeral services")
  {
    HarpendenAvoids5();
    assert Rules[5] == Rule(["solicitor", "law", "probate"], "solicitor");
    Misses(Rules[5], "harpenden funeral services");
  }

  lemma HarpendenAvoids6()
    ensures !Contains("harpenden funeral services", "will writ")
  {
    var n := "harpenden funeral services";
    assert 'w' !in n;
    HarpendenLetters();
    AbsentChar(n, "will writ", 0);
  }

  lemma HarpendenMisses6()
    ensures !Hits(Rules[6], "harpenden funeral services")
  {
    HarpendenAvoids6();
    assert Rules[6] == Rule(["will writ"], "will-writer");
    Misses(Rules[6], "harpenden funeral services");
  }

  lemma HarpendenAvoids7()
    ensures !Contains("harpenden funeral services", "accountant")
    ensures !Contains("harpenden funeral services", "tax")
  {
    var n := "harpenden funeral services";
    assert 'o' !in n && 't' !in n;
    HarpendenLetters();
    AbsentChar(n, "accountant", 3);
    AbsentChar(n, "tax", 0);
  }

  lemma HarpendenMisses7()
    ensures !Hits(Rules[7], "harpenden funeral services")
  {
    HarpendenAvoids7();
    assert Rules[7] == Rule(["accountant", "tax"], "accountant");
    Misses(Rules[7], "harpenden funeral services");
  }

  lemma HarpendenAvoids8()
    ensures !Contains("harpenden funeral services", "celebrant")
    ensures !Contains("harpenden funeral services", "humanist")
    ensures !Contains("harpenden funeral services", "officiant")
  {
    var n := "harpenden funeral services";
    assert 'b' !in n && 'm' !in n && 'o' !in n;
    HarpendenLetters();
    AbsentChar(n, "celebrant", 4);
    AbsentChar(n, "humanist", 2);
    AbsentChar(n, "officiant", 0);
  }

  lemma HarpendenMisses8()
    ensures !Hits(Rules[8], "harpenden funeral services")
  {
    HarpendenAvoids8();
    assert Rules[8] == Rule(["celebrant", "humanist", "officiant"], "celebrant");
    Misses(Rules[8], "harpenden funeral services");
  }

  lemma HarpendenMisses(j: nat)
    requires j < 9
    ensures !Hits(Rules[j], "harpenden funeral services")
  {
    if j == 0 {
      HarpendenMisses0();
    } else if j == 1 {
      HarpendenMisses1();
    } else if j == 2 {
      HarpendenMisses2();
    } else if j == 3 {
      HarpendenMisses3();
    } else if j == 4 {
      HarpendenMisses4();
    } else if j == 5 {
      HarpendenMisses5();
    } else if j == 6 {
      HarpendenMisses6();
    } else if j == 7 {
      HarpendenMisses7();
    } else {
      HarpendenMisses8();
    }
  }


  lemma HarpendenHits()
    ensures Hits(Rules[9], "harpenden funeral services")
    ensures Rules[9].supplierType == "musician"
  {
    var n := "harpenden funeral services";
    assert Rules[9] == Rule(["music", "harp", "organist", "singer"], "musician");
    assert OccursAt(n, "harp", 0);
    HitsBy(Rules[9], n, 1);
  }

  /** "Harpenden Funeral Services" contains "harp", so it is listed as a musician. */
  lemma HarpendenIsMusician()
    ensures Classify("Harpenden Funeral Services") == "musician"
  {
    var n := "harpenden funeral services";
    LowerHarpenden();
    forall j | 0 <= j < 9 ensures !Hits(Rules[j], n) {
      HarpendenMisses(j);
    }
    HarpendenHits();
    ClassifyBy("Harpenden Funeral Services", n, 9);
  }

  /** Preflight, wrong method, missing postcode, and a request that goes on. */
  lemma GateExamples()
    ensures Admit(Event("OPTIONS", None)) == Answer(Response(200, ""))
    ensures Admit(Event("GET", None)).response.statusCode == 405
    ensures Admit(Event("POST", Some(Body(None, Some("florist"))))).response
              == Response(400, "{\"error\":\"Postcode required\"}")
    ensures Admit(Event("POST", Some(Body(Some("AL1 3JQ"), None)))) == Proceed("AL1 3JQ", None)
  {
  }

  /** A known category, an unknown one, "all" and an empty one. */
  lemma QueryExamples()
    ensures SearchQueries(Some("will-writer")) == ["will writer", "will writing service"]
    ensures SearchQueries(Some("notary")) == ["notary"]
    ensures SearchQueries(Some("all")) == DefaultQueries
    ensures SearchQueries(Some("")) == DefaultQueries
  {
  }
}
