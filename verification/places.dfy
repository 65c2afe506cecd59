/**
 * The non-network logic of the places function (netlify/functions/places.js):
 * the request gate, the expansion of a category into text searches, the
 * collection of their results, de-duplication by place id, the cut to the
 * ten places whose details are fetched, and the classification of a place
 * name into a supplier type.  The text search itself is a parameter.
 */
module Places {
  import opened Wrappers
  import opened Text

  // ---------------------------------------------------------------------
  // Request gate (lines 59-72)
  // ---------------------------------------------------------------------

  /** The fields read from the parsed JSON body; each may be missing. */
  datatype Body = Body(postcode: Option<string>, category: Option<string>)

  /** The incoming event; `body` is None when parsing or destructuring it throws. */
  datatype Event = Event(httpMethod: string, body: Option<Body>)

  datatype Response = Response(statusCode: nat, body: string)

  /** Either the function answers at once, or it goes on to search. */
  datatype Admission = Answer(response: Response) | Proceed(postcode: string, category: Option<string>)

  /** `JSON.stringify({ error: message })` for the messages used here. */
  function ErrorBody(message: string): string {
    "{\"error\":\"" + message + "\"}"
  }

  /** A postcode field that JavaScript treats as true: present and non-empty. */
  predicate HasPostcode(body: Body) {
    body.postcode.Some? && body.postcode.value != ""
  }

  /** Lines 59-72, with the `catch` of lines 202-209 for a body that cannot be read. */
  function Admit(event: Event): (a: Admission)
    ensures a.Proceed? <==> event.httpMethod == "POST" && event.body.Some? && HasPostcode(event.body.value)
    ensures a.Proceed? ==> a.postcode == event.body.value.postcode.value && a.category == event.body.value.category
    ensures event.httpMethod == "OPTIONS" ==> a == Answer(Response(200, ""))
    ensures event.httpMethod !in {"OPTIONS", "POST"} ==> a == Answer(Response(405, ErrorBody("Method not allowed")))
    ensures event.httpMethod == "POST" && event.body.None? ==> a == Answer(Response(500, ErrorBody("Failed to search places")))
    ensures event.httpMethod == "POST" && event.body.Some? && !HasPostcode(event.body.value) ==>
              a == Answer(Response(400, ErrorBody("Postcode required")))
  {
    if event.httpMethod == "OPTIONS" then Answer(Response(200, ""))
    else if event.httpMethod != "POST" then Answer(Response(405, ErrorBody("Method not allowed")))
    else match event.body
      case None => Answer(Response(500, ErrorBody("Failed to search places")))
      case Some(body) =>
        if !HasPostcode(body) then Answer(Response(400, ErrorBody("Postcode required")))
        else Proceed(body.postcode.value, body.category)
  }

  // ---------------------------------------------------------------------
  // Search queries (lines 83-125)
  // ---------------------------------------------------------------------

  /** The six searches made when no single category is asked for (lines 118-125). */
  const DefaultQueries: seq<string> := [
    "funeral director", "crematorium", "florist",
    "stonemason memorial", "probate solicitor", "funeral celebrant"
  ]

  /** `searchQueries` (lines 84-109). */
  const SearchQueryTable: map<string, seq<string>> := map[
    "funeral-director" := ["funeral director", "funeral home", "funeral services"],
    "crematorium" := ["crematorium", "cremation services"],
    "cemetery" := ["cemetery", "burial ground", "graveyard"],
    "natural-burial" := ["natural burial", "woodland burial", "green burial", "eco burial"],
    "florist" := ["funeral flowers", "florist sympathy", "funeral florist"],
    "stonemason" := ["memorial stonemason", "headstone", "monumental mason", "gravestone"],
    "venue" := ["function room hire", "wake venue", "memorial venue", "reception venue"],
    "caterer" := ["funeral catering", "wake catering", "buffet catering"],
    "solicitor" := ["probate solicitor", "wills and probate solicitor", "estate solicitor"],
    "will-writer" := ["will writer", "will writing service"],
    "accountant" := ["probate accountant", "inheritance tax accountant", "estate accountant"],
    "celebrant" := ["funeral celebrant", "civil celebrant", "humanist celebrant"],
    "musician" := ["funeral musician", "funeral singer", "funeral organist", "harpist"],
    "photographer" := ["funeral photographer", "memorial photographer"],
    "videographer" := ["funeral videographer", "memorial video service"],
    "transport" := ["funeral transport", "hearse hire", "funeral car hire", "horse drawn hearse"],
    "house-clearance" := ["house clearance", "bereavement clearance", "probate clearance"],
    "counsellor" := ["grief counsellor", "bereavement counsellor", "bereavement support"],
    "printer" := ["order of service printing", "funeral printing", "memorial printing"],
    "memorial-jewellery" := ["memorial jewellery", "ashes jewellery", "cremation jewellery"],
    "locksmith" := ["locksmith", "emergency locksmith", "lock change"],
    "cleaning" := ["house cleaning", "deep cleaning service", "end of tenancy cleaning", "probate cleaning"],
    "pet-services" := ["pet cremation", "pet funeral", "kennels", "cattery", "pet rehoming", "dog boarding"],
    "repatriation" := ["repatriation services", "international funeral", "body repatriation"]
  ]

  /** Line 84: a category that is present, non-empty and not "all" is searched on its own. */
  predicate SingleCategory(category: Option<string>) {
    category.Some? && category.value != "" && category.value != "all"
  }

  /** The text searches made for a category (lines 84-125). */
  function SearchQueries(category: Option<string>): (queries: seq<string>)
    ensures SingleCategory(category) && category.value in SearchQueryTable ==>
              queries == SearchQueryTable[category.value]
    ensures SingleCategory(category) && category.value !in SearchQueryTable ==> queries == [category.value]
    ensures !SingleCategory(category) ==> queries == DefaultQueries
  {
    if SingleCategory(category) then
      if category.value in SearchQueryTable then SearchQueryTable[category.value] else [category.value]
    else DefaultQueries
  }

  /** Every table entry lists at least one search. */
  lemma TableEntriesNonEmpty()
    ensures forall c :: c in SearchQueryTable ==> |SearchQueryTable[c]| > 0
  {
  }

  /** At least one search is made for every request. */
  lemma SearchQueriesNonEmpty(category: Option<string>)
    ensures |SearchQueries(category)| > 0
  {
    TableEntriesNonEmpty();
  }

  // ---------------------------------------------------------------------
  // Collecting the results (lines 110-129)
  // ---------------------------------------------------------------------

  /** A search result, with the fields the function reads before fetching details. */
  datatype Place = Place(placeId: string, name: string)

  /** The results of the searches, concatenated in query order. */
  function Gathered(queries: seq<string>, search: string -> seq<Place>): seq<Place> {
    if queries == [] then []
    else Gathered(queries[..|queries| - 1], search) + search(queries[|queries| - 1])
  }

  /** A place is gathered exactly when one of the queries found it. */
  lemma {:induction false} GatheredMembers(queries: seq<string>, search: string -> seq<Place>, p: Place)
    ensures p in Gathered(queries, search) <==> exists i :: 0 <= i < |queries| && p in search(queries[i])
  {
    if queries != [] {
      var init := queries[..|queries| - 1];
      GatheredMembers(init, search, p);
      assert forall i :: 0 <= i < |init| ==> init[i] == queries[i];
    }
  }

  /**
   * `allResults` (lines 110-129): the results of each search appended in
   * query order; `search(q)` stands for `textSearch(q, lat, lng)`.  The
   * default branch runs its six searches concurrently and flattens them in
   * the same order.
   */
  method CollectResults(category: Option<string>, search: string -> seq<Place>) returns (allResults: seq<Place>)
    ensures allResults == Gathered(SearchQueries(category), search)
  {
    var queries := SearchQueries(category);
    if SingleCategory(category) {
      allResults := [];
      for i := 0 to |queries|
        invariant allResults == Gathered(queries[..i], search)
      {
        assert queries[..i + 1][..i] == queries[..i];
        allResults := allResults + search(queries[i]);
      }
      assert queries[..|queries|] == queries;
    } else {
      allResults := Gathered(queries, search);
    }
  }

  // ---------------------------------------------------------------------
  // De-duplication (lines 131-139) and the top ten (line 142)
  // ---------------------------------------------------------------------

  /** The place ids occurring in `ps`. */
  function Ids(ps: seq<Place>): set<string> {
    set p | p in ps :: p.placeId
  }

  /** No place id occurs twice. */
  predicate DistinctIds(ps: seq<Place>) {
    forall i, j :: 0 <= i < j < |ps| ==> ps[i].placeId != ps[j].placeId
  }

  /** `ps[i]` is the first place with its id. */
  predicate FirstOfId(ps: seq<Place>, i: int)
    requires 0 <= i < |ps|
  {
    forall j :: 0 <= j < i ==> ps[j].placeId != ps[i].placeId
  }

  /** The places among `ps[..n]` that are the first with their id, in order. */
  function FirstOccurrences(ps: seq<Place>, n: nat): seq<Place>
    requires n <= |ps|
  {
    if n == 0 then []
    else FirstOccurrences(ps, n - 1) + (if FirstOfId(ps, n - 1) then [ps[n - 1]] else [])
  }

  lemma IdsAppend(ps: seq<Place>, p: Place)
    ensures Ids(ps + [p]) == Ids(ps) + {p.placeId}
  {
    assert forall q :: q in ps + [p] <==> q in ps || q == p;
  }

  /** A place is the first with its id exactly when its id is not among the earlier ones. */
  lemma FirstOfIdUnseen(ps: seq<Place>, i: nat)
    requires i < |ps|
    ensures FirstOfId(ps, i) <==> ps[i].placeId !in Ids(ps[..i])
  {
    if !FirstOfId(ps, i) {
      var j :| 0 <= j < i && ps[j].placeId == ps[i].placeId;
      assert ps[..i][j] == ps[j];
    }
  }

  /** The first occurrences carry every id of the prefix. */
  lemma {:induction false} FirstOccurrencesIds(ps: seq<Place>, n: nat)
    requires n <= |ps|
    ensures Ids(FirstOccurrences(ps, n)) == Ids(ps[..n])
  {
    if n > 0 {
      FirstOccurrencesIds(ps, n - 1);
      FirstOfIdUnseen(ps, n - 1);
      assert ps[..n] == ps[..n - 1] + [ps[n - 1]];
      IdsAppend(ps[..n - 1], ps[n - 1]);
      if FirstOfId(ps, n - 1) {
        IdsAppend(FirstOccurrences(ps, n - 1), ps[n - 1]);
      } else {
        assert FirstOccurrences(ps, n) == FirstOccurrences(ps, n - 1);
      }
    }
  }

  /** The first occurrences never repeat an id. */
  lemma {:induction false} FirstOccurrencesDistinct(ps: seq<Place>, n: nat)
    requires n <= |ps|
    ensures DistinctIds(FirstOccurrences(ps, n))
  {
    if n > 0 {
      FirstOccurrencesDistinct(ps, n - 1);
      FirstOccurrencesIds(ps, n - 1);
      FirstOfIdUnseen(ps, n - 1);
      var r := FirstOccurrences(ps, n - 1);
      if FirstOfId(ps, n - 1) {
        forall i | 0 <= i < |r| ensures r[i].placeId != ps[n - 1].placeId {
          assert r[i] in r;
        }
      }
    }
  }

  /** The first occurrences keep their input order. */
  lemma {:induction false} FirstOccurrencesSubsequence(ps: seq<Place>, n: nat)
    requires n <= |ps|
    ensures Subsequence(FirstOccurrences(ps, n), ps[..n])
  {
    if n > 0 {
      FirstOccurrencesSubsequence(ps, n - 1);
      assert ps[..n] == ps[..n - 1] + [ps[n - 1]];
      if FirstOfId(ps, n - 1) {
        SubsequenceAppend(FirstOccurrences(ps, n - 1), ps[..n - 1], ps[n - 1]);
      } else {
        assert FirstOccurrences(ps, n) == FirstOccurrences(ps, n - 1);
        SubsequenceExtend(FirstOccurrences(ps, n - 1), ps[..n - 1], ps[n - 1]);
      }
    }
  }

  /** The first place with each id is kept. */
  lemma {:induction false} FirstOccurrencesKeepsFirst(ps: seq<Place>, n: nat, i: nat)
    requires i < n <= |ps| && FirstOfId(ps, i)
    ensures ps[i] in FirstOccurrences(ps, n)
  {
    if i < n - 1 {
      FirstOccurrencesKeepsFirst(ps, n - 1, i);
    }
  }

  /** `uniquePlaces` after the loop of lines 131-139. */
  function Deduplicated(ps: seq<Place>): seq<Place> {
    FirstOccurrences(ps, |ps|)
  }

  /**
   * The loop of lines 131-139: a place is appended when its id has not been
   * seen, and its id is then recorded as seen.
   */
  method Dedup(allResults: seq<Place>) returns (uniquePlaces: seq<Place>)
    ensures uniquePlaces == Deduplicated(allResults)
    ensures DistinctIds(uniquePlaces)
    ensures Ids(uniquePlaces) == Ids(allResults)
    ensures Subsequence(uniquePlaces, allResults) && |uniquePlaces| <= |allResults|
    ensures forall i :: 0 <= i < |allResults| && FirstOfId(allResults, i) ==> allResults[i] in uniquePlaces
  {
    uniquePlaces := [];
    var seenIds: set<string> := {};
    for i := 0 to |allResults|
      invariant seenIds == Ids(allResults[..i])
      invariant uniquePlaces == FirstOccurrences(allResults, i)
    {
      var place := allResults[i];
      FirstOfIdUnseen(allResults, i);
      assert allResults[..i + 1] == allResults[..i] + [place];
      IdsAppend(allResults[..i], place);
      if place.placeId !in seenIds {
        seenIds := seenIds + {place.placeId};
        uniquePlaces := uniquePlaces + [place];
      }
    }
    assert allResults[..|allResults|] == allResults;
    FirstOccurrencesDistinct(allResults, |allResults|);
    FirstOccurrencesIds(allResults, |allResults|);
    FirstOccurrencesSubsequence(allResults, |allResults|);
    SubsequenceLength(uniquePlaces, allResults);
    forall i | 0 <= i < |allResults| && FirstOfId(allResults, i) ensures allResults[i] in uniquePlaces {
      FirstOccurrencesKeepsFirst(allResults, |allResults|, i);
    }
  }

  /** The number of places whose details are fetched (line 142). */
  const DetailLimit: nat := 10

  /** `uniquePlaces.slice(0, 10)`. */
  function TopPlaces(uniquePlaces: seq<Place>): (top: seq<Place>)
    ensures |top| == if |uniquePlaces| < DetailLimit then |uniquePlaces| else DetailLimit
    ensures top == uniquePlaces[..|top|]
  {
    if |uniquePlaces| < DetailLimit then uniquePlaces else uniquePlaces[..DetailLimit]
  }

  /** With distinct ids, there are as many ids as places. */
  lemma {:induction false} DistinctIdsCount(ps: seq<Place>)
    requires DistinctIds(ps)
    ensures |Ids(ps)| == |ps|
  {
    if ps != [] {
      var init := ps[..|ps| - 1];
      var last := ps[|ps| - 1];
      assert DistinctIds(init) by {
        forall i, j | 0 <= i < j < |init| ensures init[i].placeId != init[j].placeId {
          assert init[i] == ps[i] && init[j] == ps[j];
        }
      }
      DistinctIdsCount(init);
      assert ps == init + [last];
      IdsAppend(init, last);
      assert FirstOfId(ps, |ps| - 1);
      FirstOfIdUnseen(ps, |ps| - 1);
    }
  }

  /**
   * The places whose details are fetched: at most ten, no id twice, all from
   * the results, and ten whenever the results hold ten or more distinct ids;
   * with fewer, every result's id is among them.
   */
  lemma TopPlacesOfResults(allResults: seq<Place>)
    ensures var top := TopPlaces(Deduplicated(allResults));
      && |top| <= DetailLimit
      && DistinctIds(top)
      && (forall p :: p in top ==> p in allResults)
      && (|Ids(allResults)| >= DetailLimit ==> |top| == DetailLimit)
      && (|Ids(allResults)| < DetailLimit ==> Ids(top) == Ids(allResults))
  {
    var u := Deduplicated(allResults);
    var top := TopPlaces(u);
    assert allResults[..|allResults|] == allResults;
    FirstOccurrencesDistinct(allResults, |allResults|);
    FirstOccurrencesIds(allResults, |allResults|);
    FirstOccurrencesSubsequence(allResults, |allResults|);
    DistinctIdsCount(u);
    forall p | p in top ensures p in allResults {
      SubsequenceIn(u, allResults, p);
    }
  }

  // ---------------------------------------------------------------------
  // Supplier type from the place name (lines 150-176)
  // ---------------------------------------------------------------------

  /** One `else if` of lines 154-176: if the name contains any keyword, the type. */
  datatype Rule = Rule(keywords: seq<string>, supplierType: string)

  /** Line 151: the type when no rule applies. */
  const DefaultType := "funeral-director"

  /** The rules of lines 154-176, in the order they are tried. */
  const Rules: seq<Rule> := [
    Rule(["crematori"], "crematorium"),
    Rule(["cemetery", "burial ground", "graveyard"], "cemetery"),
    Rule(["woodland burial", "natural burial", "green burial"], "natural-burial"),
    Rule(["florist", "flower"], "florist"),
    Rule(["stone", "mason", "headstone", "gravestone"], "stonemason"),
    Rule(["solicitor", "law", "probate"], "solicitor"),
    Rule(["will writ"], "will-writer"),
    Rule(["accountant", "tax"], "accountant"),
    Rule(["celebrant", "humanist", "officiant"], "celebrant"),
    Rule(["music", "harp", "organist", "singer"], "musician"),
    Rule(["photo"], "photographer"),
    Rule(["video", "film"], "videographer"),
    Rule(["hearse", "limousine", "horse drawn", "transport"], "transport"),
    Rule(["clearance"], "house-clearance"),
    Rule(["counsell", "therapy", "grief", "bereavement support"], "counsellor"),
    Rule(["print"], "printer"),
    Rule(["jewel", "ashes into"], "memorial-jewellery"),
    Rule(["locksmith", "lock"], "locksmith"),
    Rule(["clean"], "cleaning"),
    Rule(["kennel", "cattery", "pet cremation", "pet funeral", "dog boarding"], "pet-services"),
    Rule(["repatriation", "international funeral"], "repatriation"),
    Rule(["cater"], "caterer"),
    Rule(["hall", "venue", "room"], "venue")
  ]

  /** Every type the classifier can give. */
  const SupplierTypes: set<string> := {DefaultType} + set r | r in Rules :: r.supplierType

  /** The lower-cased name contains one of the rule's keywords. */
  predicate Hits(rule: Rule, nameLower: string) {
    exists k :: 0 <= k < |rule.keywords| && Contains(nameLower, rule.keywords[k])
  }

  /** The type of the first rule that hits, else the default. */
  function FirstHit(rules: seq<Rule>, nameLower: string): (t: string)
    ensures t == DefaultType || exists k :: 0 <= k < |rules| && rules[k].supplierType == t
  {
    if rules == [] then DefaultType
    else if Hits(rules[0], nameLower) then rules[0].supplierType
    else
      var t := FirstHit(rules[1..], nameLower);
      assert forall k :: 0 <= k < |rules| - 1 ==> rules[1..][k] == rules[k + 1];
      t
  }

  /** A rule that hits, with none before it hitting, decides the type. */
  lemma {:induction false} FirstHitWins(rules: seq<Rule>, nameLower: string, k: nat)
    requires k < |rules| && Hits(rules[k], nameLower)
    requires forall j :: 0 <= j < k ==> !Hits(rules[j], nameLower)
    ensures FirstHit(rules, nameLower) == rules[k].supplierType
  {
    if k > 0 {
      FirstHitWins(rules[1..], nameLower, k - 1);
    }
  }

  /** When no rule hits, the type is the default. */
  lemma {:induction false} FirstHitDefault(rules: seq<Rule>, nameLower: string)
    requires forall j :: 0 <= j < |rules| ==> !Hits(rules[j], nameLower)
    ensures FirstHit(rules, nameLower) == DefaultType
  {
    if rules != [] {
      FirstHitDefault(rules[1..], nameLower);
    }
  }

  /** Lines 150-176: the type of a supplier found under `name`. */
  function Classify(name: string): (t: string)
    ensures t in SupplierTypes
  {
    var t := FirstHit(Rules, Lower(name));
    assert t != DefaultType ==> exists r :: r in Rules && r.supplierType == t;
    t
  }

  /** Every type the classifier gives is a category the search table knows. */
  lemma ClassifiedTypesAreCategories(name: string)
    ensures Classify(name) in SearchQueryTable
  {
    RuleTypesAreCategories();
  }

  lemma RuleTypesAreCategories()
    ensures forall r :: r in Rules ==> r.supplierType in SearchQueryTable
  {
  }

  lemma RuleTypes0To5()
    ensures Rules[0].supplierType == "crematorium"
    ensures Rules[1].supplierType == "cemetery"
    ensures Rules[2].supplierType == "natural-burial"
    ensures Rules[3].supplierType == "florist"
    ensures Rules[4].supplierType == "stonemason"
    ensures Rules[5].supplierType == "solicitor"
  {
  }

  lemma RuleTypes6To11()
    ensures Rules[6].supplierType == "will-writer"
    ensures Rules[7].supplierType == "accountant"
    ensures Rules[8].supplierType == "celebrant"
    ensures Rules[9].supplierType == "musician"
    ensures Rules[10].supplierType == "photographer"
    ensures Rules[11].supplierType == "videographer"
  {
  }

  lemma RuleTypes12To17()
    ensures Rules[12].supplierType == "transport"
    ensures Rules[13].supplierType == "house-clearance"
    ensures Rules[14].supplierType == "counsellor"
    ensures Rules[15].supplierType == "printer"
    ensures Rules[16].supplierType == "memorial-jewellery"
    ensures Rules[17].supplierType == "locksmith"
  {
  }

  lemma RuleTypes18To22()
    ensures Rules[18].supplierType == "cleaning"
    ensures Rules[19].supplierType == "pet-services"
    ensures Rules[20].supplierType == "repatriation"
    ensures Rules[21].supplierType == "caterer"
    ensures Rules[22].supplierType == "venue"
  {
  }

  lemma TableCategories()
    ensures forall c :: c in SearchQueryTable ==> c in {"funeral-director", "crematorium", "cemetery", "natural-burial", "florist", "stonemason", "solicitor", "will-writer", "accountant", "celebrant", "musician", "photographer", "videographer", "transport", "house-clearance", "counsellor", "printer", "memorial-jewellery", "locksmith", "cleaning", "pet-services", "repatriation", "caterer", "venue"}
  {
  }

  /** Conversely, every category of the search table is a type the classifier can give. */
  lemma CategoriesAreTypes()
    ensures forall c :: c in SearchQueryTable ==> c == DefaultType || exists k :: 0 <= k < |Rules| && Rules[k].supplierType == c
  {
    RuleTypes0To5();
    RuleTypes6To11();
    RuleTypes12To17();
    RuleTypes18To22();
    TableCategories();
  }


}
