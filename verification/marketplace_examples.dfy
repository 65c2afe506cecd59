/**
 * The marketplace filter on a few listings of the directory in src/App.jsx.
 */
module MarketplaceExamples {
  import opened Text
  import opened Postcode
  import opened PostcodeExamples
  import opened Marketplace

  const AustinAndSons := Supplier("3", "Austin & Sons Funeral Directors", "funeral-director", "St Albans", "AL1 3JQ")
  const HertfordshireMemorials := Supplier("4b", "Hertfordshire Memorials", "stonemason", "Hatfield", "AL10 9AB")
  const StAlbansFlorist := Supplier("4c", "St Albans Florist", "florist", "St Albans", "AL1 1AG")
  const BloomAndWild := Supplier("5", "Bloom & Wild Funeral Flowers", "florist", "Birmingham City Centre", "B1 1AA")

  const Sample := [AustinAndSons, HertfordshireMemorials, StAlbansFlorist, BloomAndWild]

  lemma AreaAL10()
    ensures PostcodeArea("AL10 9AB") == "AL10"
  {
    assert "AL10 9AB" == "AL10" + [' '] + "9AB";
    NormalizeOneSpace("AL10", "9AB");
    assert "AL10" + "9AB" == "AL109AB";
    OutwardAL10();
  }

  lemma OutwardAL10()
    ensures OutwardPrefix("AL109AB") == "AL10"
  {
    var n := "AL109AB";
    assert Span(n, 0, 2, IsUpper) == 2;
    assert Span(n, 2, 2, IsDigit) == 2;
    assert Span(n, 4, 1, IsUpper) == 0;
  }

  lemma HertfordshireArea()
    ensures PostcodeArea(HertfordshireMemorials.postcode) == "AL10"
  {
    AreaAL10();
  }

  lemma AreaPrefixes()
    ensures FirstTwo("AL13J") == "AL" && StartsWith("AL10", "AL")
  {
  }

  lemma CrossingPrefix()
    ensures StartsWith(PostcodeArea(HertfordshireMemorials.postcode), FirstTwo(PostcodeArea("AL1 3JQ")))
  {
    HertfordshireArea();
    GreedyAreaAL();
    AreaPrefixes();
  }

  /**
   * Only the first two characters of the searched area are compared, so a
   * search for the St Albans postcode AL1 3JQ also lists the Hatfield (AL10)
   * stonemason.
   */
  lemma AreaMatchCrossesDistricts()
    ensures Keep(HertfordshireMemorials, "all", "AL1 3JQ")
  {
    HertfordshireArea();
    GreedyAreaAL();
    CrossingPrefix();
    AreaMatchKeeps(HertfordshireMemorials, "all", "AL1 3JQ");
  }

  lemma AreaMatchKeeps(x: Supplier, selectedType: string, searchQuery: string)
    requires MatchesType(x, selectedType) && searchQuery != ""
    requires PostcodeArea(searchQuery) != "" && PostcodeArea(x.postcode) != ""
    requires StartsWith(PostcodeArea(x.postcode), FirstTwo(PostcodeArea(searchQuery)))
    ensures Keep(x, selectedType, searchQuery)
  {
  }

  /** Without a search, the florist button keeps exactly the florists. */
  lemma FloristsKept()
    ensures !Keep(AustinAndSons, "florist", "") && !Keep(HertfordshireMemorials, "florist", "")
    ensures Keep(StAlbansFlorist, "florist", "") && Keep(BloomAndWild, "florist", "")
  {
  }

  /** The florist button without a search lists the two florists, in directory order. */
  lemma FloristsOnly()
    ensures FilterSuppliers(Sample, "florist", "") == [StAlbansFlorist, BloomAndWild]
  {
    var s1, s2, s3 := Sample[..1], Sample[..2], Sample[..3];
    assert s1[..0] == [] && s2[..1] == s1 && s3[..2] == s2 && Sample[..3] == s3;
    FloristsKept();
    FilterSuppliersLast(s1, "florist", "");
    FilterSuppliersLast(s2, "florist", "");
    FilterSuppliersLast(s3, "florist", "");
    FilterSuppliersLast(Sample, "florist", "");
  }
}
