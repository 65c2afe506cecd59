/**
 * Worked examples of the postcode helpers of src/App.jsx on concrete inputs.
 */
module PostcodeExamples {
  import opened Wrappers
  import opened Text
  import opened Postcode

  lemma StripSingleSpace(c: char)
    requires IsSpace(c)
    ensures StripSpaces([c]) == []
  {
    assert [c][1..] == [];
  }

  /** Removing the one whitespace character between two words without any. */
  lemma StripOneSpace(a: string, c: char, b: string)
    requires forall i :: 0 <= i < |a| ==> !IsSpace(a[i])
    requires forall i :: 0 <= i < |b| ==> !IsSpace(b[i])
    requires IsSpace(c)
    ensures StripSpaces(a + [c] + b) == a + b
  {
    StripSpacesAppend(a + [c], b);
    StripSpacesAppend(a, [c]);
    StripSpacesNoop(a);
    StripSpacesNoop(b);
    StripSingleSpace(c);
    assert StripSpaces(a + [c]) == a;
  }

  /** An upper-case postcode with one space normalises to its two halves joined. */
  lemma NormalizeOneSpace(a: string, b: string)
    requires forall i :: 0 <= i < |a| ==> !IsSpace(a[i]) && !IsLower(a[i])
    requires forall i :: 0 <= i < |b| ==> !IsSpace(b[i]) && !IsLower(b[i])
    ensures Normalize(a + [' '] + b) == a + b
  {
    var s := a + [' '] + b;
    assert forall i :: 0 <= i < |s| ==> !IsLower(s[i]);
    assert Upper(s) == s;
    StripOneSpace(a, ' ', b);
  }

  /**
   * Spaces are removed before the greedy match, so inward-code characters
   * join the area: "AL1 3JQ" gives "AL13J", not the "AL1" the comment at
   * src/App.jsx:8 names.
   */
  lemma GreedyAreaAL()
    ensures PostcodeArea("AL1 3JQ") == "AL13J"
    ensures PostcodeArea("AL1 3JQ") != "AL1"
  {
    assert "AL1 3JQ" == "AL1" + [' '] + "3JQ";
    NormalizeOneSpace("AL1", "3JQ");
    assert "AL1" + "3JQ" == "AL13JQ";
    OutwardAL();
  }

  lemma OutwardAL()
    ensures OutwardPrefix("AL13JQ") == "AL13J"
  {
    var n := "AL13JQ";
    assert Span(n, 0, 2, IsUpper) == 2;
    assert Span(n, 2, 2, IsDigit) == 2;
    assert Span(n, 4, 1, IsUpper) == 1;
  }

  lemma GreedyAreaM()
    ensures PostcodeArea("M1 1AA") == "M11A"
  {
    assert "M1 1AA" == "M1" + [' '] + "1AA";
    NormalizeOneSpace("M1", "1AA");
    assert "M1" + "1AA" == "M11AA";
    OutwardM();
  }

  lemma OutwardM()
    ensures OutwardPrefix("M11AA") == "M11A"
  {
    var n := "M11AA";
    assert Span(n, 0, 2, IsUpper) == 1;
    assert Span(n, 1, 2, IsDigit) == 2;
    assert Span(n, 3, 1, IsUpper) == 1;
  }

  lemma GreedyAreaSW()
    ensures PostcodeArea("SW1A 1AA") == "SW1A"
  {
    assert "SW1A 1AA" == "SW1A" + [' '] + "1AA";
    NormalizeOneSpace("SW1A", "1AA");
    assert "SW1A" + "1AA" == "SW1A1AA";
    OutwardSW();
  }

  lemma OutwardSW()
    ensures OutwardPrefix("SW1A1AA") == "SW1A"
  {
    var n := "SW1A1AA";
    assert Span(n, 0, 2, IsUpper) == 2;
    assert Span(n, 2, 2, IsDigit) == 1;
    assert Span(n, 3, 1, IsUpper) == 1;
  }

  /** Case and surrounding or inner whitespace do not change the area. */
  lemma AreaIgnoresCaseAndSpaces()
    ensures Normalize(" al1 3jq ") == Normalize("AL1 3JQ")
    ensures PostcodeArea(" al1 3jq ") == PostcodeArea("AL1 3JQ")
  {
    assert Upper(" al1 3jq ") == [' '] + ("AL1" + [' '] + "3JQ") + [' '];
    StripSpacesAppend([' '] + ("AL1" + [' '] + "3JQ"), [' ']);
    StripSpacesAppend([' '], "AL1" + [' '] + "3JQ");
    StripSingleSpace(' ');
    StripOneSpace("AL1", ' ', "3JQ");
    assert Upper("AL1 3JQ") == "AL1" + [' '] + "3JQ";
  }

  /** The search box accepts postcodes in any case, with or without the space. */
  lemma FullPostcodeExamples()
    ensures IsFullPostcode("al1 3jq")
    ensures IsFullPostcode("SW1A1AA")
    ensures !IsFullPostcode("AL1")
  {
  }
}
