/**
 * The supplier filter of the marketplace page (src/App.jsx:644-663): a
 * supplier is listed when it has the selected type and, for a non-empty
 * search, when the search text names its location, its postcode or its name,
 * or when its postcode area begins like the searched one.
 */
module Marketplace {
  import opened Text
  import opened Postcode

  /** A directory listing, with the fields the filter reads. */
  datatype Supplier = Supplier(id: string, name: string, supplierType: string, location: string, postcode: string)

  /** The type buttons: "all" or one supplier type. */
  predicate MatchesType(s: Supplier, selectedType: string) {
    selectedType == "all" || s.supplierType == selectedType
  }

  /** `substring(0, 2)`. */
  function FirstTwo(s: string): (r: string)
    ensures StartsWith(s, r) && |r| == if |s| < 2 then |s| else 2
  {
    if |s| < 2 then s else s[..2]
  }

  /** `matchesSearch` (src/App.jsx:648-660); an empty search matches everything. */
  predicate MatchesSearch(s: Supplier, searchQuery: string) {
    if searchQuery == "" then true
    else
      var query := Trim(Lower(searchQuery));
      var queryArea := PostcodeArea(searchQuery);
      var supplierArea := PostcodeArea(s.postcode);
      || Contains(Lower(s.location), query)
      || Contains(StripSpaces(Lower(s.postcode)), StripSpaces(query))
      || Contains(Lower(s.name), query)
      || (queryArea != "" && supplierArea != "" && StartsWith(supplierArea, FirstTwo(queryArea)))
  }

  /** The callback given to `suppliers.filter` (src/App.jsx:644-663). */
  predicate Keep(s: Supplier, selectedType: string, searchQuery: string) {
    MatchesType(s, selectedType) && MatchesSearch(s, searchQuery)
  }

  /** `suppliers.filter(keep)`: the suppliers `keep` accepts, in order. */
  function Filter(suppliers: seq<Supplier>, keep: Supplier -> bool): (r: seq<Supplier>)
    ensures Subsequence(r, suppliers)
    ensures forall x :: x in r <==> x in suppliers && keep(x)
  {
    if suppliers == [] then []
    else
      var init := suppliers[..|suppliers| - 1];
      var last := suppliers[|suppliers| - 1];
      var kept := Filter(init, keep);
      assert suppliers == init + [last];
      if keep(last) then
        SubsequenceAppend(kept, init, last);
        kept + [last]
      else
        SubsequenceExtend(kept, init, last);
        kept
  }

  /** The last supplier is kept exactly when `keep` accepts it. */
  lemma FilterLast(suppliers: seq<Supplier>, keep: Supplier -> bool)
    requires suppliers != []
    ensures var init := suppliers[..|suppliers| - 1];
      var last := suppliers[|suppliers| - 1];
      Filter(suppliers, keep) == if keep(last) then Filter(init, keep) + [last] else Filter(init, keep)
  {
  }

  /**
   * `filter` keeps each supplier as many times as it occurs when `keep`
   * accepts it, and drops every occurrence otherwise.
   */
  lemma {:induction false} FilterCounts(suppliers: seq<Supplier>, keep: Supplier -> bool)
    ensures forall x :: multiset(Filter(suppliers, keep))[x] == if keep(x) then multiset(suppliers)[x] else 0
  {
    if suppliers != [] {
      var init := suppliers[..|suppliers| - 1];
      var last := suppliers[|suppliers| - 1];
      FilterCounts(init, keep);
      FilterLast(suppliers, keep);
      assert suppliers == init + [last];
      assert multiset(suppliers) == multiset(init) + multiset{last};
    }
  }

  /** Two callbacks that agree on every supplier keep the same list. */
  lemma {:induction false} FilterSame(suppliers: seq<Supplier>, keep1: Supplier -> bool, keep2: Supplier -> bool)
    requires forall x :: x in suppliers ==> keep1(x) == keep2(x)
    ensures Filter(suppliers, keep1) == Filter(suppliers, keep2)
  {
    if suppliers != [] {
      FilterSame(suppliers[..|suppliers| - 1], keep1, keep2);
    }
  }

  /** A callback that accepts every supplier keeps the whole list. */
  lemma {:induction false} FilterKeepsAll(suppliers: seq<Supplier>, keep: Supplier -> bool)
    requires forall x :: x in suppliers ==> keep(x)
    ensures Filter(suppliers, keep) == suppliers
  {
    if suppliers != [] {
      var init := suppliers[..|suppliers| - 1];
      var last := suppliers[|suppliers| - 1];
      assert suppliers == init + [last];
      assert forall x :: x in init ==> x in suppliers;
      FilterKeepsAll(init, keep);
      FilterLast(suppliers, keep);
    }
  }

  /** `filteredSuppliers`: the kept suppliers, in directory order. */
  function FilterSuppliers(suppliers: seq<Supplier>, selectedType: string, searchQuery: string): (r: seq<Supplier>)
    ensures Subsequence(r, suppliers)
    ensures forall x :: x in r <==> x in suppliers && Keep(x, selectedType, searchQuery)
    ensures selectedType != "all" ==> forall x :: x in r ==> x.supplierType == selectedType
  {
    Filter(suppliers, x => Keep(x, selectedType, searchQuery))
  }

  /** The last supplier is listed exactly when it passes the type and search tests. */
  lemma FilterSuppliersLast(suppliers: seq<Supplier>, selectedType: string, searchQuery: string)
    requires suppliers != []
    ensures var init := suppliers[..|suppliers| - 1];
      var last := suppliers[|suppliers| - 1];
      FilterSuppliers(suppliers, selectedType, searchQuery) ==
        if Keep(last, selectedType, searchQuery) then FilterSuppliers(init, selectedType, searchQuery) + [last]
        else FilterSuppliers(init, selectedType, searchQuery)
  {
    FilterLast(suppliers, x => Keep(x, selectedType, searchQuery));
  }

  /** Each supplier that passes is listed as often as it occurs in the directory; the others not at all. */
  lemma FilterSuppliersCounts(suppliers: seq<Supplier>, selectedType: string, searchQuery: string)
    ensures forall x :: multiset(FilterSuppliers(suppliers, selectedType, searchQuery))[x] ==
              if Keep(x, selectedType, searchQuery) then multiset(suppliers)[x] else 0
  {
    FilterCounts(suppliers, x => Keep(x, selectedType, searchQuery));
  }

  /** Two searches that keep the same suppliers give the same list. */
  lemma FilterAgrees(suppliers: seq<Supplier>, selectedType: string, q1: string, q2: string)
    requires forall x :: x in suppliers ==> (Keep(x, selectedType, q1) <==> Keep(x, selectedType, q2))
    ensures FilterSuppliers(suppliers, selectedType, q1) == FilterSuppliers(suppliers, selectedType, q2)
  {
    FilterSame(suppliers, x => Keep(x, selectedType, q1), x => Keep(x, selectedType, q2));
  }

  /** With type "all" and no search, every supplier is listed, in order. */
  lemma FilterAllWithoutSearch(suppliers: seq<Supplier>)
    ensures FilterSuppliers(suppliers, "all", "") == suppliers
  {
    FilterKeepsAll(suppliers, x => Keep(x, "all", ""));
  }

  lemma BlankTrimsToEmpty(s: string)
    requires forall i :: 0 <= i < |s| ==> IsSpace(s[i])
    ensures Trim(Lower(s)) == ""
  {
    var l := Lower(s);
    assert forall i :: 0 <= i < |l| ==> IsSpace(l[i]);
    assert TrimStart(l) == [];
  }

  /**
   * A search of whitespace only trims to "", which every string contains, so
   * it filters by type alone, as no search does.
   */
  lemma BlankSearchKeepsType(suppliers: seq<Supplier>, selectedType: string, searchQuery: string)
    requires forall i :: 0 <= i < |searchQuery| ==> IsSpace(searchQuery[i])
    ensures FilterSuppliers(suppliers, selectedType, searchQuery) == FilterSuppliers(suppliers, selectedType, "")
  {
    BlankTrimsToEmpty(searchQuery);
    forall x ensures MatchesSearch(x, searchQuery) {
      assert OccursAt(Lower(x.location), "", 0);
    }
    FilterAgrees(suppliers, selectedType, searchQuery, "");
  }

  /** Searching for a supplier's own name, in any letter case, lists it. */
  lemma SearchByNameFinds(x: Supplier, selectedType: string, searchQuery: string)
    requires MatchesType(x, selectedType) && searchQuery != ""
    requires Lower(searchQuery) == Lower(x.name)
    ensures Keep(x, selectedType, searchQuery)
  {
  }

  /** Searching for a supplier's own postcode, in any letter case and spacing, lists it. */
  lemma SearchByPostcodeFinds(x: Supplier, selectedType: string, searchQuery: string)
    requires MatchesType(x, selectedType) && searchQuery != ""
    requires StripSpaces(Lower(searchQuery)) == StripSpaces(Lower(x.postcode))
    ensures Keep(x, selectedType, searchQuery)
  {
    var p := StripSpaces(Lower(x.postcode));
    assert OccursAt(p, p, 0);
  }
}
