/**
 * The vault catalogue page (src/pages/EnhancedVaultCatalog.tsx): a case-insensitive
 * search on name and description, then one of four category views, three of which
 * stably sort a copy of the searched list. The page's `activeFilter` and
 * `searchQuery` state, with its reset button, is the class `CatalogFilters`.
 */
module VaultCatalog {
  import Text
  import StableSort
  import Sequences

  datatype RiskLevel = Low | Medium | High

  /** The fields of a catalogue entry that the search and the orderings read. */
  datatype Vault = Vault(id: string, name: string, description: string, apr: real, riskLevel: RiskLevel)

  /** `'All' | 'Top APR' | 'Lowest Risk' | 'New'`. */
  datatype Category = All | TopApr | LowestRisk | New

  // ---------------------------------------------------------------- search

  /** The name or the description, lower-cased, contains the already lower-cased query. */
  predicate MatchesQuery(v: Vault, query: string) {
    Text.Contains(Text.ToLower(v.name), query) || Text.Contains(Text.ToLower(v.description), query)
  }

  /** `filtered.filter(...)`: exactly the matching vaults, each as often as before, in order. */
  function Search(vaults: seq<Vault>, query: string): (r: seq<Vault>)
    ensures Sequences.IsSubsequence(r, vaults)
    ensures forall v :: v in r ==> MatchesQuery(v, query)
    ensures forall v :: multiset(r)[v] == if MatchesQuery(v, query) then multiset(vaults)[v] else 0
  {
    if vaults == [] then []
    else
      assert vaults == [vaults[0]] + vaults[1..];
      var rest := Search(vaults[1..], query);
      if MatchesQuery(vaults[0], query) then
        assert ([vaults[0]] + rest)[1..] == rest;
        [vaults[0]] + rest
      else
        rest
  }

  /** The search step: skipped for a blank query; otherwise the query is lower-cased, not trimmed. */
  function ApplySearch(vaults: seq<Vault>, searchQuery: string): (r: seq<Vault>)
    ensures Sequences.IsSubsequence(r, vaults)
  {
    if Text.Trim(searchQuery) != [] then Search(vaults, Text.ToLower(searchQuery))
    else
      Sequences.SubsequenceOfItself(vaults);
      vaults
  }

  /** A query of nothing but whitespace filters nothing out. */
  lemma BlankQueryKeepsAll(vaults: seq<Vault>, searchQuery: string)
    requires Text.IsBlank(searchQuery)
    ensures ApplySearch(vaults, searchQuery) == vaults
  {
  }

  /** A query with some visible character keeps exactly the vaults that match its lower-cased self. */
  lemma QuerySearchKeepsMatches(vaults: seq<Vault>, searchQuery: string)
    requires !Text.IsBlank(searchQuery)
    ensures var r := ApplySearch(vaults, searchQuery);
            Sequences.IsSubsequence(r, vaults)
            && forall v :: v in r <==> v in vaults && MatchesQuery(v, Text.ToLower(searchQuery))
  {
    var r := ApplySearch(vaults, searchQuery);
    forall v
      ensures v in r <==> v in vaults && MatchesQuery(v, Text.ToLower(searchQuery))
    {
      assert v in r <==> v in multiset(r);
      assert v in vaults <==> v in multiset(vaults);
    }
  }

  // ---------------------------------------------------------------- orderings

  /** `b.apr - a.apr <= 0`. */
  predicate HigherAprFirst(a: Vault, b: Vault) {
    a.apr >= b.apr
  }

  /** `riskOrder[a.riskLevel]` with low 1, medium 2, high 3. */
  function RiskRank(r: RiskLevel): int {
    match r
    case Low => 1
    case Medium => 2
    case High => 3
  }

  /** `riskOrder[a] - riskOrder[b] <= 0`. */
  predicate LowerRiskFirst(a: Vault, b: Vault) {
    RiskRank(a.riskLevel) <= RiskRank(b.riskLevel)
  }

  /** `a.id.localeCompare(b.id) <= 0`. */
  predicate SmallerIdFirst(a: Vault, b: Vault) {
    Text.LexLe(a.id, b.id)
  }

  lemma HigherAprFirstIsTotalPreorder()
    ensures StableSort.IsTotalPreorder(HigherAprFirst)
  {
  }

  lemma LowerRiskFirstIsTotalPreorder()
    ensures StableSort.IsTotalPreorder(LowerRiskFirst)
  {
  }

  lemma SmallerIdFirstIsTotalPreorder()
    ensures StableSort.IsTotalPreorder(SmallerIdFirst)
  {
    forall a: Vault, b: Vault
      ensures SmallerIdFirst(a, b) || SmallerIdFirst(b, a)
    {
      Text.LexLeTotal(a.id, b.id);
    }
    forall a: Vault, b: Vault, c: Vault | SmallerIdFirst(a, b) && SmallerIdFirst(b, c)
      ensures SmallerIdFirst(a, c)
    {
      Text.LexLeTransitive(a.id, b.id, c.id);
    }
  }

  /** The list shown for the category, computed on a fresh copy of the searched list. */
  function FilteredVaults(vaults: seq<Vault>, activeFilter: Category, searchQuery: string): (r: seq<Vault>)
    ensures vaults == [] ==> r == []
    ensures multiset(r) == multiset(ApplySearch(vaults, searchQuery))
  {
    if |vaults| == 0 then []
    else
      var filtered := ApplySearch(vaults, searchQuery);
      match activeFilter
      case TopApr => StableSort.SortBy(filtered, HigherAprFirst)
      case LowestRisk => StableSort.SortBy(filtered, LowerRiskFirst)
      case New => StableSort.SortBy(filtered, SmallerIdFirst)
      case All => filtered
  }

  /** `All` shows the searched list as it is. */
  lemma AllKeepsSearchOrder(vaults: seq<Vault>, searchQuery: string)
    ensures FilteredVaults(vaults, All, searchQuery) == ApplySearch(vaults, searchQuery)
  {
  }

  /** `Top APR` is a permutation of the searched list with non-increasing APR. */
  lemma TopAprIsSortedPermutation(vaults: seq<Vault>, searchQuery: string)
    ensures var r, f := FilteredVaults(vaults, TopApr, searchQuery), ApplySearch(vaults, searchQuery);
            multiset(r) == multiset(f)
            && forall i, j :: 0 <= i < j < |r| ==> r[i].apr >= r[j].apr
  {
    var r, f := FilteredVaults(vaults, TopApr, searchQuery), ApplySearch(vaults, searchQuery);
    HigherAprFirstIsTotalPreorder();
    StableSort.SortBySorted(f, HigherAprFirst);
    forall i, j | 0 <= i < j < |r|
      ensures r[i].apr >= r[j].apr
    {
      assert HigherAprFirst(r[i], r[j]);
    }
  }

  /** The vaults of `s` at risk level `level`, in their order in `s`. */
  function AtRisk(s: seq<Vault>, level: RiskLevel): seq<Vault> {
    if s == [] then [] else (if s[0].riskLevel == level then [s[0]] else []) + AtRisk(s[1..], level)
  }

  lemma {:induction false} TiesAreAtRisk(s: seq<Vault>, e: Vault)
    ensures StableSort.Ties(s, LowerRiskFirst, e) == AtRisk(s, e.riskLevel)
  {
    if s != [] {
      TiesAreAtRisk(s[1..], e);
    }
  }

  /** Sorting by risk keeps the order of the vaults within each level. */
  lemma RiskSortIsStable(f: seq<Vault>, level: RiskLevel)
    ensures AtRisk(StableSort.SortBy(f, LowerRiskFirst), level) == AtRisk(f, level)
  {
    var e := Vault([], [], [], 0.0, level);
    LowerRiskFirstIsTotalPreorder();
    StableSort.SortByStable(f, LowerRiskFirst, e);
    TiesAreAtRisk(StableSort.SortBy(f, LowerRiskFirst), e);
    TiesAreAtRisk(f, e);
  }

  /** `Lowest Risk` is a permutation ordered low, medium, high, and within one level the vaults
      keep their searched order. */
  lemma LowestRiskIsStableSortedPermutation(vaults: seq<Vault>, searchQuery: string)
    ensures var r, f := FilteredVaults(vaults, LowestRisk, searchQuery), ApplySearch(vaults, searchQuery);
            multiset(r) == multiset(f)
            && (forall i, j :: 0 <= i < j < |r| ==> RiskRank(r[i].riskLevel) <= RiskRank(r[j].riskLevel))
            && (forall level :: AtRisk(r, level) == AtRisk(f, level))
  {
    var r, f := FilteredVaults(vaults, LowestRisk, searchQuery), ApplySearch(vaults, searchQuery);
    if vaults != [] {
      assert r == StableSort.SortBy(f, LowerRiskFirst);
      LowerRiskFirstIsTotalPreorder();
      StableSort.SortBySorted(f, LowerRiskFirst);
      forall i, j | 0 <= i < j < |r|
        ensures RiskRank(r[i].riskLevel) <= RiskRank(r[j].riskLevel)
      {
        assert LowerRiskFirst(r[i], r[j]);
      }
      forall level
        ensures AtRisk(r, level) == AtRisk(f, level)
      {
        RiskSortIsStable(f, level);
      }
    }
  }

  /** `New` is a permutation of the searched list in ascending id order. */
  lemma NewIsSortedPermutation(vaults: seq<Vault>, searchQuery: string)
    ensures var r, f := FilteredVaults(vaults, New, searchQuery), ApplySearch(vaults, searchQuery);
            multiset(r) == multiset(f)
            && forall i, j :: 0 <= i < j < |r| ==> Text.LexLe(r[i].id, r[j].id)
  {
    var r, f := FilteredVaults(vaults, New, searchQuery), ApplySearch(vaults, searchQuery);
    SmallerIdFirstIsTotalPreorder();
    StableSort.SortBySorted(f, SmallerIdFirst);
    forall i, j | 0 <= i < j < |r|
      ensures Text.LexLe(r[i].id, r[j].id)
    {
      assert SmallerIdFirst(r[i], r[j]);
    }
  }

  // ---------------------------------------------------------------- page state

  /** The page's filter state. */
  class CatalogFilters {
    var activeFilter: Category
    var searchQuery: string

    constructor ()
      ensures activeFilter == All && searchQuery == []
    {
      activeFilter := All;
      searchQuery := [];
    }

    /** What the grid shows for the given vault list. */
    function Visible(vaults: seq<Vault>): (r: seq<Vault>)
      reads this
      ensures multiset(r) == multiset(ApplySearch(vaults, searchQuery))
      ensures activeFilter == All ==> r == ApplySearch(vaults, searchQuery)
    {
      FilteredVaults(vaults, activeFilter, searchQuery)
    }

    method SetActiveFilter(category: Category)
      modifies this
      ensures activeFilter == category && searchQuery == old(searchQuery)
    {
      activeFilter := category;
    }

    method SetSearchQuery(query: string)
      modifies this
      ensures searchQuery == query && activeFilter == old(activeFilter)
    {
      searchQuery := query;
    }

    /** "Reset Filters": an empty query and the `All` category, so every vault is shown in order. */
    method ResetFilters()
      modifies this
      ensures activeFilter == All && searchQuery == []
      ensures forall vaults :: Visible(vaults) == vaults
    {
      searchQuery := [];
      activeFilter := All;
    }
  }
}
