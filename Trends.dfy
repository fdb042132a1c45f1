/** The trend catalogue view: the trends filtered by region and by the set
    of selected sources (`filteredTrends`), sorted by the chosen column in
    the chosen direction (`sortedTrends`), the column selector
    (`handleSort`) and the source check-boxes (`handleSourceToggle`). */
module Trends {
  import opened Sequences
  import opened StableSort

  datatype Region = US | EU | Global
  datatype RegionFilter = All | Only(region: Region)
  datatype Source = GoogleTrends | TikTok | YouTube

  datatype Trend = Trend(id: int, title: string, source: Source, region: Region,
                         searchVolume: int, growth: int)

  datatype SortKey = Title | SearchVolume | Growth
  datatype SortOrder = Asc | Desc
  datatype SortState = SortState(key: SortKey, order: SortOrder)

  /** The view opens on every source, every region, by search volume, largest first. */
  const AllSources: seq<Source> := [GoogleTrends, TikTok, YouTube]
  const InitialSort: SortState := SortState(SearchVolume, Desc)

  // ---------------------------------------------------------------- filter

  predicate Matches(regionFilter: RegionFilter, sources: seq<Source>, t: Trend)
  {
    (regionFilter.All? || t.region == regionFilter.region) && t.source in sources
  }

  function Selected(regionFilter: RegionFilter, sources: seq<Source>): Trend -> bool
  {
    (t: Trend) => Matches(regionFilter, sources, t)
  }

  /** `trendCatalog.filter(...)`. */
  function FilteredTrends(catalog: seq<Trend>, regionFilter: RegionFilter, sources: seq<Source>): seq<Trend>
  {
    Filter(catalog, Selected(regionFilter, sources))
  }

  /** The filtered list is the subsequence of the catalogue made of exactly
      the matching trends, each with all its copies. */
  lemma FilteredTrendsSpec(catalog: seq<Trend>, regionFilter: RegionFilter, sources: seq<Source>)
    ensures var r := FilteredTrends(catalog, regionFilter, sources);
      && IsSubsequence(r, catalog)
      && (forall i :: 0 <= i < |r| ==> Matches(regionFilter, sources, r[i]))
      && (forall i :: 0 <= i < |catalog| ==>
            (catalog[i] in r <==> Matches(regionFilter, sources, catalog[i])))
      && (forall t :: multiset(r)[t] == if Matches(regionFilter, sources, t) then multiset(catalog)[t] else 0)
  {
    FilterIsSubsequence(catalog, Selected(regionFilter, sources));
    FilterMultiset(catalog, Selected(regionFilter, sources));
  }

  /** The view as the page opens: the whole catalogue, largest search volume first. */
  lemma InitialView(catalog: seq<Trend>, rank: string -> int)
    ensures var r := SortedTrends(FilteredTrends(catalog, All, AllSources), InitialSort, rank);
      && multiset(r) == multiset(catalog)
      && forall i, j :: 0 <= i < j < |r| ==> r[i].searchVolume >= r[j].searchVolume
  {
    InitialFilterShowsAll(catalog);
    SortedTrendsSpec(catalog, InitialSort, rank);
  }

  /** The region filter "All" with every source selected shows the whole catalogue. */
  lemma InitialFilterShowsAll(catalog: seq<Trend>)
    ensures FilteredTrends(catalog, All, AllSources) == catalog
  {
    forall i | 0 <= i < |catalog| ensures Selected(All, AllSources)(catalog[i]) {
      assert catalog[i].source in AllSources by {
        match catalog[i].source
        case GoogleTrends => assert AllSources[0] == GoogleTrends;
        case TikTok => assert AllSources[1] == TikTok;
        case YouTube => assert AllSources[2] == YouTube;
      }
    }
    FilterAll(catalog, Selected(All, AllSources));
  }

  /** Only membership of the source list matters, not its order or its copies. */
  lemma FilterDependsOnMembership(catalog: seq<Trend>, regionFilter: RegionFilter, a: seq<Source>, b: seq<Source>)
    requires forall x :: x in a <==> x in b
    ensures FilteredTrends(catalog, regionFilter, a) == FilteredTrends(catalog, regionFilter, b)
  {
    FilterCongruent(catalog, Selected(regionFilter, a), Selected(regionFilter, b));
  }

  // ------------------------------------------------------------------ sort

  function Direction(order: SortOrder): int
  {
    if order == Asc then 1 else -1
  }

  /** The sign of an integer: what matters of a comparator's result. */
  function Sign(n: int): int
  {
    if n < 0 then -1 else if n > 0 then 1 else 0
  }

  /** `a.localeCompare(b)`, given a collation rank: a total preorder on
      strings, as the locale's collation defines one. */
  function LocaleCompare(rank: string -> int, a: string, b: string): int
  {
    Sign(rank(a) - rank(b))
  }

  /** The comparator passed to `trends.sort`. */
  function Compare(state: SortState, rank: string -> int, a: Trend, b: Trend): int
  {
    var direction := if state.order == Asc then 1 else -1;
    if state.key == Title then LocaleCompare(rank, a.title, b.title) * direction
    else if state.key == Growth then (a.growth - b.growth) * direction
    else (a.searchVolume - b.searchVolume) * direction
  }

  /** The column the view sorts on. */
  function Metric(key: SortKey, rank: string -> int, t: Trend): int
  {
    match key
    case Title => rank(t.title)
    case SearchVolume => t.searchVolume
    case Growth => t.growth
  }

  /** An integer key whose ascending order is the comparator's order. */
  function SortKeyOf(state: SortState, rank: string -> int): Trend -> int
  {
    (t: Trend) => Direction(state.order) * Metric(state.key, rank, t)
  }

  /** The comparator orders two trends exactly as their keys do. */
  lemma CompareIsKeyOrder(state: SortState, rank: string -> int, a: Trend, b: Trend)
    ensures Sign(Compare(state, rank, a, b)) == Sign(SortKeyOf(state, rank)(a) - SortKeyOf(state, rank)(b))
  {
  }

  /** `[...filteredTrends].sort(comparator)`: a stable sort by that key. */
  function SortedTrends(filtered: seq<Trend>, state: SortState, rank: string -> int): seq<Trend>
  {
    SortByKey(filtered, SortKeyOf(state, rank))
  }

  /** The sorted list is a permutation of the filtered list, ordered by the
      chosen column in the chosen direction, so that the comparator never
      puts an element after one it ranks lower; trends that tie keep the
      order they had in the catalogue. */
  lemma SortedTrendsSpec(filtered: seq<Trend>, state: SortState, rank: string -> int)
    ensures var r := SortedTrends(filtered, state, rank);
      && multiset(r) == multiset(filtered)
      && (state.order == Asc ==> forall i, j :: 0 <= i < j < |r| ==>
            Metric(state.key, rank, r[i]) <= Metric(state.key, rank, r[j]))
      && (state.order == Desc ==> forall i, j :: 0 <= i < j < |r| ==>
            Metric(state.key, rank, r[i]) >= Metric(state.key, rank, r[j]))
      && (forall i, j :: 0 <= i < j < |r| ==> Compare(state, rank, r[i], r[j]) <= 0)
      && (forall v :: WithKey(r, SortKeyOf(state, rank), v) == WithKey(filtered, SortKeyOf(state, rank), v))
  {
    var key := SortKeyOf(state, rank);
    var r := SortedTrends(filtered, state, rank);
    assert SortedBy(r, key);
    forall i, j | 0 <= i < j < |r| ensures Compare(state, rank, r[i], r[j]) <= 0 {
      CompareIsKeyOrder(state, rank, r[i], r[j]);
    }
    forall v ensures WithKey(r, key, v) == WithKey(filtered, key, v) {
      SortByKeyStable(filtered, key, v);
    }
  }

  // ---------------------------------------------------- column selector

  function Flip(order: SortOrder): SortOrder
  {
    if order == Asc then Desc else Asc
  }

  /** `handleSort(key)`: the same column flips the direction, another
      column is selected largest first. */
  function NextSort(state: SortState, key: SortKey): SortState
  {
    SortState(key, if state.key == key then Flip(state.order) else Desc)
  }

  lemma NextSortSpec(state: SortState, key: SortKey)
    ensures var s := NextSort(state, key);
      && s.key == key
      && (state.key == key ==> s.order != state.order)
      && (state.key != key ==> s.order == Desc)
  {
  }

  /** Selecting the current column twice gives back the state; selecting
      a new column twice gives smallest first. */
  lemma NextSortTwice(state: SortState, key: SortKey)
    ensures state.key == key ==> NextSort(NextSort(state, key), key) == state
    ensures state.key != key ==> NextSort(NextSort(state, key), key) == SortState(key, Asc)
  {
  }

  // --------------------------------------------------------- source toggle

  function IsNot(s: Source): Source -> bool
  {
    (x: Source) => x != s
  }

  /** `handleSourceToggle(source)`: drop every copy of a selected source,
      append one that is not selected. */
  function ToggleSource(sources: seq<Source>, s: Source): seq<Source>
  {
    if s in sources then Filter(sources, IsNot(s)) else sources + [s]
  }

  /** Toggling flips the toggled source's membership and no other. */
  lemma ToggleMembership(sources: seq<Source>, s: Source)
    ensures s in ToggleSource(sources, s) <==> s !in sources
    ensures forall x :: x != s ==> (x in ToggleSource(sources, s) <==> x in sources)
  {
    var r := ToggleSource(sources, s);
    if s in sources {
      forall x | x != s && x in sources ensures x in r {
        var i :| 0 <= i < |sources| && sources[i] == x;
      }
      forall i | 0 <= i < |r| ensures r[i] != s {
        assert IsNot(s)(r[i]);
      }
    }
  }

  /** Two toggles of the same source restore the selection as a set (and
      so the filtered trends) ... */
  lemma ToggleTwiceMembership(sources: seq<Source>, s: Source)
    ensures forall x :: x in ToggleSource(ToggleSource(sources, s), s) <==> x in sources
  {
    ToggleMembership(sources, s);
    ToggleMembership(ToggleSource(sources, s), s);
  }

  /** ... and the list itself when the source was not selected. */
  lemma ToggleTwiceRestores(sources: seq<Source>, s: Source)
    requires s !in sources
    ensures ToggleSource(ToggleSource(sources, s), s) == sources
  {
    assert s in sources + [s];
    FilterSnoc(sources, s, IsNot(s));
    FilterAll(sources, IsNot(s));
  }

  /** Unchecking and rechecking a selected source moves it to the end. */
  lemma ToggleTwiceReorders()
    ensures ToggleSource(ToggleSource(AllSources, GoogleTrends), GoogleTrends) == [TikTok, YouTube, GoogleTrends]
  {
    UncheckGoogleTrends();
    assert GoogleTrends !in [TikTok, YouTube];
  }

  lemma UncheckGoogleTrends()
    ensures ToggleSource(AllSources, GoogleTrends) == [TikTok, YouTube]
  {
    var s := AllSources;
    assert s[0] == GoogleTrends && s[1..] == [TikTok, YouTube];
    assert Filter(s, IsNot(GoogleTrends)) == Filter([TikTok, YouTube], IsNot(GoogleTrends));
    FilterAll([TikTok, YouTube], IsNot(GoogleTrends));
  }

  predicate NoDuplicates(sources: seq<Source>)
  {
    forall i, j :: 0 <= i < j < |sources| ==> sources[i] != sources[j]
  }

  /** Starting from a list without repeats, toggling never creates one. */
  lemma ToggleKeepsNoDuplicates(sources: seq<Source>, s: Source)
    requires NoDuplicates(sources)
    ensures NoDuplicates(ToggleSource(sources, s))
  {
    if s in sources {
      FilterIsSubsequence(sources, IsNot(s));
      SubsequenceKeepsNoDuplicates(Filter(sources, IsNot(s)), sources);
    }
  }

  lemma {:induction false} SubsequenceKeepsNoDuplicates(a: seq<Source>, b: seq<Source>)
    requires IsSubsequence(a, b) && NoDuplicates(b)
    ensures NoDuplicates(a)
    decreases |b|
  {
    if a != [] {
      assert b != [];
      assert NoDuplicates(b[1..]);
      if a[0] == b[0] && IsSubsequence(a[1..], b[1..]) {
        SubsequenceKeepsNoDuplicates(a[1..], b[1..]);
        SubsequenceMembers(a[1..], b[1..]);
        forall j | 0 < j < |a| ensures a[0] != a[j] {
          assert a[j] == a[1..][j - 1] && a[1..][j - 1] in a[1..];
          assert a[j] in b[1..];
          var k :| 0 <= k < |b[1..]| && b[1..][k] == a[j];
          assert b[k + 1] == a[j];
        }
      } else {
        SubsequenceKeepsNoDuplicates(a, b[1..]);
      }
    }
  }

  lemma {:induction false} SubsequenceMembers(a: seq<Source>, b: seq<Source>)
    requires IsSubsequence(a, b)
    ensures forall x :: x in a ==> x in b
    decreases |b|
  {
    if a != [] {
      if a[0] == b[0] && IsSubsequence(a[1..], b[1..]) {
        SubsequenceMembers(a[1..], b[1..]);
        assert a == [a[0]] + a[1..];
      } else {
        SubsequenceMembers(a, b[1..]);
      }
    }
  }
}
