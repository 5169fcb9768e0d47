/** The search screen: the case-insensitive title filter over the catalog, the
    genre chips, and the query, loading and results state. */
module Search {
  import opened Wrappers
  import opened Seqs
  import opened Ascii
  import opened Catalog

  function Entry(id: string, title: string, image: string, genre: string, rating: real, year: int): Anime {
    Anime(id, title, image, Some(genre), Some(rating), Some(year), None, None)
  }

  /** `MOCK_SEARCH_RESULTS`, the catalog every search filters. */
  const MockSearchResults: seq<Anime> := [
    Entry("1", "Attack on Titan", "https://via.placeholder.com/200x300/FF6B6B/white?text=AOT", "Action, Drama", 9.0, 2023),
    Entry("2", "Demon Slayer", "https://via.placeholder.com/200x300/4ECDC4/white?text=DS", "Action, Supernatural", 8.7, 2023),
    Entry("3", "One Piece", "https://via.placeholder.com/200x300/45B7D1/white?text=OP", "Adventure, Comedy", 9.5, 2023),
    Entry("4", "Jujutsu Kaisen", "https://via.placeholder.com/200x300/96CEB4/white?text=JJK", "Action, School", 8.6, 2023),
    Entry("5", "My Hero Academia", "https://via.placeholder.com/200x300/FFEAA7/black?text=MHA", "Action, School, Superhero", 8.4, 2023),
    Entry("6", "Naruto", "https://via.placeholder.com/200x300/DDA0DD/black?text=Naruto", "Action, Adventure", 8.8, 2023)
  ]

  const PopularSearches: seq<string> := [
    "Attack on Titan", "Demon Slayer", "One Piece", "Jujutsu Kaisen",
    "My Hero Academia", "Death Note", "Naruto", "Dragon Ball Z"
  ]

  /** `GENRES`, the chips the genre filter offers. */
  const Genres: seq<string> := [
    "Action", "Adventure", "Comedy", "Drama", "Fantasy",
    "Romance", "Sci-Fi", "Thriller", "Horror", "Slice of Life"
  ]

  /** The test a title must pass: the folded query occurs in the folded title. */
  predicate TitleMatches(query: string, anime: Anime) {
    Contains(Lower(anime.title), Lower(query))
  }

  function MatchesQuery(query: string): Anime -> bool {
    anime => TitleMatches(query, anime)
  }

  /** The filter of `handleSearch`: exactly the catalog entries whose title
      contains the query, ignoring case, in catalog order. */
  function SearchCatalog(catalog: seq<Anime>, query: string): (r: seq<Anime>)
    ensures forall a :: a in r ==> TitleMatches(query, a)
    ensures forall a :: a in catalog && TitleMatches(query, a) ==> a in r
    ensures forall a :: a in r ==> a in catalog
    ensures forall a :: multiset(r)[a] == if TitleMatches(query, a) then multiset(catalog)[a] else 0
    ensures SubseqOf(r, catalog)
  {
    Keep(catalog, MatchesQuery(query))
  }

  /** Results never repeat an id when the catalog does not. */
  lemma SearchKeepsIdsUnique(catalog: seq<Anime>, query: string)
    requires UniqueKeys(catalog, (a: Anime) => a.id)
    ensures UniqueKeys(SearchCatalog(catalog, query), (a: Anime) => a.id)
  {
    KeepUniqueKeys(catalog, MatchesQuery(query), (a: Anime) => a.id);
  }

  /** Any stretch of a title, typed in any mix of cases, finds that title. */
  lemma SubstringFinds(catalog: seq<Anime>, k: nat, i: nat, j: nat, query: string)
    requires k < |catalog| && i <= j <= |catalog[k].title|
    requires Lower(query) == Lower(catalog[k].title[i..j])
    ensures catalog[k] in SearchCatalog(catalog, query)
  {
    var title := catalog[k].title;
    LowerSlice(title, i, j);
    assert OccursAt(Lower(title), Lower(query), i);
  }

  /** Searching for a title, exactly as written, finds it. */
  lemma TitleFindsItself(catalog: seq<Anime>, a: Anime)
    requires a in catalog
    ensures a in SearchCatalog(catalog, a.title)
  {
    assert OccursAt(Lower(a.title), Lower(a.title), 0);
  }

  /** `handleGenrePress`: a selected genre is removed everywhere it occurs, any
      other genre is appended at the end. */
  function ToggleGenre(selected: seq<string>, genre: string): (r: seq<string>)
    ensures genre in selected ==> genre !in r && SubseqOf(r, selected)
    ensures genre in selected ==> forall g :: g != genre ==> multiset(r)[g] == multiset(selected)[g]
    ensures genre !in selected ==> r == selected + [genre]
    ensures genre in r <==> genre !in selected
    ensures forall g :: g != genre ==> (g in r <==> g in selected)
  {
    if genre in selected then Keep(selected, g => g != genre) else selected + [genre]
  }

  /** Pressing a genre that was not selected, twice, gives the selection back unchanged. */
  lemma ToggleTwiceAbsent(selected: seq<string>, genre: string)
    requires genre !in selected
    ensures ToggleGenre(ToggleGenre(selected, genre), genre) == selected
  {
    var p := (g: string) => g != genre;
    KeepAppend(selected, [genre], p);
    KeepAll(selected, p);
    assert Keep([genre], p) == [];
  }

  /** Pressing any genre twice gives back the same set of selected genres. */
  lemma ToggleTwiceMembership(selected: seq<string>, genre: string)
    ensures forall g :: g in ToggleGenre(ToggleGenre(selected, genre), genre) <==> g in selected
  {
  }

  /** A selection without repeats stays without repeats. */
  lemma ToggleKeepsDistinct(selected: seq<string>, genre: string)
    requires UniqueKeys(selected, (g: string) => g)
    ensures UniqueKeys(ToggleGenre(selected, genre), (g: string) => g)
  {
    if genre in selected {
      KeepUniqueKeys(selected, g => g != genre, (g: string) => g);
    }
  }

  class SearchScreen {
    /** The list every search filters: `MOCK_SEARCH_RESULTS`. */
    const catalog: seq<Anime>
    var searchQuery: string
    var searchResults: seq<Anime>
    var isLoading: bool
    var selectedGenres: seq<string>
    var showResults: bool
    /** The queries of the searches whose simulated delay is still running, in the
        order their completions will run (every delay is the same 500 ms). */
    var pendingSearches: seq<string>
    var navLog: seq<NavCommand>

    /** Results always come from the catalog, and are empty while hidden; only
        non-empty queries are ever searched. */
    ghost predicate Valid()
      reads this
    {
      SubseqOf(searchResults, catalog) &&
      (!showResults ==> searchResults == []) &&
      (forall i :: 0 <= i < |pendingSearches| ==> pendingSearches[i] != "") &&
      (forall c :: c in navLog ==> WellFormed(c))
    }

    /** The first render; the query effect's first run finds an empty query and
        clears what is already clear. */
    constructor ()
      ensures Valid() && catalog == MockSearchResults
      ensures searchQuery == "" && searchResults == [] && !isLoading
      ensures selectedGenres == [] && !showResults
      ensures pendingSearches == [] && navLog == []
    {
      catalog := MockSearchResults;
      searchQuery, searchResults, isLoading := "", [], false;
      selectedGenres, showResults := [], false;
      pendingSearches, navLog := [], [];
    }

    /** `setSearchQuery` followed by the query effect, which runs only when the
        query actually changes: an empty query hides and empties the results; any
        other starts a search (loading on) whose completion comes later. */
    method SetSearchQuery(query: string)
      requires Valid()
      modifies this`searchQuery, this`searchResults, this`showResults, this`isLoading, this`pendingSearches
      ensures Valid()
      ensures searchQuery == query
      ensures query == old(searchQuery) ==>
        searchResults == old(searchResults) && showResults == old(showResults) &&
        isLoading == old(isLoading) && pendingSearches == old(pendingSearches)
      ensures query != old(searchQuery) && query == "" ==>
        searchResults == [] && !showResults &&
        isLoading == old(isLoading) && pendingSearches == old(pendingSearches)
      ensures query != old(searchQuery) && query != "" ==>
        isLoading && pendingSearches == old(pendingSearches) + [query] &&
        searchResults == old(searchResults) && showResults == old(showResults)
    {
      if query != searchQuery {
        searchQuery := query;
        if |searchQuery| > 0 {
          HandleSearch();
        } else {
          showResults := false;
          searchResults := [];
        }
      }
    }

    /** `handleSearch`: loading on, and the completion scheduled with the current query. */
    method HandleSearch()
      requires Valid() && searchQuery != ""
      modifies this`isLoading, this`pendingSearches
      ensures Valid()
      ensures isLoading && pendingSearches == old(pendingSearches) + [searchQuery]
    {
      isLoading := true;
      pendingSearches := pendingSearches + [searchQuery];
    }

    /** The oldest scheduled search completes: its results (for the query it was
        started with, whatever the query is now) are shown and loading ends. */
    method CompleteSearch()
      requires Valid() && pendingSearches != []
      modifies this`searchResults, this`showResults, this`isLoading, this`pendingSearches
      ensures Valid()
      ensures searchResults == SearchCatalog(catalog, old(pendingSearches)[0])
      ensures showResults && !isLoading
      ensures pendingSearches == old(pendingSearches)[1..]
    {
      var filtered := SearchCatalog(catalog, pendingSearches[0]);
      var rest := pendingSearches[1..];
      searchResults := filtered;
      showResults := true;
      isLoading := false;
      pendingSearches := rest;
    }

    /** `handlePopularSearch`: the tapped popular search becomes the query. */
    method HandlePopularSearch(search: string)
      requires Valid() && search in PopularSearches
      modifies this`searchQuery, this`searchResults, this`showResults, this`isLoading, this`pendingSearches
      ensures Valid()
      ensures searchQuery == search
      ensures search == old(searchQuery) ==>
        searchResults == old(searchResults) && showResults == old(showResults) &&
        isLoading == old(isLoading) && pendingSearches == old(pendingSearches)
      ensures search != old(searchQuery) ==>
        isLoading && pendingSearches == old(pendingSearches) + [search] &&
        searchResults == old(searchResults) && showResults == old(showResults)
    {
      SetSearchQuery(search);
    }

    /** The clear button: the query becomes empty, which hides and empties the
        results when the query was not empty already. */
    method Clear()
      requires Valid()
      modifies this`searchQuery, this`searchResults, this`showResults, this`isLoading, this`pendingSearches
      ensures Valid()
      ensures searchQuery == ""
      ensures old(searchQuery) != "" ==> searchResults == [] && !showResults
      ensures old(searchQuery) == "" ==> searchResults == old(searchResults) && showResults == old(showResults)
      ensures pendingSearches == old(pendingSearches) && isLoading == old(isLoading)
    {
      SetSearchQuery("");
    }

    /** `handleGenrePress`: only the selection changes; results stay as they are. */
    method HandleGenrePress(genre: string)
      requires Valid() && genre in Genres
      modifies this`selectedGenres
      ensures Valid()
      ensures selectedGenres == ToggleGenre(old(selectedGenres), genre)
    {
      selectedGenres := ToggleGenre(selectedGenres, genre);
    }

    /** `handleAnimePress`: open the detail screen on the tapped result. */
    method HandleAnimePress(anime: Anime)
      requires Valid()
      modifies this`navLog
      ensures Valid()
      ensures navLog == old(navLog) + [Navigate(AnimeDetail, DetailParams(anime))]
    {
      navLog := navLog + [Navigate(AnimeDetail, DetailParams(anime))];
    }
  }

  /** The simulated delay is never cancelled: a search typed and then cleared
      still completes afterwards, and shows its results under an empty query;
      those results include any catalog title the search names exactly. */
  method ClearDuringSearch(search: string) returns (query: string, shown: bool, results: seq<Anime>)
    requires search != ""
    ensures query == "" && shown
    ensures results == SearchCatalog(MockSearchResults, search)
    ensures forall a :: a in MockSearchResults && a.title == search ==> a in results
  {
    var screen := new SearchScreen();
    screen.SetSearchQuery(search);
    screen.Clear();
    screen.CompleteSearch();
    query, shown, results := screen.searchQuery, screen.showResults, screen.searchResults;
    forall a | a in screen.catalog && a.title == search ensures a in results {
      TitleFindsItself(screen.catalog, a);
    }
  }
}
