/** The favorites screen: removal by id and the empty-state rule. */
module Favorites {
  import opened Wrappers
  import opened Seqs
  import opened Catalog

  function Favorite(id: string, title: string, image: string, genre: string, rating: real, watchProgress: nat): Anime {
    Anime(id, title, image, Some(genre), Some(rating), None, Some(watchProgress), None)
  }

  /** `MOCK_FAVORITES`, the list the screen starts with. */
  const MockFavorites: seq<Anime> := [
    Favorite("1", "Attack on Titan", "https://via.placeholder.com/300x400/FF6B6B/white?text=AOT", "Action, Drama", 9.0, 85),
    Favorite("2", "Demon Slayer", "https://via.placeholder.com/300x400/4ECDC4/white?text=DS", "Action, Supernatural", 8.7, 100),
    Favorite("3", "One Piece", "https://via.placeholder.com/300x400/45B7D1/white?text=OP", "Adventure, Comedy", 9.5, 45),
    Favorite("4", "Jujutsu Kaisen", "https://via.placeholder.com/300x400/96CEB4/white?text=JJK", "Action, School", 8.6, 70)
  ]

  function Id(a: Anime): string {
    a.id
  }

  function OtherId(id: string): Anime -> bool {
    (a: Anime) => a.id != id
  }

  /** The filter of `handleRemoveFavorite`: exactly the items with another id, in
      their order and unchanged. */
  function RemoveById(favorites: seq<Anime>, id: string): (r: seq<Anime>)
    ensures forall a :: a in r <==> a in favorites && a.id != id
    ensures forall a :: multiset(r)[a] == if a.id != id then multiset(favorites)[a] else 0
    ensures SubseqOf(r, favorites)
    ensures |r| <= |favorites|
  {
    Keep(favorites, OtherId(id))
  }

  /** With unique ids, removing an id that is present drops exactly one item. */
  lemma {:induction false} RemovePresent(favorites: seq<Anime>, id: string)
    requires UniqueKeys(favorites, Id)
    requires exists k :: 0 <= k < |favorites| && favorites[k].id == id
    ensures |RemoveById(favorites, id)| == |favorites| - 1
  {
    var rest := favorites[1..];
    assert UniqueKeys(rest, Id) by {
      forall i, j | 0 <= i < j < |rest| ensures Id(rest[i]) != Id(rest[j]) {
        assert rest[i] == favorites[i + 1] && rest[j] == favorites[j + 1];
      }
    }
    if favorites[0].id == id {
      forall a | a in rest ensures OtherId(id)(a) {
        var j :| 0 <= j < |rest| && rest[j] == a;
        assert favorites[j + 1] == a;
      }
      KeepAll(rest, OtherId(id));
    } else {
      var k :| 0 <= k < |favorites| && favorites[k].id == id;
      assert rest[k - 1].id == id;
      RemovePresent(rest, id);
    }
  }

  /** Removing an id that no item has changes nothing. */
  lemma RemoveAbsent(favorites: seq<Anime>, id: string)
    requires forall a :: a in favorites ==> a.id != id
    ensures RemoveById(favorites, id) == favorites
  {
    KeepAll(favorites, OtherId(id));
  }

  /** Removing the same id twice is removing it once. */
  lemma RemoveIdempotent(favorites: seq<Anime>, id: string)
    ensures RemoveById(RemoveById(favorites, id), id) == RemoveById(favorites, id)
  {
    RemoveAbsent(RemoveById(favorites, id), id);
  }

  /** What the screen shows: the empty state, or a header with a count above the grid. */
  datatype FavoritesView = EmptyState | Listing(count: nat, items: seq<Anime>)

  /** The render rule: the empty state exactly when the list is empty, otherwise
      the header counts the list and the grid shows it. */
  function Render(favorites: seq<Anime>): (v: FavoritesView)
    ensures v.EmptyState? <==> |favorites| == 0
    ensures v.Listing? ==> v.count == |favorites| && v.items == favorites
  {
    if |favorites| == 0 then EmptyState else Listing(|favorites|, favorites)
  }

  /** Removing a listed favorite lowers the displayed count by one, or shows the
      empty state when it was the last one, and the item is no longer listed. */
  lemma RemoveUpdatesView(favorites: seq<Anime>, k: nat)
    requires UniqueKeys(favorites, Id) && k < |favorites|
    ensures var v := Render(RemoveById(favorites, favorites[k].id));
      (|favorites| == 1 ==> v.EmptyState?) &&
      (|favorites| > 1 ==> v.Listing? && v.count == |favorites| - 1 && favorites[k] !in v.items)
  {
    RemovePresent(favorites, favorites[k].id);
  }

  class FavoritesScreen {
    var favorites: seq<Anime>
    var navLog: seq<NavCommand>

    ghost predicate Valid()
      reads this
    {
      UniqueKeys(favorites, Id) && forall c :: c in navLog ==> WellFormed(c)
    }

    /** The first render: the list starts as the hard-coded favorites. */
    constructor ()
      ensures Valid()
      ensures favorites == MockFavorites && navLog == []
    {
      favorites, navLog := MockFavorites, [];
    }

    /** `handleRemoveFavorite`: the list becomes the items with another id. */
    method HandleRemoveFavorite(animeId: string)
      requires Valid()
      modifies this`favorites
      ensures Valid()
      ensures favorites == RemoveById(old(favorites), animeId)
    {
      KeepUniqueKeys(favorites, OtherId(animeId), Id);
      favorites := RemoveById(favorites, animeId);
    }

    /** `handleAnimePress`: open the detail screen on the tapped favorite. */
    method HandleAnimePress(anime: Anime)
      requires Valid()
      modifies this`navLog
      ensures Valid()
      ensures navLog == old(navLog) + [Navigate(AnimeDetail, DetailParams(anime))]
    {
      navLog := navLog + [Navigate(AnimeDetail, DetailParams(anime))];
    }

    /** The empty state's Explore Anime button: go to the home tab. */
    method HandleExplore()
      requires Valid()
      modifies this`navLog
      ensures Valid()
      ensures navLog == old(navLog) + [Navigate(Home, NoParams)]
    {
      navLog := navLog + [Navigate(Home, NoParams)];
    }
  }
}
