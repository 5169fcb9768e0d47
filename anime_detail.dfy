/** The detail screen: the favourite flag, the two tabs, the synopsis fallback and
    the navigation to the player and to similar titles. */
module AnimeDetail {
  import opened Wrappers
  import opened Catalog

  /** `MOCK_EPISODES`, the episode list every title shows. */
  const MockEpisodes: seq<Episode> := [
    Episode("1", "The Beginning", "24:30", "https://via.placeholder.com/160x90/FF6B6B/white?text=EP1"),
    Episode("2", "First Battle", "23:45", "https://via.placeholder.com/160x90/4ECDC4/white?text=EP2"),
    Episode("3", "New Powers", "24:15", "https://via.placeholder.com/160x90/45B7D1/white?text=EP3"),
    Episode("4", "The Training", "25:00", "https://via.placeholder.com/160x90/96CEB4/white?text=EP4")
  ]

  function Similar(id: string, title: string, image: string): Anime {
    Anime(id, title, image, None, None, None, None, None)
  }

  /** `SIMILAR_ANIME`: titles with only an id, a title and an image. */
  const SimilarAnime: seq<Anime> := [
    Similar("1", "Similar Anime 1", "https://via.placeholder.com/120x160/FF6B6B/white?text=S1"),
    Similar("2", "Similar Anime 2", "https://via.placeholder.com/120x160/4ECDC4/white?text=S2"),
    Similar("3", "Similar Anime 3", "https://via.placeholder.com/120x160/45B7D1/white?text=S3")
  ]

  const DefaultSynopsis: string :=
    "This anime follows an incredible journey filled with action, adventure, and unforgettable characters. Experience a story that will keep you on the edge of your seat with amazing plot twists and character development."

  /** The synopsis text: `anime.description || <default>`. A missing or empty
      description falls back to the default, so the synopsis is never blank. */
  function Synopsis(anime: Anime): (r: string)
    ensures r != ""
    ensures r == DefaultSynopsis || (anime.description == Some(r))
    ensures r == DefaultSynopsis <==> anime.description.GetOr("") in {"", DefaultSynopsis}
  {
    match anime.description
    case Some(d) => if d != "" then d else DefaultSynopsis
    case None => DefaultSynopsis
  }

  /** The two tabs; the screen has no other value for its tab selection. */
  datatype Tab = Episodes | Info

  class AnimeDetailScreen {
    const anime: Anime
    var isFavorite: bool
    var selectedTab: Tab
    var navLog: seq<NavCommand>

    /** Every navigation the screen makes carries the parameters its route reads. */
    ghost predicate Valid()
      reads this
    {
      forall c :: c in navLog ==> WellFormed(c)
    }

    /** The first render: not a favourite, on the episodes tab. */
    constructor (anime: Anime)
      ensures Valid()
      ensures this.anime == anime
      ensures !isFavorite && selectedTab == Episodes && navLog == []
    {
      this.anime := anime;
      isFavorite, selectedTab, navLog := false, Episodes, [];
    }

    /** `toggleFavorite`. */
    method ToggleFavorite()
      modifies this`isFavorite
      ensures isFavorite == !old(isFavorite)
    {
      isFavorite := !isFavorite;
    }

    /** The two tab buttons. */
    method SelectTab(tab: Tab)
      modifies this`selectedTab
      ensures selectedTab == tab
    {
      selectedTab := tab;
    }

    /** `handlePlayEpisode`: open the player on this screen's title and the episode. */
    method HandlePlayEpisode(episode: Episode)
      requires Valid()
      modifies this`navLog
      ensures Valid()
      ensures navLog == old(navLog) + [Navigate(VideoPlayer, PlayerParams(anime, episode))]
    {
      navLog := navLog + [Navigate(VideoPlayer, PlayerParams(anime, episode))];
    }

    /** Watch Now: play the first episode of the list. */
    method WatchNow()
      requires Valid()
      modifies this`navLog
      ensures Valid()
      ensures navLog == old(navLog) + [Navigate(VideoPlayer, PlayerParams(anime, MockEpisodes[0]))]
    {
      HandlePlayEpisode(MockEpisodes[0]);
    }

    /** `handleSimilarAnimePress`: push a new detail screen, keeping this one below it. */
    method HandleSimilarAnimePress(similarAnime: Anime)
      requires similarAnime in SimilarAnime
      requires Valid()
      modifies this`navLog
      ensures Valid()
      ensures navLog == old(navLog) + [Push(AnimeDetail, DetailParams(similarAnime))]
    {
      navLog := navLog + [Push(AnimeDetail, DetailParams(similarAnime))];
    }
  }

  /** Two presses of the heart give back the flag they started from. */
  method ToggleFavoriteTwice(screen: AnimeDetailScreen)
    modifies screen
    ensures screen.isFavorite == old(screen.isFavorite)
  {
    screen.ToggleFavorite();
    screen.ToggleFavorite();
  }
}
