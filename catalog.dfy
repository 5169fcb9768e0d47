/** The records the screens pass to one another, and the navigation commands that carry them. */
module Catalog {
  import opened Wrappers

  /** A catalog title. The hard-coded lists give different subsets of these properties
      (search results have a year, favorites a watch progress, similar titles neither),
      so every property but id, title and image may be missing. */
  datatype Anime = Anime(
    id: string,
    title: string,
    image: string,
    genre: Option<string>,
    rating: Option<real>,
    year: Option<int>,
    watchProgress: Option<nat>,
    description: Option<string>)

  /** An episode of the detail screen's hard-coded list; `duration` is display text. */
  datatype Episode = Episode(id: string, title: string, duration: string, thumbnail: string)

  /** The stack and tab routes the screens navigate to. */
  datatype Route = Home | AnimeDetail | VideoPlayer

  /** The parameter objects the screens hand to a route. */
  datatype RouteParams =
    | NoParams
    | DetailParams(anime: Anime)
    | PlayerParams(anime: Anime, episode: Episode)

  /** A call on the navigation object, recorded instead of performed. */
  datatype NavCommand =
    | Navigate(route: Route, params: RouteParams)
    | Push(route: Route, params: RouteParams)
    | GoBack

  /** The parameters each route reads: the detail screen reads `anime`, the player
      reads `anime` and `episode`, the home tab reads nothing. */
  predicate WellFormed(c: NavCommand) {
    match c
    case GoBack => true
    case Navigate(route, params) => ParamsFit(route, params)
    case Push(route, params) => ParamsFit(route, params)
  }

  predicate ParamsFit(route: Route, params: RouteParams) {
    match route
    case Home => params.NoParams?
    case AnimeDetail => params.DetailParams?
    case VideoPlayer => params.PlayerParams?
  }

  /** The caption of an episode, as the episode card and the player overlay print it. */
  function EpisodeLabel(e: Episode): (r: string)
    ensures |r| == 10 + |e.id| + |e.title|
  {
    "Episode " + e.id + ": " + e.title
  }

  /** The caption determines the episode's id and title, as long as ids hold no colon. */
  lemma EpisodeLabelInjective(e1: Episode, e2: Episode)
    requires ':' !in e1.id && ':' !in e2.id
    requires EpisodeLabel(e1) == EpisodeLabel(e2)
    ensures e1.id == e2.id && e1.title == e2.title
  {
    var l := EpisodeLabel(e1);
    assert forall k :: 0 <= k < |e1.id| ==> l[8 + k] == e1.id[k];
    assert forall k :: 0 <= k < |e2.id| ==> l[8 + k] == e2.id[k];
    assert l[8 + |e1.id|] == ':' && l[8 + |e2.id|] == ':';
    if |e1.id| != |e2.id| {
      assert false;
    }
    assert e1.id == l[8..8 + |e1.id|] == e2.id;
    assert e1.title == l[10 + |e1.id|..] == e2.title;
  }
}
