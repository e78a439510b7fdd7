/** The relaxation media screen of `ui/screens/RelaxMediaScreen.kt`: three
    catalogues (audio, video, images), a favourites set per catalogue, a
    favourites-only switch that filters what is listed, the header, and the
    id of the audio that is playing. */
module RelaxMedia {
  import opened Common

  datatype MediaType = Audio | Video | Images

  /** The part of `RelaxAudio`, `RelaxVideo` and `RelaxImage` the screen's
      logic looks at. */
  datatype Media = Media(id: int, title: string)

  function Catalogue(t: MediaType): seq<Media> {
    match t
    case Audio => [Media(0, "Дощ"), Media(1, "Океан"), Media(2, "Ліс"), Media(3, "Медитація")]
    case Video => [Media(0, "Дощ за вікном"), Media(1, "Океанські хвилі"), Media(2, "Ліс вдень"),
                   Media(3, "Медитативний пейзаж")]
    case Images => [Media(0, "Мем дня")]
  }

  /** Some listed item of `items` carries `id`. */
  predicate Lists(items: seq<Media>, id: int) {
    exists k :: 0 <= k < |items| && items[k].id == id
  }

  // ---------------------------------------------------------------------
  // Favourites.
  // ---------------------------------------------------------------------

  /** A heart click: the id leaves the set if it is in it, and joins it
      otherwise; every other id keeps its status. */
  function Toggle(favorites: set<int>, id: int): (r: set<int>)
    ensures id in r <==> id !in favorites
    ensures forall x :: x != id ==> (x in r <==> x in favorites)
  {
    if id in favorites then favorites - {id} else favorites + {id}
  }

  /** A second click undoes the first. */
  lemma ToggleTwice(favorites: set<int>, id: int)
    ensures Toggle(Toggle(favorites, id), id) == favorites
  {
  }

  /** `a` is `b` with some elements left out, the rest in the same order. */
  predicate Subsequence(a: seq<Media>, b: seq<Media>)
    decreases |b|
  {
    if a == [] then true
    else if b == [] then false
    else if a[0] == b[0] then Subsequence(a[1..], b[1..])
    else Subsequence(a, b[1..])
  }

  /** `items.filter { it.id in favorites }`. */
  function Filter(items: seq<Media>, favorites: set<int>): (r: seq<Media>)
    ensures forall x :: x in r <==> x in items && x.id in favorites
    ensures Subsequence(r, items)
  {
    if items == [] then []
    else
      var rest := Filter(items[1..], favorites);
      assert forall x :: x in items <==> x == items[0] || x in items[1..];
      if items[0].id in favorites then [items[0]] + rest
      else
        SubsequenceSkip(rest, items);
        rest
  }

  /** The filter keeps every copy of a favourite and no copy of anything
      else. */
  lemma {:induction false} FilterCounts(items: seq<Media>, favorites: set<int>)
    ensures forall x ::
      multiset(Filter(items, favorites))[x] == (if x.id in favorites then multiset(items)[x] else 0)
  {
    if items != [] {
      FilterCounts(items[1..], favorites);
      assert items == [items[0]] + items[1..];
    }
  }

  lemma SubsequenceSkip(a: seq<Media>, b: seq<Media>)
    requires b != [] && Subsequence(a, b[1..])
    ensures Subsequence(a, b)
    decreases |b|, 0
  {
    if a != [] && a[0] == b[0] {
      SubsequenceDrop(a, b[1..]);
    }
  }

  /** Dropping the head of a subsequence leaves a subsequence. */
  lemma {:induction false} SubsequenceDrop(a: seq<Media>, b: seq<Media>)
    requires a != [] && Subsequence(a, b)
    ensures Subsequence(a[1..], b)
    decreases |b|, 1
  {
    if b != [] {
      if a[0] == b[0] {
        if a[1..] != [] {
          assert Subsequence(a[1..], b[1..]);
          SubsequenceSkip(a[1..], b);
        }
      } else {
        SubsequenceDrop(a, b[1..]);
        if a[1..] != [] {
          SubsequenceSkip(a[1..], b);
        }
      }
    }
  }

  /** What the selected tab lists: everything, or only the favourites. */
  function Displayed(items: seq<Media>, favorites: set<int>, onlyFavorites: bool): (r: seq<Media>)
    ensures !onlyFavorites ==> r == items
    ensures onlyFavorites ==> Subsequence(r, items)
    ensures onlyFavorites ==> forall x :: x in r <==> x in items && x.id in favorites
  {
    if onlyFavorites then Filter(items, favorites) else items
  }

  /** Whatever the tab lists comes from its catalogue. */
  lemma DisplayedListsCatalogue(items: seq<Media>, favorites: set<int>, onlyFavorites: bool, id: int)
    requires Lists(Displayed(items, favorites, onlyFavorites), id)
    ensures Lists(items, id)
  {
    var r := Displayed(items, favorites, onlyFavorites);
    var k :| 0 <= k < |r| && r[k].id == id;
    assert r[k] in items;
    var j :| 0 <= j < |items| && items[j] == r[k];
  }

  /** With favourites-only on, the tab lists nothing exactly when no item
      of the catalogue is a favourite. */
  lemma EmptyDisplayExactly(items: seq<Media>, favorites: set<int>, onlyFavorites: bool)
    ensures (Displayed(items, favorites, onlyFavorites) == [] && onlyFavorites) <==>
      onlyFavorites && forall k :: 0 <= k < |items| ==> items[k].id !in favorites
  {
    var r := Displayed(items, favorites, onlyFavorites);
    if onlyFavorites && r != [] {
      assert r[0] in r;
    }
    if onlyFavorites && exists k :: 0 <= k < |items| && items[k].id in favorites {
      var k :| 0 <= k < |items| && items[k].id in favorites;
      assert items[k] in r;
    }
  }

  /** The "no favourites" message, which replaces the grid: it appears
      exactly when favourites-only is on and no item of the catalogue is a
      favourite. */
  function ShowsEmptyMessage(items: seq<Media>, favorites: set<int>, onlyFavorites: bool): (b: bool)
    ensures b <==> onlyFavorites && forall k :: 0 <= k < |items| ==> items[k].id !in favorites
  {
    EmptyDisplayExactly(items, favorites, onlyFavorites);
    Displayed(items, favorites, onlyFavorites) == [] && onlyFavorites
  }

  /** The three favourites headers begin with the word "Улюблені"; the
      memes header, as long as that word, is not it. */
  lemma FavouriteHeaders()
    ensures "Улюблені аудіо"[..8] == "Улюблені"
    ensures "Улюблені відео"[..8] == "Улюблені"
    ensures "Улюблені меми"[..8] == "Улюблені"
    ensures "Меми дня"[..8] != "Улюблені"
  {
    assert "Меми дня"[..8][0] != "Улюблені"[0];
    var favourite := "Улюблені";
    assert "Улюблені аудіо" == favourite + " аудіо";
    assert "Улюблені відео" == favourite + " відео";
    assert "Улюблені меми" == favourite + " меми";
  }

  /** The header above the list: it starts with "Улюблені" (favourite)
      exactly when favourites-only is on. */
  function Title(t: MediaType, onlyFavorites: bool): (s: string)
    ensures onlyFavorites <==> |s| >= 8 && s[..8] == "Улюблені"
  {
    FavouriteHeaders();
    if t == Audio && onlyFavorites then "Улюблені аудіо"
    else if t == Audio then "Релаксаційні аудіо"
    else if t == Video && onlyFavorites then "Улюблені відео"
    else if t == Video then "Релаксаційні відео"
    else if t == Images && onlyFavorites then "Улюблені меми"
    else
      assert t == Images && !onlyFavorites;
      "Меми дня"
  }

  /** The six combinations of tab and switch get six different headers. */
  lemma TitleDistinct(t: MediaType, f: bool, u: MediaType, g: bool)
    ensures Title(t, f) == Title(u, g) ==> t == u && f == g
  {
    var a, b := Title(t, f), Title(u, g);
    if a == b {
      assert a[0] == b[0] && a[|a| - 1] == b[|b| - 1] && |a| == |b|;
    }
  }

  // ---------------------------------------------------------------------
  // The remembered state of the screen.  The `MediaPlayer` itself, the
  // video intent and the toasts are platform calls and are not modelled;
  // their outcomes are parameters.
  // ---------------------------------------------------------------------

  class RelaxMediaScreen {
    var currentlyPlayingIndex: Option<int>
    var showOnlyFavorites: bool
    var selectedMediaType: MediaType
    var favoriteAudios: set<int>
    var favoriteVideos: set<int>
    var favoriteImages: set<int>

    /** Only an audio of the catalogue can be playing. */
    ghost predicate Valid()
      reads this
    {
      currentlyPlayingIndex.Some? ==> Lists(Catalogue(Audio), currentlyPlayingIndex.value)
    }

    function Favorites(t: MediaType): set<int>
      reads this
    {
      match t
      case Audio => favoriteAudios
      case Video => favoriteVideos
      case Images => favoriteImages
    }

    /** The items the selected tab lists. */
    function Shown(): (r: seq<Media>)
      reads this
      ensures forall x :: x in r ==> x in Catalogue(selectedMediaType)
    {
      Displayed(Catalogue(selectedMediaType), Favorites(selectedMediaType), showOnlyFavorites)
    }

    constructor ()
      ensures Valid() && currentlyPlayingIndex == None && !showOnlyFavorites
      ensures selectedMediaType == Audio
      ensures favoriteAudios == {} && favoriteVideos == {} && favoriteImages == {}
    {
      currentlyPlayingIndex := None;
      showOnlyFavorites := false;
      selectedMediaType := Audio;
      favoriteAudios := {};
      favoriteVideos := {};
      favoriteImages := {};
    }

    /** The favourites-only switch. */
    method SetShowOnlyFavorites(on: bool)
      requires Valid()
      modifies this
      ensures Valid() && showOnlyFavorites == on
      ensures currentlyPlayingIndex == old(currentlyPlayingIndex) && selectedMediaType == old(selectedMediaType)
      ensures forall t :: Favorites(t) == old(Favorites(t))
    {
      showOnlyFavorites := on;
    }

    /** A tab. */
    method SelectTab(t: MediaType)
      requires Valid()
      modifies this
      ensures Valid() && selectedMediaType == t
      ensures currentlyPlayingIndex == old(currentlyPlayingIndex) && showOnlyFavorites == old(showOnlyFavorites)
      ensures forall u :: Favorites(u) == old(Favorites(u))
    {
      selectedMediaType := t;
    }

    /** The heart on a listed item of the selected tab: only that tab's set
        changes, and only in `id`. */
    method ToggleFavorite(id: int)
      requires Valid() && Lists(Shown(), id)
      modifies this
      ensures Valid()
      ensures Favorites(old(selectedMediaType)) == Toggle(old(Favorites(selectedMediaType)), id)
      ensures forall t :: t != selectedMediaType ==> Favorites(t) == old(Favorites(t))
      ensures currentlyPlayingIndex == old(currentlyPlayingIndex) && selectedMediaType == old(selectedMediaType)
      ensures showOnlyFavorites == old(showOnlyFavorites)
    {
      match selectedMediaType
      case Audio => favoriteAudios := Toggle(favoriteAudios, id);
      case Video => favoriteVideos := Toggle(favoriteVideos, id);
      case Images => favoriteImages := Toggle(favoriteImages, id);
    }

    /** A click on a listed audio.  Clicking the one playing stops it, unless
        stopping the player throws (`stopped` false).  Clicking another one
        makes it the playing one once its player is created (`created`);
        a failed creation leaves the id as it was. */
    method ClickAudio(id: int, stopped: bool, created: bool)
      requires Valid() && selectedMediaType == Audio && Lists(Shown(), id)
      modifies this
      ensures Valid()
      ensures old(currentlyPlayingIndex) == Some(id) ==>
        currentlyPlayingIndex == if stopped then None else Some(id)
      ensures old(currentlyPlayingIndex) != Some(id) ==>
        currentlyPlayingIndex == if created then Some(id) else old(currentlyPlayingIndex)
      ensures showOnlyFavorites == old(showOnlyFavorites) && selectedMediaType == old(selectedMediaType)
      ensures forall t :: Favorites(t) == old(Favorites(t))
    {
      DisplayedListsCatalogue(Catalogue(Audio), favoriteAudios, showOnlyFavorites, id);
      if currentlyPlayingIndex == Some(id) {
        if stopped {
          currentlyPlayingIndex := None;
        }
      } else if created {
        currentlyPlayingIndex := Some(id);
      }
    }

    /** The completion listener, and equally the error listener: nothing is
        playing any more. */
    method PlaybackEnded()
      requires Valid()
      modifies this
      ensures Valid() && currentlyPlayingIndex == None
      ensures showOnlyFavorites == old(showOnlyFavorites) && selectedMediaType == old(selectedMediaType)
      ensures forall t :: Favorites(t) == old(Favorites(t))
    {
      currentlyPlayingIndex := None;
    }
  }
}
