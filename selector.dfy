/** The game menu (src/components/GameSelector.tsx): the catalogue shown six games per
    page, a highlighted entry that moves cyclically within the page, pages that move
    cyclically, and selection of the highlighted game when there is a credit. */
module Selector {
  import opened Common

  datatype GameInfo = GameInfo(id: int, title: string)

  const GamesPerPage: int := 6

  /** The catalogue of src/data/games.ts as far as the menu needs it: 21 games with the
      ids 1 to 21, in that order. */
  function CatalogueIds(): (ids: seq<int>)
    ensures |ids| == 21 && forall k :: 0 <= k < 21 ==> ids[k] == k + 1
  {
    seq(21, k => k + 1)
  }

  /** How `Array.prototype.slice` reads an index: a negative one counts from the end, and
      both are clamped to [0, n]. */
  function SliceIndex(i: int, n: nat): (r: nat)
    ensures r <= n
    ensures 0 <= i <= n ==> r == i
    ensures i > n ==> r == n
    ensures i < 0 ==> r == Max(n + i, 0)
  {
    if i < 0 then (if n + i > 0 then n + i else 0) else if i > n then n else i
  }

  function Slice<T>(s: seq<T>, start: int, end: int): (r: seq<T>)
    ensures |r| <= |s|
    ensures 0 <= start <= end <= |s| ==> r == s[start..end]
  {
    var a, b := SliceIndex(start, |s|), SliceIndex(end, |s|);
    if a < b then s[a..b] else []
  }

  /** `games.slice(currentPage * gamesPerPage, (currentPage + 1) * gamesPerPage)` */
  function CurrentGames<T>(games: seq<T>, page: int): (r: seq<T>)
    ensures |r| <= GamesPerPage
    ensures page >= 0 ==> r == games[Min(page * GamesPerPage, |games|)..Min((page + 1) * GamesPerPage, |games|)]
  {
    Slice(games, page * GamesPerPage, (page + 1) * GamesPerPage)
  }

  /** `Math.ceil(games.length / gamesPerPage)` */
  function TotalPages(n: nat): (t: nat)
    ensures (t - 1) * GamesPerPage < n <= t * GamesPerPage || (n == 0 && t == 0)
  {
    (n + GamesPerPage - 1) / GamesPerPage
  }

  /** Every game is on exactly one page: game k is entry k % 6 of page k / 6, that page is
      one of the first TotalPages pages, and each of those pages holds between 1 and 6 games. */
  lemma PagesPartition<T>(games: seq<T>, k: nat)
    requires k < |games|
    ensures k / GamesPerPage < TotalPages(|games|)
    ensures var page := CurrentGames(games, k / GamesPerPage);
            k % GamesPerPage < |page| && page[k % GamesPerPage] == games[k]
  {
    var p := k / GamesPerPage;
    assert p * GamesPerPage <= k < (p + 1) * GamesPerPage;
  }

  lemma PagesNonEmpty<T>(games: seq<T>, p: int)
    requires 0 <= p < TotalPages(|games|)
    ensures 1 <= |CurrentGames(games, p)| <= GamesPerPage
  {
    assert p * GamesPerPage < |games|;
  }

  /** The shipped catalogue fills four pages, the last with three games. */
  lemma CataloguePages()
    ensures TotalPages(|CatalogueIds()|) == 4
    ensures |CurrentGames(CatalogueIds(), 3)| == 3
    ensures CurrentGames(CatalogueIds(), 4) == []
  {
  }

  /** The `prev > 0 ? prev - 1 : count - 1` step of handleUp and handlePageUp. */
  function CyclePrev(i: int, count: int): (r: int)
    ensures 0 <= i < count ==> 0 <= r < count
    ensures i > 0 ==> r == i - 1
    ensures i <= 0 ==> r == count - 1
  {
    if i > 0 then i - 1 else count - 1
  }

  /** The `prev < count - 1 ? prev + 1 : 0` step of handleDown and handlePageDown. */
  function CycleNext(i: int, count: int): (r: int)
    ensures 0 <= i < count ==> 0 <= r < count
    ensures i < count - 1 ==> r == i + 1
    ensures i >= count - 1 ==> r == 0
  {
    if i < count - 1 then i + 1 else 0
  }

  /** Each step undoes the other within [0, count), and count steps in one direction
      come back to the start. */
  lemma CycleInverse(i: int, count: int)
    requires 0 <= i < count
    ensures CycleNext(CyclePrev(i, count), count) == i
    ensures CyclePrev(CycleNext(i, count), count) == i
  {
  }

  function CycleNextN(i: int, count: int, steps: nat): int
  {
    if steps == 0 then i else CycleNext(CycleNextN(i, count, steps - 1), count)
  }

  lemma {:induction false} CycleNextAdd(i: int, count: int, a: nat, b: nat)
    ensures CycleNextN(i, count, a + b) == CycleNextN(CycleNextN(i, count, a), count, b)
  {
    if b > 0 {
      CycleNextAdd(i, count, a, b - 1);
    }
  }

  /** Below the end of the range each step adds one. */
  lemma {:induction false} CycleNextClimbs(i: int, count: int, steps: nat)
    requires 0 <= i && i + steps < count
    ensures CycleNextN(i, count, steps) == i + steps
  {
    if steps > 0 {
      CycleNextClimbs(i, count, steps - 1);
    }
  }

  /** Pressing Down as many times as there are entries comes back to the same entry. */
  lemma CycleNextFullTurn(i: int, count: int)
    requires 0 <= i < count
    ensures CycleNextN(i, count, count) == i
  {
    CycleNextClimbs(i, count, count - 1 - i);
    assert CycleNextN(i, count, count - i) == 0;
    CycleNextAdd(i, count, count - i, i);
    if i > 0 {
      CycleNextClimbs(0, count, i);
    }
  }

  /** handleGameSelect: the id of the highlighted game, when the highlight is on an entry
      of the page and there is at least one credit. */
  function Chosen(games: seq<GameInfo>, page: int, index: int, credits: int): (r: Option<int>)
    ensures r.Some? <==> 0 <= index < |CurrentGames(games, page)| && credits > 0
    ensures r.Some? ==> r.value == CurrentGames(games, page)[index].id
  {
    var current := CurrentGames(games, page);
    if 0 <= index < |current| && credits > 0 then Some(current[index].id) else None
  }

  class Menu {
    var selectedIndex: int
    var currentPage: int

    /** The highlight is on an entry of a page that exists, whenever there are games. */
    predicate Valid(games: seq<GameInfo>)
      reads this
    {
      |games| > 0 ==> 0 <= currentPage < TotalPages(|games|) && 0 <= selectedIndex < |CurrentGames(games, currentPage)|
    }

    constructor (games: seq<GameInfo>)
      ensures Valid(games) && selectedIndex == 0 && currentPage == 0
    {
      selectedIndex := 0;
      currentPage := 0;
      if |games| > 0 {
        PagesNonEmpty(games, 0);
      }
    }

    /** The keydown listener. Up and Down cycle the highlight through the page, Left and
        Right cycle the pages and put the highlight back on the first entry, Space and
        Enter report the chosen game (the onSelectGame call), other keys do nothing. */
    method Key(key: string, games: seq<GameInfo>, credits: int) returns (chosen: Option<int>)
      requires Valid(games)
      modifies this
      ensures Valid(games)
      ensures var len := |CurrentGames(games, old(currentPage))|;
              var pages := TotalPages(|games|);
              (key == ArrowUp ==> selectedIndex == CyclePrev(old(selectedIndex), len) && currentPage == old(currentPage)) &&
              (key == ArrowDown ==> selectedIndex == CycleNext(old(selectedIndex), len) && currentPage == old(currentPage)) &&
              (key == ArrowLeft ==> currentPage == CyclePrev(old(currentPage), pages) && selectedIndex == 0) &&
              (key == ArrowRight ==> currentPage == CycleNext(old(currentPage), pages) && selectedIndex == 0) &&
              (key !in {ArrowUp, ArrowDown, ArrowLeft, ArrowRight} ==>
                 selectedIndex == old(selectedIndex) && currentPage == old(currentPage))
      ensures chosen == if key == Space || key == Enter then Chosen(games, old(currentPage), old(selectedIndex), credits) else None
    {
      var current := CurrentGames(games, currentPage);
      var pages := TotalPages(|games|);
      chosen := None;
      if key == ArrowUp {
        selectedIndex := CyclePrev(selectedIndex, |current|);
      } else if key == ArrowDown {
        selectedIndex := CycleNext(selectedIndex, |current|);
      } else if key == ArrowLeft {
        currentPage := CyclePrev(currentPage, pages);
        selectedIndex := 0;
        if |games| > 0 { PagesNonEmpty(games, currentPage); }
      } else if key == ArrowRight {
        currentPage := CycleNext(currentPage, pages);
        selectedIndex := 0;
        if |games| > 0 { PagesNonEmpty(games, currentPage); }
      } else if key == Space || key == Enter {
        chosen := Chosen(games, currentPage, selectedIndex, credits);
      }
    }

    /** A click on entry `index` of the page highlights it. */
    method Click(index: int, games: seq<GameInfo>)
      requires Valid(games) && 0 <= index < |CurrentGames(games, currentPage)|
      modifies this
      ensures Valid(games) && selectedIndex == index && currentPage == old(currentPage)
    {
      selectedIndex := index;
    }
  }
}
