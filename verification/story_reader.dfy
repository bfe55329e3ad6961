/**
 The story reader modal (script.js:366-488): a fixed table of paginated stories and
 a current page moved by the previous/next buttons. Page contents (scene glyphs and
 text) are rendering only, so a story is modelled by its title and page count.
 */
module StoryReader {
  import opened Wrappers

  datatype Story = Story(title: string, pageCount: nat)

  /** The hardcoded `stories` table, keyed by the buttons' `data-story` attribute. */
  const Stories: map<string, Story> := map[
    "adventure" := Story("The Little Explorer", 3),
    "animals" := Story("Animal Friends", 3),
    "colors" := Story("Rainbow Magic", 3)
  ]

  /**
   `story` is `currentStory` (None for the initial `null` and for the `undefined` an
   unknown key leaves behind), `page` is `currentPage`, `shown` is whether the modal
   is displayed.
   */
  datatype Reader = Reader(story: Option<Story>, page: nat, shown: bool)

  const Initial: Reader := Reader(None, 0, false)

  /** The current page stays on an existing page of the open story. */
  ghost predicate Valid(r: Reader) {
    match r.story
    case None => r.page == 0
    case Some(s) => r.page < s.pageCount
  }

  /** `openStory`: look the key up and reset the page to the first page. An
      unknown key leaves `currentStory` undefined and the modal as it was, because
      the title lookup throws before the modal is displayed. */
  function Open(r: Reader, key: string): (r': Reader)
    ensures r'.page == 0 && Valid(r')
    ensures r'.story.Some? <==> key in Stories
    ensures key in Stories ==> r'.story == Some(Stories[key]) && r'.shown
    ensures key !in Stories ==> r'.shown == r.shown
  {
    if key in Stories then Reader(Some(Stories[key]), 0, true)
    else Reader(None, 0, r.shown)
  }

  /** Whether the "next" button is enabled, as `updateStoryPage` sets its `disabled` flag. */
  predicate NextEnabled(r: Reader) {
    r.story.Some? && r.page != r.story.value.pageCount - 1
  }

  /** Whether the "previous" button is enabled. */
  predicate PrevEnabled(r: Reader) {
    r.page != 0
  }

  /** The next-page handler. With no story loaded the length lookup throws before
      anything changes. */
  function Next(r: Reader): (r': Reader)
    ensures Valid(r) ==> Valid(r')
    ensures r' == r || r'.page == r.page + 1
    ensures r' != r <==> r.story.Some? && r.page + 1 < r.story.value.pageCount
    ensures r'.story == r.story && r'.shown == r.shown
  {
    match r.story
    case None => r
    case Some(s) => if r.page < s.pageCount - 1 then r.(page := r.page + 1) else r
  }

  /** The previous-page handler: moves back unless on the first page. */
  function Prev(r: Reader): (r': Reader)
    ensures Valid(r) ==> Valid(r')
    ensures r' != r <==> r.page > 0
    ensures r' != r ==> r'.page + 1 == r.page
    ensures r'.story == r.story && r'.shown == r.shown
  {
    if r.page > 0 then r.(page := r.page - 1) else r
  }

  /** `closeStoryModal` only hides the modal; the story and page are kept. */
  function Close(r: Reader): (r': Reader)
    ensures !r'.shown
    ensures r'.story == r.story && r'.page == r.page
  {
    r.(shown := false)
  }

  /** On an open story, each button's handler moves exactly when the button is enabled. */
  lemma ButtonsMatchHandlers(r: Reader)
    requires Valid(r) && r.story.Some?
    ensures Next(r) != r <==> NextEnabled(r)
    ensures Prev(r) != r <==> PrevEnabled(r)
  {
  }

  /** Next and previous undo each other wherever they move. */
  lemma NextPrevRoundTrip(r: Reader)
    requires Valid(r)
    ensures NextEnabled(r) ==> Prev(Next(r)) == r
    ensures PrevEnabled(r) && r.story.Some? ==> Next(Prev(r)) == r
  {
  }

  /** Pressing "next" `k` times in a row. */
  function NextTimes(r: Reader, k: nat): Reader
  {
    if k == 0 then r else Next(NextTimes(r, k - 1))
  }

  function Min(a: nat, b: nat): nat { if a <= b then a else b }

  /** After opening a known story, `k` presses of "next" show page `min(k, pages - 1)`:
      the reader never runs past the last page and never skips one. */
  lemma {:induction false} OpenThenNext(r: Reader, key: string, k: nat)
    requires key in Stories
    ensures NextTimes(Open(r, key), k).page == Min(k, Stories[key].pageCount - 1)
    ensures Valid(NextTimes(Open(r, key), k))
    ensures NextTimes(Open(r, key), k).story == Some(Stories[key])
  {
    if k > 0 {
      OpenThenNext(r, key, k - 1);
    }
  }
}
