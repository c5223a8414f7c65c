/**
  The slug list of one page of the popular-films listing: the slugs of the
  poster items that carry a react component with a non-empty
  `data-item-slug`, in page order. Markup parsing is abstracted to the item
  shape below.
*/
module Listing {
  import opened Wrappers

  /** A `li.posteritem`: without a `div.react-component`, or with one whose
      `data-item-slug` attribute may be missing. */
  datatype PosterItem = Bare | React(slugAttr: Option<string>)

  /** The slug an item contributes, if any. */
  function SlugOf(item: PosterItem): Option<string>
  {
    if item.React? && item.slugAttr.Some? && item.slugAttr.value != "" then item.slugAttr else None
  }

  /** The slugs of `items`, in order. */
  function SlugsOf(items: seq<PosterItem>): (slugs: seq<string>)
    ensures |slugs| <= |items|
    ensures forall k | 0 <= k < |slugs| :: slugs[k] != ""
  {
    if |items| == 0 then []
    else
      var last := items[|items| - 1];
      SlugsOf(items[..|items| - 1]) + (if SlugOf(last).Some? then [SlugOf(last).value] else [])
  }

  /** What a listing response yields: nothing unless the status is 200. */
  function ListedSlugs(status: int, items: seq<PosterItem>): seq<string>
  {
    if status != 200 then [] else SlugsOf(items)
  }

  /** Listing two runs of items one after the other lists their slugs one
      after the other: the filter keeps page order. */
  lemma {:induction false} SlugsOfConcat(a: seq<PosterItem>, b: seq<PosterItem>)
    ensures SlugsOf(a + b) == SlugsOf(a) + SlugsOf(b)
  {
    if |b| > 0 {
      var b' := b[..|b| - 1];
      assert (a + b)[..|a + b| - 1] == a + b';
      SlugsOfConcat(a, b');
    } else {
      assert a + b == a;
    }
  }

  /** A single item lists its slug exactly when it has a non-empty one. */
  lemma SlugsOfOne(item: PosterItem)
    ensures SlugsOf([item]) == if SlugOf(item).Some? then [SlugOf(item).value] else []
  {
    assert [item][..0] == [];
  }

  /** `get_film_slugs_from_ajax_page`: filter the poster items of a fetched page. */
  method GetFilmSlugs(status: int, items: seq<PosterItem>) returns (slugs: seq<string>)
    ensures slugs == ListedSlugs(status, items)
    ensures status != 200 ==> slugs == []
    ensures |slugs| <= |items|
  {
    if status != 200 {
      return [];
    }
    slugs := [];
    for i := 0 to |items|
      invariant slugs == SlugsOf(items[..i])
    {
      var item := items[i];
      if item.React? {
        var slug := item.slugAttr;
        if slug.Some? && slug.value != "" {
          slugs := slugs + [slug.value];
        }
      }
      assert items[..i + 1][..i] == items[..i];
    }
    assert items[..|items|] == items;
  }
}
