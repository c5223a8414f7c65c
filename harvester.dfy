/**
  The harvest run: resume from the checkpoint, walk the popular-films listing
  page by page, and for every film on a page resolve its TMDb id and merge
  today's rating observation into its record file; stop when the listing is
  exhausted, the first film's viewer count is unavailable or below 1000, or
  the time budget has run out; then checkpoint the cursor.

  The network, the clock and the markup are replaced by the answers of one
  `Round` per loop iteration.
*/
module Harvester {
  import opened Wrappers
  import opened Ratings
  import opened FilmRecords
  import opened Checkpoint
  import opened RecordStore
  import opened Listing

  /** Below this many viewers on a page's first film the listing is no longer worth walking. */
  const ViewerThreshold := 1000

  /** What the detail endpoints say about one film, and the date the clock
      reads when its rating is merged. */
  datatype Detail<A> = Detail(tmdbId: Option<string>, avg: Option<A>, count: Option<nat>, today: string)

  /** The world's answers during one iteration of the page loop: whether the
      time budget has expired, the listing response, the first film's viewer
      count, and one `Detail` per listed slug. */
  datatype Round<A> = Round(
    expired: bool,
    status: int,
    items: seq<PosterItem>,
    viewers: Option<nat>,
    details: seq<Detail<A>>)

  predicate Aligned<A>(r: Round<A>)
  {
    |r.details| == |ListedSlugs(r.status, r.items)|
  }

  /** A run's answers: one per iteration, and the clock has run out by the last. */
  predicate Schedule<A>(rounds: seq<Round<A>>)
  {
    && |rounds| > 0
    && rounds[|rounds| - 1].expired
    && forall k | 0 <= k < |rounds| :: Aligned(rounds[k])
  }

  /** `if not tmdb_id`: a missing or empty id. */
  predicate HasId(id: Option<string>)
  {
    id.Some? && id.value != ""
  }

  /** The record a film is saved with: the loaded record with the new TMDb id
      and, when both the average and the count were found, today's rating
      merged in. */
  function Merged<A(==)>(rec: Record<A>, d: Detail<A>): Record<A>
  {
    var ratings := if d.avg.Some? && d.count.Some?
      then Upserted(rec.ratings, d.today, d.avg.value, d.count.value)
      else rec.ratings;
    Record(d.tmdbId, rec.slug, ratings)
  }

  /** One film of a page: delete its file when it has no TMDb id, otherwise
      load, merge and save it. */
  function SlugStep<A(==)>(hash: string -> HexDigest, docs: Docs<A>, slug: string, d: Detail<A>): Docs<A>
  {
    var path := CachePath(hash, slug);
    if !HasId(d.tmdbId) then docs - {path}
    else SavedDocs(docs, path, Merged(LoadRecord(docs, path, slug), d))
  }

  /** All films of a page, in page order. */
  function PageDocs<A(==)>(hash: string -> HexDigest, docs: Docs<A>, slugs: seq<string>, details: seq<Detail<A>>): Docs<A>
    requires |details| == |slugs|
  {
    if |slugs| == 0 then docs
    else
      var n := |slugs| - 1;
      SlugStep(hash, PageDocs(hash, docs, slugs[..n], details[..n]), slugs[n], details[n])
  }

  datatype Outcome<A> = Continue(page: int, docs: Docs<A>) | Stop(page: int, docs: Docs<A>)

  /** One iteration of the page loop, after the budget check. */
  function PageStep<A(==)>(hash: string -> HexDigest, page: int, docs: Docs<A>, r: Round<A>): (o: Outcome<A>)
    requires Aligned(r)
    ensures o.Continue? <==>
      ListedSlugs(r.status, r.items) != [] && r.viewers.Some? && r.viewers.value >= ViewerThreshold
    ensures o.Continue? ==> o.page == page + 1
    ensures o.Stop? ==> o.docs == docs
    ensures o.Stop? ==> o.page == (if ListedSlugs(r.status, r.items) != [] && r.viewers.None? then page else 1)
  {
    var slugs := ListedSlugs(r.status, r.items);
    if slugs == [] then Stop(1, docs)
    else if r.viewers.None? then Stop(page, docs)
    else if r.viewers.value < ViewerThreshold then Stop(1, docs)
    else Continue(page + 1, PageDocs(hash, docs, slugs, r.details))
  }

  lemma ScheduleTail<A>(rounds: seq<Round<A>>)
    requires Schedule(rounds) && !rounds[0].expired
    ensures Schedule(rounds[1..])
  {
    forall k | 0 <= k < |rounds| - 1 ensures Aligned(rounds[1..][k]) {
      assert rounds[1..][k] == rounds[k + 1];
    }
  }

  /** The cursor and the store the loop ends with. */
  function RunFrom<A(==)>(hash: string -> HexDigest, page: int, docs: Docs<A>, rounds: seq<Round<A>>): (int, Docs<A>)
    requires Schedule(rounds)
    decreases |rounds|
  {
    var r := rounds[0];
    if r.expired then (page, docs)
    else
      ScheduleTail(rounds);
      match PageStep(hash, page, docs, r)
      case Stop(p, d) => (p, d)
      case Continue(p, d) => RunFrom(hash, p, d, rounds[1..])
  }

  /** One iteration of the run, unfolded. */
  lemma RunFromUnfold<A>(hash: string -> HexDigest, page: int, docs: Docs<A>, rounds: seq<Round<A>>)
    requires Schedule(rounds)
    ensures rounds[0].expired ==> RunFrom(hash, page, docs, rounds) == (page, docs)
    ensures !rounds[0].expired ==>
      && Schedule(rounds[1..])
      && var o := PageStep(hash, page, docs, rounds[0]);
         RunFrom(hash, page, docs, rounds) ==
           if o.Stop? then (o.page, o.docs) else RunFrom(hash, o.page, o.docs, rounds[1..])
  {
    if !rounds[0].expired {
      ScheduleTail(rounds);
    }
  }

  /** A cursor that starts at 1 or later never drops below 1. */
  lemma {:induction false} RunKeepsCursorPositive<A>(hash: string -> HexDigest, page: int, docs: Docs<A>, rounds: seq<Round<A>>)
    requires Schedule(rounds) && page >= 1
    ensures RunFrom(hash, page, docs, rounds).0 >= 1
    decreases |rounds|
  {
    if !rounds[0].expired {
      ScheduleTail(rounds);
      var o := PageStep(hash, page, docs, rounds[0]);
      if o.Continue? {
        RunKeepsCursorPositive(hash, o.page, o.docs, rounds[1..]);
      }
    }
  }

  /** A page whose first film has fewer than 1000 viewers resets the cursor
      and ends the run without touching any record. */
  lemma UnpopularPageEndsRun<A>(hash: string -> HexDigest, page: int, docs: Docs<A>, rounds: seq<Round<A>>)
    requires Schedule(rounds) && !rounds[0].expired
    requires ListedSlugs(rounds[0].status, rounds[0].items) != []
    requires rounds[0].viewers.Some? && rounds[0].viewers.value < ViewerThreshold
    ensures RunFrom(hash, page, docs, rounds) == (1, docs)
  {
  }

  /** Every record file holds a series in date order with one entry per date. */
  ghost predicate WellDatedStore<A>(docs: Docs<A>)
  {
    forall p | p in docs && docs[p].Json? ::
      Sorted(docs[p].rec.ratings) && DistinctDates(docs[p].rec.ratings)
  }

  lemma SlugStepKeepsWellDated<A>(hash: string -> HexDigest, docs: Docs<A>, slug: string, d: Detail<A>)
    requires WellDatedStore(docs)
    ensures WellDatedStore(SlugStep(hash, docs, slug, d))
  {
    var path := CachePath(hash, slug);
    var after := SlugStep(hash, docs, slug, d);
    if HasId(d.tmdbId) {
      var rec := LoadRecord(docs, path, slug);
      assert Sorted(rec.ratings) && DistinctDates(rec.ratings);
      if d.avg.Some? && d.count.Some? {
        UpsertKeepsSeries(rec.ratings, d.today, d.avg.value, d.count.value);
      }
      var merged := Merged(rec, d);
      assert Sorted(merged.ratings) && DistinctDates(merged.ratings);
      SaveThenLoad(docs, path, merged, slug);
      forall p | p in after && after[p].Json?
        ensures Sorted(after[p].rec.ratings) && DistinctDates(after[p].rec.ratings)
      {
        if p == path {
          assert after[p] == Json(merged);
        } else {
          assert p != TempPath(path) && after[p] == docs[p];
        }
      }
    } else {
      assert after == docs - {path};
    }
  }

  lemma {:induction false} PageDocsKeepsWellDated<A>(hash: string -> HexDigest, docs: Docs<A>, slugs: seq<string>, details: seq<Detail<A>>)
    requires |details| == |slugs| && WellDatedStore(docs)
    ensures WellDatedStore(PageDocs(hash, docs, slugs, details))
  {
    if |slugs| > 0 {
      var n := |slugs| - 1;
      PageDocsKeepsWellDated(hash, docs, slugs[..n], details[..n]);
      SlugStepKeepsWellDated(hash, PageDocs(hash, docs, slugs[..n], details[..n]), slugs[n], details[n]);
    }
  }

  /** A whole run keeps every record's series sorted and one-per-date. */
  lemma {:induction false} RunKeepsWellDated<A>(hash: string -> HexDigest, page: int, docs: Docs<A>, rounds: seq<Round<A>>)
    requires Schedule(rounds) && WellDatedStore(docs)
    ensures WellDatedStore(RunFrom(hash, page, docs, rounds).1)
    decreases |rounds|
  {
    var r := rounds[0];
    if !r.expired {
      ScheduleTail(rounds);
      var slugs := ListedSlugs(r.status, r.items);
      var o := PageStep(hash, page, docs, r);
      if o.Continue? {
        PageDocsKeepsWellDated(hash, docs, slugs, r.details);
        RunKeepsWellDated(hash, o.page, o.docs, rounds[1..]);
      }
    }
  }

  /** What a film's record file holds after its turn: nothing when no TMDb id
      was found, and then no other file changes either; otherwise the merged
      record, that is the new id, today's observation when a rating was
      found, and the old series when none was. Only its own file and temporary
      file are touched. */
  lemma SlugStepEffect<A>(hash: string -> HexDigest, docs: Docs<A>, slug: string, d: Detail<A>)
    ensures var path := CachePath(hash, slug);
      var after := SlugStep(hash, docs, slug, d);
      var before := LoadRecord(docs, path, slug);
      && (!HasId(d.tmdbId) ==> path !in after && after == docs - {path})
      && (HasId(d.tmdbId) ==>
            var rec := LoadRecord(after, path, slug);
            && rec == Merged(before, d)
            && rec.tmdbId == d.tmdbId
            && (d.avg.Some? && d.count.Some? ==>
                  var k := FirstWithDate(rec.ratings, d.today);
                  k < |rec.ratings| && rec.ratings[k] == Entry(d.today, d.avg.value, d.count.value))
            && (d.avg.None? || d.count.None? ==> rec.ratings == before.ratings))
      && (forall q | q != path && q != TempPath(path) ::
            (q in after <==> q in docs) && (q in after ==> after[q] == docs[q]))
  {
    var path := CachePath(hash, slug);
    if HasId(d.tmdbId) {
      var before := LoadRecord(docs, path, slug);
      SaveThenLoad(docs, path, Merged(before, d), slug);
      if d.avg.Some? && d.count.Some? {
        UpsertRecords(before.ratings, d.today, d.avg.value, d.count.value);
      }
    }
  }

  /** A page touches only the record and temporary files of its own slugs. */
  lemma {:induction false} PageDocsFrame<A>(hash: string -> HexDigest, docs: Docs<A>, slugs: seq<string>, details: seq<Detail<A>>, q: FilePath)
    requires |details| == |slugs|
    requires forall k | 0 <= k < |slugs| :: q != CachePath(hash, slugs[k]) && q != TempPath(CachePath(hash, slugs[k]))
    ensures var after := PageDocs(hash, docs, slugs, details);
      (q in after <==> q in docs) && (q in after ==> after[q] == docs[q])
  {
    if |slugs| > 0 {
      var n := |slugs| - 1;
      PageDocsFrame(hash, docs, slugs[..n], details[..n], q);
      SlugStepEffect(hash, PageDocs(hash, docs, slugs[..n], details[..n]), slugs[n], details[n]);
    }
  }

  /** A film seen for the first time, with id and rating found, gets the file
      `{tmdb_id, slug, ratings: [today's observation]}`. */
  lemma NewFilmRecord<A>(hash: string -> HexDigest, docs: Docs<A>, slug: string, id: string, today: string, avg: A, count: nat)
    requires CachePath(hash, slug) !in docs && id != ""
    ensures SlugStep(hash, docs, slug, Detail(Some(id), Some(avg), Some(count), today))[CachePath(hash, slug)]
      == Json(Record(Some(id), slug, [Entry(today, avg, count)]))
  {
    var e := Entry(today, avg, count);
    assert [] + [e] == [e];
    assert [e][..0] == [];
    assert SortByDate([e]) == [e];
  }

  /** The harvester: the cursor, the record files and the checkpoint file. */
  class Harvester<A(==)> {
    const hash: string -> HexDigest
    var page: int
    var docs: Docs<A>
    var state: StateFile

    constructor (hash: string -> HexDigest, docs: Docs<A>, state: StateFile)
      ensures this.hash == hash && this.docs == docs && this.state == state && page == 1
    {
      this.hash, this.docs, this.state, page := hash, docs, state, 1;
    }

    /** `load_film_data`: a fresh dictionary holding the stored record, or the
        empty record when the file is missing or corrupt. */
    method LoadFilmData(path: FilePath, slug: string) returns (film: FilmData<A>)
      ensures fresh(film) && film.Snapshot() == LoadRecord(docs, path, slug)
    {
      if path in docs && docs[path].Json? {
        film := new FilmData(docs[path].rec);
      } else {
        film := new FilmData(Fresh(slug));
      }
    }

    /** `save_film_data`: write the temporary sibling, then rename it over the target. */
    method SaveFilmData(path: FilePath, film: FilmData<A>)
      modifies this`docs
      ensures docs == SavedDocs(old(docs), path, film.Snapshot())
    {
      var tmp := TempPath(path);
      docs := docs[tmp := Json(film.Snapshot())];
      var written := docs[tmp];
      docs := (docs - {tmp})[path := written];
    }

    /** `save_state(page)`. */
    method SaveState()
      modifies this`state
      ensures state == SavedState(page)
    {
      state := Text(Numbers.FormatInt(page));
    }

    /** Set the TMDb id and, when both the average and the count were found,
        merge today's rating into the loaded dictionary. */
    method MergeDetail(film: FilmData<A>, d: Detail<A>)
      modifies film`tmdbId, film`ratings
      ensures film.Snapshot() == Merged(old(film.Snapshot()), d)
    {
      film.tmdbId := d.tmdbId;
      if d.avg.Some? && d.count.Some? {
        var changed := film.AddRatingEntry(d.today, d.avg.value, d.count.value);
      }
    }

    /** The body of `for slug in slugs` for one film. */
    method ProcessSlug(slug: string, d: Detail<A>)
      modifies this`docs
      ensures docs == SlugStep(hash, old(docs), slug, d)
    {
      var path := CachePath(hash, slug);
      var film := LoadFilmData(path, slug);
      ghost var before := film.Snapshot();
      assert before == LoadRecord(old(docs), path, slug);
      if !HasId(d.tmdbId) {
        if path in docs {
          docs := docs - {path};
        }
        assert docs == old(docs) - {path};
        return;
      }
      MergeDetail(film, d);
      SaveFilmData(path, film);
    }

    /** `for slug in slugs`: every film of the page, in page order. */
    method ProcessPage(slugs: seq<string>, details: seq<Detail<A>>)
      requires |details| == |slugs|
      modifies this`docs
      ensures docs == PageDocs(hash, old(docs), slugs, details)
    {
      for i := 0 to |slugs|
        invariant docs == PageDocs(hash, old(docs), slugs[..i], details[..i])
      {
        assert slugs[..i + 1][..i] == slugs[..i] && details[..i + 1][..i] == details[..i];
        ProcessSlug(slugs[i], details[i]);
      }
      assert slugs[..|slugs|] == slugs && details[..|details|] == details;
    }

    /** `main`: resume, walk the listing until a stop condition or the end of
        the time budget, then checkpoint the cursor exactly once. */
    method Run(rounds: seq<Round<A>>)
      requires Schedule(rounds)
      modifies this
      ensures (page, docs) == RunFrom(hash, LoadState(old(state)), old(docs), rounds)
      ensures state == SavedState(page)
      ensures LoadState(state) == page
      ensures LoadState(old(state)) >= 1 ==> page >= 1
    {
      var start := LoadState(state);
      ghost var goal := RunFrom(hash, start, docs, rounds);
      page := start;
      var i := 0;
      while true
        invariant 0 <= i < |rounds| && Schedule(rounds[i..])
        invariant RunFrom(hash, page, docs, rounds[i..]) == goal
        decreases |rounds| - i
      {
        var r := rounds[i];
        ghost var rest := rounds[i..];
        assert rest[0] == r;
        RunFromUnfold(hash, page, docs, rest);
        if r.expired {
          break;
        }
        assert rest[1..] == rounds[i + 1..];
        ghost var o := PageStep(hash, page, docs, r);
        var slugs := GetFilmSlugs(r.status, r.items);
        if slugs == [] {
          page := 1;
          break;
        }
        if r.viewers.None? {
          break;
        }
        if r.viewers.value < ViewerThreshold {
          page := 1;
          break;
        }
        assert o == Continue(page + 1, PageDocs(hash, docs, slugs, r.details));
        ProcessPage(slugs, r.details);
        page := page + 1;
        i := i + 1;
      }
      assert (page, docs) == goal;
      SaveState();
      LoadAfterSave(page);
      if start >= 1 {
        RunKeepsCursorPositive(hash, start, old(docs), rounds);
      }
    }
  }
}
