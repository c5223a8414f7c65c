/**
  One film's record: the JSON document `{tmdb_id, slug, ratings}` as a value
  (what a record file holds) and as the live dictionary the harvest loop
  loads, edits in place and saves.
*/
module FilmRecords {
  import opened Wrappers
  import opened Ratings

  datatype Record<A> = Record(tmdbId: Option<string>, slug: string, ratings: seq<Entry<A>>)

  /** The record of a film never harvested: no TMDb id, no observations. */
  function Fresh<A>(slug: string): Record<A>
  {
    Record(None, slug, [])
  }

  /** The in-memory dictionary `film_data`. */
  class FilmData<A(==)> {
    var tmdbId: Option<string>
    var slug: string
    var ratings: seq<Entry<A>>

    constructor (rec: Record<A>)
      ensures Snapshot() == rec
    {
      tmdbId, slug, ratings := rec.tmdbId, rec.slug, rec.ratings;
    }

    /** The document `json.dump` would write for this dictionary. */
    function Snapshot(): Record<A>
      reads this
    {
      Record(tmdbId, slug, ratings)
    }

    /**
      `add_rating_entry`: record today's average and count, updating the
      entry already dated `today` or appending a new one and re-sorting.
      The result is true exactly when the series changed.
    */
    method AddRatingEntry(today: string, avg: A, count: int) returns (changed: bool)
      modifies this`ratings
      ensures ratings == Upserted(old(ratings), today, avg, count)
      ensures changed <==> ratings != old(ratings)
      ensures Sorted(old(ratings)) ==> Sorted(ratings)
      ensures DistinctDates(old(ratings)) ==> DistinctDates(ratings)
      ensures var k := FirstWithDate(ratings, today);
        k < |ratings| && ratings[k] == Entry(today, avg, count)
    {
      UpsertKeepsSeries(ratings, today, avg, count);
      UpsertRecords(ratings, today, avg, count);
      UpsertChangesIff(ratings, today, avg, count);
      var i := 0;
      while i < |ratings|
        invariant 0 <= i <= |ratings|
        invariant ratings == old(ratings)
        invariant forall j | 0 <= j < i :: ratings[j].date != today
      {
        if ratings[i].date == today {
          var entry := ratings[i];
          changed := entry.avg != avg || entry.count != count;
          ratings := ratings[i := entry.(avg := avg, count := count)];
          return;
        }
        i := i + 1;
      }
      ratings := ratings + [Entry(today, avg, count)];
      ratings := SortByDate(ratings);
      changed := true;
    }
  }
}
