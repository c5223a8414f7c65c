# Letterboxd popularity harvester, modelled in Dafny

This project models the harvest loop of `scraper.py`. The scraper walks
Letterboxd's "popular films" listing one page at a time. For each film on a
page it looks up the TMDb id, then merges today's weighted average rating and
rating count into a per-film JSON record under `docs/`. It stops when the
listing runs out, when the first film of a page has fewer than 1000 viewers,
when that viewer count cannot be read, or when the 50-minute budget has
passed. It saves the page cursor to `state.txt` so the next run can resume.

Modules, one per concern of the script:

- `Ratings` (`ratings.dfy`): the rating time series. Dates are ordered the
  way Python orders strings, and `list.sort` by date is a stable sort. It
  also holds `Upserted`, the list `add_rating_entry` leaves behind.
- `FilmRecords` (`film_records.dfy`): the record value `{tmdb_id, slug, ratings}`.
  It also holds the `FilmData` class, the live dictionary whose
  `AddRatingEntry` runs the search loop and updates or appends in place.
- `Numbers` (`numbers.dfy`): `int()` for a sign followed by digits, `str()`,
  `strip()`, and the comma-grouped counts (`"10,532"`) with their conversion.
- `Checkpoint` (`checkpoint.dfy`): `load_state` and `save_state`.
- `RecordStore` (`record_store.dfy`): the sharded path, the temporary sibling
  path, and the record files as a map from path to content.
  `load_film_data` and the write-then-rename of `save_film_data` are defined
  over that map.
- `Listing` (`listing.dfy`): the slug filter over a page's poster items.
- `Harvester` (`harvester.dfy`): `main` as a class that holds the cursor, the
  record files and the checkpoint file. It is specified by the pure functions
  `SlugStep`, `PageDocs`, `PageStep` and `RunFrom`, and lemmas about the
  whole run sit beside it.

Inputs from outside the program are parameters. Network answers, the clock's
verdict on the time budget and today's date arrive as one `Round` per loop
iteration. The MD5 hex digest is a parameter of type `string -> HexDigest`.
The average rating is a type parameter that is only compared for equality.

Behaviour of the code worth noting:
- The TMDb id is fetched again for every film. There is no cache-first skip.
- A missing id deletes any existing record, not only that of a first-time film.
- There are no retries, no 403 backoff and no random jitter.
- A checkpoint holding `0` or a negative number is used as it is. It is not
  clamped to 1.

## Model

| member | source | states |
|---|---|---|
| `Ratings.FirstWithDate` | scraper.py:142-143 | The index of the first entry dated `d`: no earlier entry has that date. It equals the length exactly when no entry has it. |
| `Ratings.UpsertUpdates` | scraper.py:142-148 | When some entry is dated today, the length and every date stay the same. The first such entry holds the new avg/count and all other entries are unchanged. |
| `Ratings.UpsertAppends` | scraper.py:150-157 | When no entry is dated today, the result holds the old entries plus `{today, avg, count}` (as a multiset) and is sorted by date. Pairwise-distinct dates stay distinct. |
| `Ratings.UpsertRecords` | scraper.py:142-157 | On either path, the first entry dated today afterwards is exactly `{today, avg, count}`. |
| `Ratings.UpsertChangesIff` | scraper.py:145-148 | The list changes exactly when the call appends, or when the old avg or count differs from the new one. This is the meaning of the returned flag. |
| `Ratings.UpsertIdempotent` | scraper.py:137-157 | Repeating the same call leaves the list as it is. |
| `Ratings.UpsertKeepsSeries` | scraper.py:142-157 | A date-sorted list stays sorted, and a list with one entry per date keeps one entry per date, on both paths. |
| `Ratings.SortByDateSorted` | scraper.py:156 | The stable sort by date yields a list in ascending date order. |
| `Ratings.SortByDatePermutes` | scraper.py:156 | Sorting is a permutation: the multiset of entries is unchanged. |
| `Ratings.SortByDateOfSorted` | scraper.py:156 | Sorting a list already in date order returns it unchanged. |
| `Ratings.SortByDateKeepsDistinct` | scraper.py:156 | Sorting keeps dates pairwise distinct. |
| `Ratings.BeforeTotal` | scraper.py:156 | String order on dates is total: of two different dates, one sorts first. |
| `Ratings.BeforeTransitive` | scraper.py:156 | String order on dates is transitive. |
| `FilmRecords.FilmData.AddRatingEntry` | scraper.py:137-157 | The in-place loop leaves `ratings == Upserted(old ratings)`. It returns true exactly when the list changed. Sortedness and one-entry-per-date are kept, and the first entry dated today is the new observation. |
| `Numbers.ParseFormatRoundTrip` | scraper.py:38-48 | `int(str(n)) == n` for every integer `n`, negative ones included. |
| `Numbers.ParseIntNeedsDigit` | scraper.py:38 | Text containing no decimal digit does not parse. |
| `Numbers.StripSurrounding` | scraper.py:38 | `strip()` removes surrounding whitespace and nothing else. |
| `Numbers.ParseCountRoundTrip` | scraper.py:87-88 | Converting the comma-grouped text of `n` (`f"{n:,}"`) with commas removed gives back `n`. |
| `Numbers.ParseCountDefined` | scraper.py:104-107 | A `[\d,]+` match converts exactly when it holds a digit. The result is never negative. |
| `Checkpoint.LoadAfterSave` | scraper.py:34-48 | Loading after `save_state(p)` returns `p`, with no clamping. |
| `Checkpoint.LoadIgnoresSurroundingSpace` | scraper.py:36-40 | Whitespace around the saved number, such as a trailing newline, does not change the loaded page. |
| `Checkpoint.LoadDefaultsToFirstPage` | scraper.py:34-43 | A missing file, an unreadable file, or text without a digit loads as page 1. |
| `RecordStore.LoadRecord` | scraper.py:113-126 | A readable record file loads as its record. A missing one, or one rejected with a JSON syntax error or an I/O error, loads as `{tmdb_id: None, slug, ratings: []}`. |
| `RecordStore.CachePathShape` | scraper.py:25-31 | The rendered path is `docs/`, then the first two hex digits of the slug's hash, then `/`, the slug and `.json`. |
| `RecordStore.CachePathInjective` | scraper.py:25-31 | Two slugs whose rendered record paths are equal are the same slug. |
| `RecordStore.TempPathSibling` | scraper.py:131 | The temporary path is in the target's directory with the same stem. It ends in `.tmp` and differs from the target. |
| `RecordStore.SaveThenLoad` | scraper.py:129-134 | After a save, loading the target gives exactly the saved record. The temporary file is gone and every other file is untouched. |
| `Listing.SlugsOf` | scraper.py:61-68 | The slugs are never more than the items, and none is empty. |
| `Listing.SlugsOfConcat` | scraper.py:62-67 | The filter keeps item order: the slugs of `a + b` are the slugs of `a` followed by those of `b`. |
| `Listing.SlugsOfOne` | scraper.py:63-67 | An item yields its slug exactly when it has a react component with a non-empty `data-item-slug`. |
| `Listing.GetFilmSlugs` | scraper.py:51-68 | The append loop returns the filtered slugs. A non-200 status returns the empty list. |
| `Harvester.PageStep` | scraper.py:173-194 | A page continues exactly when its slug list is non-empty and the first film has at least 1000 viewers. The cursor then rises by 1. A stop leaves every record untouched and resets the cursor to 1, except when the viewer count was unavailable, which keeps it. |
| `Harvester.UnpopularPageEndsRun` | scraper.py:191-194 | A first page below 1000 viewers ends the run with cursor 1 and an untouched store. |
| `Harvester.RunKeepsCursorPositive` | scraper.py:164-245 | If the loaded cursor is at least 1, the final cursor is at least 1. |
| `Harvester.RunKeepsWellDated` | scraper.py:197-242 | If every record file holds a date-sorted series with one entry per date, this still holds after the whole run. |
| `Harvester.SlugStepEffect` | scraper.py:197-226 | With no TMDb id the film's file is removed (a no-op when absent) and nothing else changes, so nothing is saved. Otherwise the file loads as the merged record: the new id, and either today's observation as the first entry for today (other dates as the upsert leaves them) or, with no rating, the old series. Only the film's own file and its temporary file change. |
| `Harvester.PageDocsFrame` | scraper.py:197-240 | A page changes no file other than the record and temporary files of its own slugs. |
| `Harvester.NewFilmRecord` | scraper.py:199-226 | A film with no file, an id and a rating gets `{tmdb_id: id, slug, ratings: [{today, avg, count}]}`. |
| `Harvester.Harvester.LoadFilmData` | scraper.py:113-126 | Returns a fresh dictionary holding `LoadRecord` of the store. |
| `Harvester.Harvester.SaveFilmData` | scraper.py:129-134 | Writes the temporary file, then renames it onto the target. The new store is `SavedDocs` of the old one. |
| `Harvester.Harvester.SaveState` | scraper.py:46-48 | The checkpoint file afterwards holds `str(page)`. |
| `Harvester.Harvester.MergeDetail` | scraper.py:218-223 | The dictionary afterwards is `Merged` of the loaded one: the new TMDb id, and today's rating upserted only when both the average and the count were found. |
| `Harvester.Harvester.ProcessSlug` | scraper.py:198-240 | One film's load, id check, delete or merge, and save leaves the store at `SlugStep` of the old one. |
| `Harvester.Harvester.ProcessPage` | scraper.py:197-240 | The per-slug loop leaves the store at `PageDocs` of the old one. |
| `Harvester.Harvester.Run` | scraper.py:160-245 | The final cursor and store are `RunFrom` of the loaded cursor and the old store. When the run reaches its exit, the checkpoint is written once and reloads as the final cursor. A loaded cursor of at least 1 ends at least 1. |

## Left out

- HTTP access through the `cloudscraper` session, and markup parsing with
  BeautifulSoup and regular expressions, are foreign code. Their results
  arrive in `Round` and `Detail`: a status and poster items per listing, an
  optional viewer count, an optional TMDb id, an optional average and an
  optional count.
- `float()` parsing of the average is not modelled. The average is an opaque
  type compared only for equality, as the source compares it.
- MD5 is a parameter. Only its 32-hex-digit shape is used.
- The clock is not read. `time.time()` becomes the `expired` flag of each
  `Round`, and `date.today()` becomes the `today` of each `Detail`.
  `time.sleep` pacing and all printing are omitted.
- Harvester.Harvester.Run: requires the last `Round` to report the budget
  as expired. This stands for the wall clock eventually passing
  `MAX_RUNTIME_SECS`, which is the only way the source's `while True` ends
  without a stop condition.
- Harvester.Harvester.Run: every `Round` and `Detail` of the model carries
  an answer, so the model's run always reaches the checkpoint write. In the
  source none of the four `session.get` calls (scraper.py:53, 73, 83, 94)
  is inside a `try`, and neither is `main` (scraper.py:160-245). A
  connection error, a time-out or a challenge the session cannot pass ends
  the run at once. So does an exception from a record write, rename or
  unlink (scraper.py:131-134, 207). Records saved earlier in that run are
  kept, but `save_state(page)` at scraper.py:245 is never reached, so
  `state.txt` keeps the cursor the run started from. These crash paths are
  not modelled.
- The driver takes viewer counts and rating counts already converted.
  `Numbers.ParseCount` models the conversion on its own. It returns `None`
  for a match made only of commas, where `int("")` would raise an uncaught
  `ValueError` and end the run before `save_state`. That crash path is not
  in the driver.
- Python's `int()` also accepts underscores and non-ASCII digits, and
  `strip()` also removes non-ASCII whitespace (such as U+0085 and U+00A0).
  Only an optional sign with ASCII digits, and the ASCII whitespace that
  `str.isspace()` accepts (tab, newline, U+000B, U+000C, carriage return,
  U+001C to U+001F and space), are modelled.
- A record file whose bytes do not decode in the locale's text encoding
  raises `UnicodeDecodeError` in `load_film_data`, which is not caught
  (scraper.py:119 catches only JSON syntax errors and I/O errors). The run
  then ends at scraper.py:199 without `save_state`. This crash path is not
  modelled: `Stored.Corrupt` stands only for a file rejected with a JSON
  syntax error or an I/O error. The program's own `json.dump` writes ASCII,
  so only outside damage reaches this path.
- A record file is either a well-formed record or corrupt. A JSON document
  that parses but lacks `ratings` or `tmdb_id` (a `KeyError` in `main`) is
  not modelled. JSON serialisation itself is not modelled.
- `pathlib` normalisation of slugs that contain `/`, `.` or `..` components
  is not modelled. The path is kept as directory, stem and suffix.
- Directory creation (`mkdir`) and crash safety under a kill between the
  write and the rename are not modelled. Save is the two map updates.
- Ratings.SortByDate: modelled as a stable insertion sort. The model
  proves it sorted, a permutation and the identity on sorted input. It does
  not prove that it equals Python's timsort; stable sorts agree on every
  input, but that argument is not mechanised.
