/**
  The page cursor checkpoint `state.txt`: loaded as the integer its trimmed
  text spells, 1 when the file is absent, unreadable or does not parse;
  saved as the decimal text of the cursor.
*/
module Checkpoint {
  import opened Wrappers
  import opened Numbers

  /** What the filesystem holds at `state.txt`. */
  datatype StateFile = Absent | Unreadable | Text(content: string)

  /** `load_state()`. */
  function LoadState(f: StateFile): int
  {
    match f
    case Text(t) =>
      (match ParseInt(Strip(t))
       case Some(page) => page
       case None => 1)
    case _ => 1
  }

  /** `save_state(page)`: the file afterwards holds `str(page)`. */
  function SavedState(page: int): (f: StateFile)
    ensures f.Text? && |f.content| > 0
  {
    Text(FormatInt(page))
  }

  /** Loading after saving gives the saved page back, whatever its sign. */
  lemma LoadAfterSave(page: int)
    ensures LoadState(SavedState(page)) == page
  {
    var t := FormatInt(page);
    assert !IsSpace(t[0]) && !IsSpace(t[|t| - 1]);
    StripSurrounding([], t, []);
    assert [] + t + [] == t;
    ParseFormatRoundTrip(page);
  }

  /** Whitespace around the number, such as a trailing newline, is ignored. */
  lemma LoadIgnoresSurroundingSpace(pre: string, page: int, post: string)
    requires AllSpace(pre) && AllSpace(post)
    ensures LoadState(Text(pre + FormatInt(page) + post)) == page
  {
    var t := FormatInt(page);
    assert !IsSpace(t[0]) && !IsSpace(t[|t| - 1]);
    StripSurrounding(pre, t, post);
    ParseFormatRoundTrip(page);
  }

  /** A missing or unreadable file, or text with no digit in it, starts from page 1. */
  lemma LoadDefaultsToFirstPage(f: StateFile)
    requires f.Text? ==> forall i | 0 <= i < |f.content| :: !IsDigit(f.content[i])
    ensures LoadState(f) == 1
  {
    if f.Text? {
      var t := f.content;
      StripIsSlice(t);
      var i, j :| 0 <= i <= j <= |t| && Strip(t) == t[i..j];
      forall k | 0 <= k < |Strip(t)| ensures !IsDigit(Strip(t)[k]) {
        assert Strip(t)[k] == t[i + k];
      }
      ParseIntNeedsDigit(Strip(t));
    }
  }
}
