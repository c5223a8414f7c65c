/**
  The rating time series of one film: a list of dated observations
  `{date, avg, count}`, kept in ascending date order, at most one per date.
  Dates are the ISO text of a calendar day and are ordered the way Python
  orders strings: lexicographically by code point, a proper prefix first.
  The average is opaque (type parameter `A`) and only compared for equality.
*/
module Ratings {

  datatype Entry<A> = Entry(date: string, avg: A, count: int)

  /** Python's `a < b` on strings. */
  predicate Before(a: string, b: string)
  {
    |b| > 0 && (|a| == 0 || a[0] < b[0] || (a[0] == b[0] && Before(a[1..], b[1..])))
  }

  lemma {:induction false} BeforeIrreflexive(a: string)
    ensures !Before(a, a)
  {
    if |a| > 0 {
      BeforeIrreflexive(a[1..]);
    }
  }

  lemma {:induction false} BeforeTransitive(a: string, b: string, c: string)
    requires Before(a, b) && Before(b, c)
    ensures Before(a, c)
  {
    if |a| > 0 && a[0] == b[0] && b[0] == c[0] {
      BeforeTransitive(a[1..], b[1..], c[1..]);
    }
  }

  lemma {:induction false} BeforeTotal(a: string, b: string)
    requires a != b
    ensures Before(a, b) || Before(b, a)
  {
    if |a| > 0 && |b| > 0 && a[0] == b[0] {
      assert a == [a[0]] + a[1..] && b == [b[0]] + b[1..];
      BeforeTotal(a[1..], b[1..]);
    }
  }

  lemma BeforeAsymmetric(a: string, b: string)
    requires Before(a, b)
    ensures !Before(b, a)
  {
    if Before(b, a) {
      BeforeTransitive(a, b, a);
      BeforeIrreflexive(a);
    }
  }

  /** "Not after" is transitive: the order Python's sort arranges keys in. */
  lemma NotBeforeTransitive(a: string, b: string, c: string)
    requires !Before(b, a) && !Before(c, b)
    ensures !Before(c, a)
  {
    if Before(c, a) {
      if a == b {
      } else if Before(a, b) {
        BeforeTransitive(c, a, b);
      } else {
        BeforeTotal(a, b);
      }
    }
  }

  /** Ascending by date: no entry is dated before an earlier one. */
  ghost predicate Sorted<A>(s: seq<Entry<A>>)
  {
    forall i, j | 0 <= i < j < |s| :: !Before(s[j].date, s[i].date)
  }

  /** One observation per date. */
  ghost predicate DistinctDates<A>(s: seq<Entry<A>>)
  {
    forall i, j | 0 <= i < j < |s| :: s[i].date != s[j].date
  }

  function DateSet<A>(s: seq<Entry<A>>): set<string>
  {
    set i | 0 <= i < |s| :: s[i].date
  }

  /**
    Where a stable sort puts `x` when it comes after every entry of `t`:
    behind the last entry it is not dated before.
  */
  function InsertPos<A>(t: seq<Entry<A>>, x: Entry<A>): (k: nat)
    ensures k <= |t|
    ensures forall j | k <= j < |t| :: Before(x.date, t[j].date)
    ensures 0 < k ==> !Before(x.date, t[k - 1].date)
  {
    if |t| == 0 then 0
    else if Before(x.date, t[|t| - 1].date) then InsertPos(t[..|t| - 1], x)
    else |t|
  }

  function Insert<A>(t: seq<Entry<A>>, x: Entry<A>): seq<Entry<A>>
  {
    var k := InsertPos(t, x);
    t[..k] + [x] + t[k..]
  }

  /**
    `list.sort(key=lambda e: e["date"])`: a stable sort by date, written as an
    insertion sort that takes the entries in list order.
  */
  function SortByDate<A>(s: seq<Entry<A>>): seq<Entry<A>>
  {
    if |s| == 0 then [] else Insert(SortByDate(s[..|s| - 1]), s[|s| - 1])
  }

  lemma InsertKeepsSorted<A>(t: seq<Entry<A>>, x: Entry<A>)
    requires Sorted(t)
    ensures Sorted(Insert(t, x))
  {
    var k := InsertPos(t, x);
    var r := Insert(t, x);
    assert |r| == |t| + 1;
    forall i, j | 0 <= i < j < |r|
      ensures !Before(r[j].date, r[i].date)
    {
      if j < k {
        assert r[i] == t[i] && r[j] == t[j];
      } else if j == k {
        assert r[i] == t[i] && r[j] == x;
        if i < k - 1 {
          NotBeforeTransitive(t[i].date, t[k - 1].date, x.date);
        }
      } else if i == k {
        assert r[i] == x && r[j] == t[j - 1];
        BeforeAsymmetric(x.date, t[j - 1].date);
      } else if i < k {
        assert r[i] == t[i] && r[j] == t[j - 1];
      } else {
        assert r[i] == t[i - 1] && r[j] == t[j - 1];
      }
    }
  }

  lemma InsertPermutes<A>(t: seq<Entry<A>>, x: Entry<A>)
    ensures multiset(Insert(t, x)) == multiset(t) + multiset{x}
  {
    var k := InsertPos(t, x);
    assert t == t[..k] + t[k..];
  }

  lemma InsertKeepsDistinct<A>(t: seq<Entry<A>>, x: Entry<A>)
    requires DistinctDates(t) && x.date !in DateSet(t)
    ensures DistinctDates(Insert(t, x))
  {
    var k := InsertPos(t, x);
    var r := Insert(t, x);
    forall i, j | 0 <= i < j < |r|
      ensures r[i].date != r[j].date
    {
      if j < k {
        assert r[i] == t[i] && r[j] == t[j];
      } else if j == k {
        assert r[i] == t[i] && r[j] == x;
      } else if i == k {
        assert r[i] == x && r[j] == t[j - 1];
      } else if i < k {
        assert r[i] == t[i] && r[j] == t[j - 1];
      } else {
        assert r[i] == t[i - 1] && r[j] == t[j - 1];
      }
    }
  }

  lemma {:induction false} SortByDateSorted<A>(s: seq<Entry<A>>)
    ensures Sorted(SortByDate(s))
  {
    if |s| > 0 {
      SortByDateSorted(s[..|s| - 1]);
      InsertKeepsSorted(SortByDate(s[..|s| - 1]), s[|s| - 1]);
    }
  }

  lemma {:induction false} SortByDatePermutes<A>(s: seq<Entry<A>>)
    ensures multiset(SortByDate(s)) == multiset(s)
  {
    if |s| > 0 {
      var p := s[..|s| - 1];
      SortByDatePermutes(p);
      InsertPermutes(SortByDate(p), s[|s| - 1]);
      assert s == p + [s[|s| - 1]];
    }
  }

  /** Two permutations of each other hold the same dates. */
  lemma PermutationKeepsDates<A>(r: seq<Entry<A>>, s: seq<Entry<A>>)
    requires multiset(r) == multiset(s)
    ensures DateSet(r) == DateSet(s)
  {
    forall d | d in DateSet(s) ensures d in DateSet(r) {
      var i :| 0 <= i < |s| && s[i].date == d;
      assert s[i] in multiset(r);
      var j :| 0 <= j < |r| && r[j] == s[i];
    }
    forall d | d in DateSet(r) ensures d in DateSet(s) {
      var j :| 0 <= j < |r| && r[j].date == d;
      assert r[j] in multiset(s);
      var i :| 0 <= i < |s| && s[i] == r[j];
    }
  }

  lemma {:induction false} SortByDateKeepsDistinct<A>(s: seq<Entry<A>>)
    requires DistinctDates(s)
    ensures DistinctDates(SortByDate(s))
  {
    if |s| > 0 {
      var p, x := s[..|s| - 1], s[|s| - 1];
      assert DistinctDates(p);
      SortByDateKeepsDistinct(p);
      SortByDatePermutes(p);
      PermutationKeepsDates(SortByDate(p), p);
      assert x.date !in DateSet(p);
      InsertKeepsDistinct(SortByDate(p), x);
    }
  }

  /** Sorting a list that is already in date order leaves it as it is. */
  lemma {:induction false} SortByDateOfSorted<A>(s: seq<Entry<A>>)
    requires Sorted(s)
    ensures SortByDate(s) == s
  {
    if |s| > 0 {
      var p := s[..|s| - 1];
      assert Sorted(p);
      SortByDateOfSorted(p);
      if |p| > 0 {
        assert !Before(s[|s| - 1].date, p[|p| - 1].date);
      }
      assert InsertPos(p, s[|s| - 1]) == |p|;
      assert s == p + [s[|s| - 1]];
    }
  }

  /** Index of the first entry dated `d`, or `|s|` when there is none. */
  function FirstWithDate<A>(s: seq<Entry<A>>, d: string): (k: nat)
    ensures k <= |s|
    ensures forall j | 0 <= j < k :: s[j].date != d
    ensures k < |s| ==> s[k].date == d
    ensures k == |s| <==> d !in DateSet(s)
  {
    if |s| == 0 then 0
    else if s[0].date == d then 0
    else
      var k := 1 + FirstWithDate(s[1..], d);
      assert forall j | 1 <= j < |s| :: s[j] == s[1..][j - 1];
      k
  }

  /**
    The list `add_rating_entry` leaves behind: the first entry dated `today`
    takes the new average and count; without one, a new entry is appended and
    the whole list is sorted by date.
  */
  function Upserted<A>(s: seq<Entry<A>>, today: string, avg: A, count: int): seq<Entry<A>>
  {
    var k := FirstWithDate(s, today);
    if k < |s| then s[k := s[k].(avg := avg, count := count)]
    else SortByDate(s + [Entry(today, avg, count)])
  }

  /** The append path: one new entry, every old entry kept, date order restored. */
  lemma UpsertAppends<A>(s: seq<Entry<A>>, today: string, avg: A, count: int)
    requires today !in DateSet(s)
    ensures var r := Upserted(s, today, avg, count);
      && multiset(r) == multiset(s) + multiset{Entry(today, avg, count)}
      && Sorted(r)
      && (DistinctDates(s) ==> DistinctDates(r))
  {
    var e := Entry(today, avg, count);
    var s' := s + [e];
    SortByDatePermutes(s');
    SortByDateSorted(s');
    if DistinctDates(s) {
      assert DistinctDates(s');
      SortByDateKeepsDistinct(s');
    }
  }

  /**
    The update path: same length, same dates, only the first entry dated
    `today` differs, and it now holds the new average and count.
  */
  lemma UpsertUpdates<A>(s: seq<Entry<A>>, today: string, avg: A, count: int)
    requires today in DateSet(s)
    ensures var r := Upserted(s, today, avg, count);
      var k := FirstWithDate(s, today);
      && |r| == |s| && k < |s|
      && r[k] == Entry(today, avg, count)
      && (forall j | 0 <= j < |s| && j != k :: r[j] == s[j])
      && (forall j | 0 <= j < |s| :: r[j].date == s[j].date)
  {
  }

  /** Inserting an entry with a new date makes it the first one with that date. */
  lemma InsertedIsFirst<A>(t: seq<Entry<A>>, x: Entry<A>)
    requires x.date !in DateSet(t)
    ensures var k := InsertPos(t, x);
      FirstWithDate(Insert(t, x), x.date) == k && Insert(t, x)[k] == x
  {
    var k := InsertPos(t, x);
    var r := Insert(t, x);
    assert r[k] == x;
    forall j | 0 <= j < k ensures r[j].date != x.date {
      assert r[j] == t[j];
      assert t[j].date in DateSet(t);
    }
  }

  /** Afterwards the first entry dated `today` is exactly the new observation. */
  lemma UpsertRecords<A>(s: seq<Entry<A>>, today: string, avg: A, count: int)
    ensures var r := Upserted(s, today, avg, count);
      var k := FirstWithDate(r, today);
      k < |r| && r[k] == Entry(today, avg, count)
  {
    var e := Entry(today, avg, count);
    if FirstWithDate(s, today) == |s| {
      var s' := s + [e];
      var t := SortByDate(s);
      assert s'[..|s'| - 1] == s;
      assert SortByDate(s') == Insert(t, e);
      SortByDatePermutes(s);
      PermutationKeepsDates(t, s);
      InsertedIsFirst(t, e);
    }
  }

  /** The changed flag: the list differs afterwards exactly when the path was
      an append or the old entry's average or count differed. */
  lemma UpsertChangesIff<A>(s: seq<Entry<A>>, today: string, avg: A, count: int)
    ensures var k := FirstWithDate(s, today);
      (Upserted(s, today, avg, count) != s) <==>
      (k == |s| || s[k].avg != avg || s[k].count != count)
  {
    var k := FirstWithDate(s, today);
    var r := Upserted(s, today, avg, count);
    if k == |s| {
      SortByDatePermutes(s + [Entry(today, avg, count)]);
      assert |multiset(r)| == |s| + 1;
      assert |r| != |s|;
    } else if s[k].avg == avg && s[k].count == count {
      assert s[k].(avg := avg, count := count) == s[k];
      assert r == s;
    } else {
      assert r[k] != s[k];
    }
  }

  /** Repeating the same call changes nothing. */
  lemma UpsertIdempotent<A>(s: seq<Entry<A>>, today: string, avg: A, count: int)
    ensures var r := Upserted(s, today, avg, count);
      Upserted(r, today, avg, count) == r
  {
    var r := Upserted(s, today, avg, count);
    UpsertRecords(s, today, avg, count);
    UpsertChangesIff(r, today, avg, count);
  }

  /** Sorted, one-per-date series stay that way on both paths. */
  lemma UpsertKeepsSeries<A>(s: seq<Entry<A>>, today: string, avg: A, count: int)
    ensures var r := Upserted(s, today, avg, count);
      && (Sorted(s) ==> Sorted(r))
      && (DistinctDates(s) ==> DistinctDates(r))
  {
    if today in DateSet(s) {
      UpsertUpdates(s, today, avg, count);
    } else {
      UpsertAppends(s, today, avg, count);
    }
  }
}
