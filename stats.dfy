/** The figures the stats view and the header show, computed from the ledger and
    the book list. */
module Stats {
  import opened Seqs
  import opened Calendar
  import opened Activity
  import opened Books
  import opened Ledger

  /** The days a ledger total is taken over: one calendar month, or every day from
      an instant on (`new Date(date) >= thirtyDaysAgo`; nothing bounds it above). */
  datatype Window = InMonth(year: int, month: int) | Since(cutoff: Instant)

  predicate Covers(w: Window, d: Day)
  {
    match w
    case InMonth(year, month) => MonthOf(d) == month && YearOf(d) == year
    case Since(cutoff) => MidnightOf(d) >= cutoff
  }

  /** The month `now` falls in. */
  function ThisMonth(now: Instant): Window
  {
    InMonth(YearOf(DayOf(now)), MonthOf(DayOf(now)))
  }

  /** The window `renderStats` averages over: days from 30 days before `now` on. */
  function LastThirtyDays(now: Instant): Window
  {
    Since(now - 30 * MsPerDay)
  }

  /** What day `d` adds to a total over window `w`. */
  function Part(m: DayPages, w: Window, d: Day): int
    requires d in m
  {
    if Covers(w, d) then m[d] else 0
  }

  /** Some member of a non-empty set: the next key the walk over `Object.keys` visits. */
  ghost function Pick(s: set<Day>): (d: Day)
    requires s != {}
    ensures d in s
  {
    SomeDay(s);
    var d :| d in s; d
  }

  /** The sum of the entries of `m` under `keys` that lie in window `w`. */
  ghost function WindowSum(m: DayPages, keys: set<Day>, w: Window): int
    requires keys <= m.Keys
    decreases keys
  {
    if keys == {} then 0
    else
      var d := Pick(keys);
      Part(m, w, d) + WindowSum(m, keys - {d}, w)
  }

  /** `m` with every entry replaced by 1: its window sum counts the days in the window. */
  function Ones(m: DayPages): (r: DayPages)
    ensures r.Keys == m.Keys && AllPositive(r)
  {
    map d | d in m :: 1
  }

  /** The total does not depend on the order the keys are visited in: any key can be
      taken out first. */
  lemma {:induction false} WindowSumRemove(m: DayPages, keys: set<Day>, w: Window, d: Day)
    requires keys <= m.Keys && d in keys
    ensures WindowSum(m, keys, w) == Part(m, w, d) + WindowSum(m, keys - {d}, w)
    decreases keys
  {
    var e := Pick(keys);
    if e != d {
      WindowSumRemove(m, keys - {e}, w, d);
      WindowSumRemove(m, keys - {d}, w, e);
      assert keys - {e} - {d} == keys - {d} - {e};
    }
  }

  /** Two ledgers that agree on `keys` have the same total over them. */
  lemma {:induction false} WindowSumAgree(m: DayPages, m': DayPages, keys: set<Day>, w: Window)
    requires keys <= m.Keys && keys <= m'.Keys
    requires forall d :: d in keys ==> m[d] == m'[d]
    ensures WindowSum(m, keys, w) == WindowSum(m', keys, w)
    decreases keys
  {
    if keys != {} {
      WindowSumAgree(m, m', keys - {Pick(keys)}, w);
    }
  }

  lemma {:induction false} WindowSumNonNegative(m: DayPages, keys: set<Day>, w: Window)
    requires keys <= m.Keys && AllPositive(m)
    ensures WindowSum(m, keys, w) >= 0
    decreases keys
  {
    if keys != {} {
      WindowSumNonNegative(m, keys - {Pick(keys)}, w);
    }
  }

  /** A set of keys none of which lies in the window sums to 0 over it. */
  lemma {:induction false} NoneCovered(m: DayPages, keys: set<Day>, w: Window)
    requires keys <= m.Keys
    requires forall d :: d in keys ==> !Covers(w, d)
    ensures WindowSum(m, keys, w) == 0
    decreases keys
  {
    if keys != {} {
      NoneCovered(m, keys - {Pick(keys)}, w);
    }
  }

  /** No day in the window means no pages in it. */
  lemma {:induction false} NoDaysNoPages(m: DayPages, keys: set<Day>, w: Window)
    requires keys <= m.Keys
    requires WindowSum(Ones(m), keys, w) == 0
    ensures WindowSum(m, keys, w) == 0
    decreases keys
  {
    if keys != {} {
      var d := Pick(keys);
      WindowSumNonNegative(Ones(m), keys - {d}, w);
      NoDaysNoPages(m, keys - {d}, w);
    }
  }

  /** Recording pages read on `day` raises the total of every window holding `day` by
      exactly that many pages and leaves the others as they were. */
  lemma RecordAddsToWindow(m: DayPages, day: Day, pagesRead: int, w: Window)
    requires pagesRead > 0
    ensures WindowSum(Record(m, day, pagesRead), Record(m, day, pagesRead).Keys, w)
         == WindowSum(m, m.Keys, w) + (if Covers(w, day) then pagesRead else 0)
  {
    var m' := Record(m, day, pagesRead);
    WindowSumRemove(m', m'.Keys, w, day);
    assert m'.Keys - {day} == m.Keys - {day};
    WindowSumAgree(m, m', m.Keys - {day}, w);
    if day in m {
      WindowSumRemove(m, m.Keys, w, day);
    } else {
      assert m.Keys - {day} == m.Keys;
    }
  }

  /** `Math.round(total / 30)`: the whole number nearest to total/30, halves rounded up. */
  function RoundedThirtieth(total: int): (r: int)
    ensures 30 * r - 15 <= total < 30 * r + 15
  {
    (total + 15) / 30
  }

  /** `b => b.status === 'finished' && b.finishedDate && year of finishedDate === year` */
  function FinishedIn(year: int): Book -> bool
  {
    (b: Book) => b.status == Finished && b.finishedDate.Some? && YearOf(DayOf(b.finishedDate.value)) == year
  }

  /** `renderStats`: the pages read this month, the books finished this year and the
      average pages per day over the last 30 days (always divided by 30, and 0 when no
      day in the window has an entry). */
  method RenderStats(activity: DayPages, books: seq<Book>, now: Instant)
    returns (monthPages: int, yearBooks: nat, avgPages: int)
    ensures monthPages == WindowSum(activity, activity.Keys, ThisMonth(now))
    ensures yearBooks == |Filter(books, FinishedIn(YearOf(DayOf(now))))|
    ensures avgPages == RoundedThirtieth(WindowSum(activity, activity.Keys, LastThirtyDays(now)))
    ensures WindowSum(Ones(activity), activity.Keys, LastThirtyDays(now)) == 0 ==> avgPages == 0
    ensures (forall d :: d in activity ==> !Covers(LastThirtyDays(now), d)) ==> avgPages == 0
  {
    var today := DayOf(now);
    var currentYear, currentMonth := YearOf(today), MonthOf(today);

    monthPages := 0;
    var pending := activity.Keys;
    while pending != {}
      invariant pending <= activity.Keys
      invariant monthPages + WindowSum(activity, pending, ThisMonth(now)) == WindowSum(activity, activity.Keys, ThisMonth(now))
      decreases pending
    {
      SomeDay(pending);
      var date :| date in pending;
      WindowSumRemove(activity, pending, ThisMonth(now), date);
      if MonthOf(date) == currentMonth && YearOf(date) == currentYear {
        monthPages := monthPages + activity[date];
      }
      pending := pending - {date};
    }

    yearBooks := |Filter(books, FinishedIn(currentYear))|;

    var thirtyDaysAgo := now - 30 * MsPerDay;
    var totalPages, daysRead := 0, 0;
    var ones := Ones(activity);
    pending := activity.Keys;
    while pending != {}
      invariant pending <= activity.Keys
      invariant totalPages + WindowSum(activity, pending, LastThirtyDays(now)) == WindowSum(activity, activity.Keys, LastThirtyDays(now))
      invariant daysRead + WindowSum(ones, pending, LastThirtyDays(now)) == WindowSum(ones, activity.Keys, LastThirtyDays(now))
      decreases pending
    {
      SomeDay(pending);
      var date :| date in pending;
      WindowSumRemove(activity, pending, LastThirtyDays(now), date);
      WindowSumRemove(ones, pending, LastThirtyDays(now), date);
      if MidnightOf(date) >= thirtyDaysAgo {
        totalPages := totalPages + activity[date];
        daysRead := daysRead + 1;
      }
      pending := pending - {date};
    }
    avgPages := if daysRead > 0 then RoundedThirtieth(totalPages) else 0;
    if daysRead == 0 {
      NoDaysNoPages(activity, activity.Keys, LastThirtyDays(now));
    }
    if forall d :: d in activity ==> !Covers(LastThirtyDays(now), d) {
      NoneCovered(ones, activity.Keys, LastThirtyDays(now));
    }
  }

  /** What a book adds to "pages read": all of a finished book, the current page of one
      being read, nothing for one wanted. */
  function PagesCounted(b: Book): int
  {
    match b.status
    case Finished => b.totalPages
    case Reading => b.currentPage
    case Want => 0
  }

  /** `b => b.status === 'finished'` */
  function IsFinished(b: Book): bool
  {
    b.status == Finished
  }

  /** `updateStats`: the number of books, of finished books, and the pages read over the library. */
  method UpdateStats(books: seq<Book>) returns (totalBooks: nat, finishedBooks: nat, totalPagesRead: int)
    ensures totalBooks == |books|
    ensures finishedBooks == |Filter(books, IsFinished)|
    ensures totalPagesRead == Sum(books, PagesCounted)
  {
    totalBooks := |books|;
    finishedBooks := |Filter(books, IsFinished)|;
    totalPagesRead := 0;
    for k := 0 to |books|
      invariant totalPagesRead == Sum(books[..k], PagesCounted)
    {
      var book := books[k];
      if book.status == Finished {
        totalPagesRead := totalPagesRead + book.totalPages;
      } else if book.status == Reading {
        totalPagesRead := totalPagesRead + book.currentPage;
      }
      SumSnoc(books[..k], book, PagesCounted);
      assert books[..k + 1] == books[..k] + [book];
    }
    assert books[..|books|] == books;
  }

  /** Moving a book being read to `newPage` changes the pages read by the distance
      moved, counting a book that reaches its end (and so finishes) at `totalPages`
      however far past the end `newPage` is. */
  lemma ProgressChangesPagesRead(books: seq<Book>, i: nat, newPage: int, now: Instant)
    requires i < |books| && books[i].status == Reading
    ensures Sum(books[i := Progress(books[i], newPage, now)], PagesCounted)
         == Sum(books, PagesCounted) - books[i].currentPage
            + (if newPage >= books[i].totalPages then books[i].totalPages else newPage)
  {
    SumUpdate(books, i, Progress(books[i], newPage, now), PagesCounted);
  }

  /** Deleting a book takes exactly its own share off the pages read, provided no other
      book shares its id. */
  lemma DeleteChangesPagesRead(books: seq<Book>, i: nat)
    requires i < |books| && UniqueAt(books, i)
    ensures Sum(Filter(books, OtherThan(books[i].id)), PagesCounted) == Sum(books, PagesCounted) - PagesCounted(books[i])
  {
    forall j | 0 <= j < |books| && j != i
      ensures OtherThan(books[i].id)(books[j])
    {
    }
    SumFilterOne(books, i, OtherThan(books[i].id), PagesCounted);
  }

  /** A total over three distinct keys is the three parts added up. */
  lemma WindowSumThree(m: DayPages, a: Day, b: Day, c: Day, w: Window)
    requires a in m && b in m && c in m && a != b && a != c && b != c
    ensures WindowSum(m, {a, b, c}, w) == Part(m, w, a) + Part(m, w, b) + Part(m, w, c)
  {
    WindowSumRemove(m, {a, b, c}, w, a);
    assert {a, b, c} - {a} == {b, c};
    WindowSumRemove(m, {b, c}, w, b);
    assert {b, c} - {b} == {c};
    WindowSumRemove(m, {c}, w, c);
    assert {c} - {c} == {};
  }

  /** The monthly total of a ledger with 10 pages on 1 March 2024, 20 on 15 March and
      5 on 1 April, taken for March 2024, is 30. */
  lemma MarchExample()
    ensures WindowSum(map[19783 := 10, 19797 := 20, 19814 := 5], {19783, 19797, 19814}, InMonth(2024, 3)) == 30
  {
    var m := map[19783 := 10, 19797 := 20, 19814 := 5];
    var w := InMonth(2024, 3);
    FirstOfMarch2024();
    IdesOfMarch2024();
    FirstOfApril2024();
    assert Part(m, w, 19783) == 10 && Part(m, w, 19797) == 20 && Part(m, w, 19814) == 0;
    WindowSumThree(m, 19783, 19797, 19814, w);
  }
}
