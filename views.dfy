/** What the views derive from the data without changing it: the calendar's cells,
    a book's emoji, and the books and quotes a filter lets through. */
module Views {
  import opened Wrappers
  import opened Seqs
  import opened Calendar
  import opened Activity
  import opened Books
  import opened Quotes

  /** The CSS classes of one calendar day, in the order `renderCalendar` writes them. */
  function DayClasses(pages: int, isToday: bool): seq<string>
  {
    ["calendar-day"]
    + (if pages > 0 then ["has-reading"] else [])
    + (if 50 <= pages < 100 then ["level-2"] else [])
    + (if pages >= 100 then ["level-3"] else [])
    + (if isToday then ["today"] else [])
  }

  /** Every day is a `calendar-day`; it has `has-reading` exactly when pages were read,
      `level-2` exactly for 50 to 99 pages, `level-3` exactly for 100 and more, and
      `today` exactly on today's date. */
  lemma DayClassesMeaning(pages: int, isToday: bool)
    ensures DayClasses(pages, isToday)[0] == "calendar-day"
    ensures "has-reading" in DayClasses(pages, isToday) <==> pages > 0
    ensures "level-2" in DayClasses(pages, isToday) <==> 50 <= pages < 100
    ensures "level-3" in DayClasses(pages, isToday) <==> pages >= 100
    ensures "today" in DayClasses(pages, isToday) <==> isToday
  {
  }

  /** A day with more pages is shaded at least as deeply. */
  lemma MorePagesNoLighter(p: int, q: int, isToday: bool)
    requires p <= q
    ensures "has-reading" in DayClasses(p, isToday) ==> "has-reading" in DayClasses(q, isToday)
    ensures "level-3" in DayClasses(p, isToday) ==> "level-3" in DayClasses(q, isToday)
    ensures "level-2" in DayClasses(p, isToday) ==> "level-2" in DayClasses(q, isToday) || "level-3" in DayClasses(q, isToday)
  {
    DayClassesMeaning(p, isToday);
    DayClassesMeaning(q, isToday);
  }

  /** Once pages are recorded on a day, its calendar cell shows reading. */
  lemma RecordedDayShowsReading(m: DayPages, day: Day, pagesRead: int, isToday: bool)
    requires AllPositive(m) && pagesRead > 0
    ensures "has-reading" in DayClasses(At(Record(m, day, pagesRead), day), isToday)
  {
    DayClassesMeaning(At(Record(m, day, pagesRead), day), isToday);
  }

  /** The class list `renderCalendar` builds up for one day, step by step. */
  method CellClasses(pages: int, isToday: bool) returns (classes: seq<string>)
    ensures classes == DayClasses(pages, isToday)
  {
    classes := ["calendar-day"];
    if pages > 0 {
      classes := classes + ["has-reading"];
      if pages >= 50 && pages < 100 {
        classes := classes + ["level-2"];
      }
      if pages >= 100 {
        classes := classes + ["level-3"];
      }
    }
    if isToday {
      classes := classes + ["today"];
    }
  }

  /** One cell of the calendar grid: a blank before the 1st, or a day of the month with
      the date it stands for, the pages read that day and its classes. */
  datatype Cell = Blank | DayCell(dayOfMonth: int, date: Day, pages: int, classes: seq<string>)

  /** `getDay()`: 0 for Sunday to 6 for Saturday (1 January 1970 was a Thursday). */
  function WeekdayOf(d: Day): (w: int)
    ensures 0 <= w < 7
  {
    (d + 4) % 7
  }

  /** 1 March 2024 (day 19783) was a Friday. */
  lemma FirstOfMarch2024IsFriday()
    ensures WeekdayOf(19783) == 5
  {
  }

  /** The next day is the next weekday, Saturday wrapping round to Sunday. */
  lemma WeekdayStep(d: Day)
    ensures WeekdayOf(d + 1) == (WeekdayOf(d) + 1) % 7
  {
  }

  /** The cell of the calendar for the day `k` days after the 1st. */
  function DayCellFor(activity: DayPages, first: Day, k: int, today: Day): Cell
  {
    DayCell(k + 1, first + k, At(activity, first + k), DayClasses(At(activity, first + k), first + k == today))
  }

  /** The day cells of the month whose 1st is day `first`, one per day, each shaded by
      the ledger entry for its date (`readingActivity[date] || 0`). */
  method DayCells(activity: DayPages, first: Day, daysInMonth: nat, today: Day)
    returns (cells: seq<Cell>)
    ensures |cells| == daysInMonth
    ensures forall k :: 0 <= k < |cells| ==> cells[k] == DayCellFor(activity, first, k, today)
  {
    cells := [];
    for day := 1 to daysInMonth + 1
      invariant |cells| == day - 1
      invariant forall k :: 0 <= k < |cells| ==> cells[k] == DayCellFor(activity, first, k, today)
    {
      var date := first + day - 1;
      var pages := At(activity, date);
      var classes := CellClasses(pages, date == today);
      cells := cells + [DayCell(day, date, pages, classes)];
    }
  }

  /** `renderCalendar` for the month whose 1st is day `first` and which has
      `daysInMonth` days: a blank for each weekday before the 1st, then the day cells. */
  method RenderCalendar(activity: DayPages, first: Day, daysInMonth: nat, today: Day)
    returns (cells: seq<Cell>)
    ensures |cells| == WeekdayOf(first) + daysInMonth
    ensures forall i :: 0 <= i < WeekdayOf(first) ==> cells[i] == Blank
    ensures forall i :: WeekdayOf(first) <= i < |cells| ==> cells[i] == DayCellFor(activity, first, i - WeekdayOf(first), today)
  {
    var firstDay := WeekdayOf(first);
    var blanks := [];
    for i := 0 to firstDay
      invariant |blanks| == i
      invariant forall j :: 0 <= j < i ==> blanks[j] == Blank
    {
      blanks := blanks + [Blank];
    }
    var days := DayCells(activity, first, daysInMonth, today);
    cells := blanks + days;
    assert forall i :: firstDay <= i < |cells| ==> cells[i] == days[i - firstDay];
  }

  /** The emoji `getBookEmoji` shows for each genre it knows. */
  const GenreEmoji: map<string, string> := map[
    "Productivity" := "\U{2699}\U{FE0F}",
    "Psychology" := "\U{1F9E0}",
    "Non-Fiction" := "\U{1F33F}",
    "Finance" := "\U{1F4B0}",
    "Business" := "\U{1F3E2}",
    "Philosophy" := "\U{1F3DB}\U{FE0F}",
    "Fiction" := "\U{1F4D6}",
    "Self-Help" := "\U{1F4AA}",
    "History" := "\U{1F4DC}",
    "Children's" := "\U{1F476}"
  ]

  /** The open book shown for a genre with no emoji of its own. */
  const DefaultEmoji: string := "\U{1F4D6}"

  /** `getBookEmoji(genre)`: the genre's own emoji, and an unknown genre looks like Fiction. */
  function BookEmoji(genre: string): (r: string)
    ensures r in GenreEmoji.Values
    ensures genre in GenreEmoji ==> r == GenreEmoji[genre]
    ensures genre !in GenreEmoji ==> r == GenreEmoji["Fiction"]
  {
    assert GenreEmoji["Fiction"] == DefaultEmoji;
    if genre in GenreEmoji then GenreEmoji[genre] else DefaultEmoji
  }

  /** The cover placeholder, `getBookEmoji(book.genre || 'Fiction')`: a book without a
      genre, or with an empty one, is shown as Fiction. */
  function CoverEmoji(genre: Option<string>): (r: string)
    ensures genre.None? || genre == Some("") ==> r == GenreEmoji["Fiction"]
    ensures genre.Some? && genre.value != "" ==> r == BookEmoji(genre.value)
  {
    BookEmoji(if genre.Some? && genre.value != "" then genre.value else "Fiction")
  }

  /** The library's status buttons: every book, or one status. */
  datatype StatusFilter = AnyStatus | OnlyStatus(status: Status)

  /** The library's genre buttons: every book, or one genre. */
  datatype GenreFilter = AnyGenre | OnlyGenre(genre: string)

  /** `book => book.status === filter` */
  function StatusMatches(f: StatusFilter): Book -> bool
  {
    (b: Book) => f.AnyStatus? || b.status == f.status
  }

  /** `book => book.genre === genreFilter`: a book without a genre matches no genre. */
  function GenreMatches(f: GenreFilter): Book -> bool
  {
    (b: Book) => f.AnyGenre? || b.genre == Some(f.genre)
  }

  /** A book the library shows under both filters. */
  function Shown(sf: StatusFilter, gf: GenreFilter): Book -> bool
  {
    (b: Book) => (sf.AnyStatus? || b.status == sf.status) && (gf.AnyGenre? || b.genre == Some(gf.genre))
  }

  /** The books `renderLibrary(filter, genreFilter)` lists: filtering by status and then
      by genre shows exactly the books that pass both, in library order. */
  function LibraryBooks(books: seq<Book>, sf: StatusFilter, gf: GenreFilter): (r: seq<Book>)
    ensures r == Filter(books, Shown(sf, gf))
  {
    var byStatus := if sf.AnyStatus? then books else Filter(books, StatusMatches(sf));
    if sf.AnyStatus? then
      if gf.AnyGenre? then
        assert forall j :: 0 <= j < |books| ==> Shown(sf, gf)(books[j]);
        FilterAll(books, Shown(sf, gf));
        books
      else
        FilterFilter(books, StatusMatches(sf), GenreMatches(gf), Shown(sf, gf));
        FilterAll(books, StatusMatches(sf));
        Filter(books, GenreMatches(gf))
    else
      if gf.AnyGenre? then
        FilterFilter(books, StatusMatches(sf), GenreMatches(gf), Shown(sf, gf));
        FilterAll(byStatus, GenreMatches(gf));
        byStatus
      else
        FilterFilter(books, StatusMatches(sf), GenreMatches(gf), Shown(sf, gf));
        Filter(byStatus, GenreMatches(gf))
  }

  /** `quote => quote.isFavorite` */
  function IsFavorite(q: Quote): bool
  {
    q.isFavorite
  }

  /** `quote => quote.isFavorite` when only favourites are shown, and every quote otherwise. */
  function Kept(favoritesOnly: bool): Quote -> bool
  {
    (q: Quote) => !favoritesOnly || q.isFavorite
  }

  /** The quotes `renderHighlights(filter)` lists, in the order they are shown: every
      quote, or only the favourites. */
  function Highlights(qs: seq<Quote>, favoritesOnly: bool): (r: seq<Quote>)
    ensures r == Filter(qs, Kept(favoritesOnly))
    ensures forall q :: q in r <==> q in qs && (favoritesOnly ==> q.isFavorite)
    ensures !favoritesOnly ==> r == qs
  {
    if favoritesOnly then
      assert forall q :: IsFavorite(q) == Kept(true)(q);
      FilterFilter(qs, Kept(false), IsFavorite, Kept(true));
      assert forall j :: 0 <= j < |qs| ==> Kept(false)(qs[j]);
      FilterAll(qs, Kept(false));
      Filter(qs, IsFavorite)
    else
      assert forall j :: 0 <= j < |qs| ==> Kept(false)(qs[j]);
      FilterAll(qs, Kept(false));
      qs
  }
}
