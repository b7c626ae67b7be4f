/** A book as the app stores it, and what a progress update and an edit do to one. */
module Books {
  import opened Wrappers
  import opened Calendar
  import opened Activity

  /** The values `status` takes: 'reading', 'finished' and 'want'. */
  datatype Status = Reading | Finished | Want

  datatype Book = Book(
    id: string,
    title: string,
    author: string,
    totalPages: int,
    currentPage: int,
    status: Status,
    genre: Option<string>,
    coverImage: Option<string>,
    finishedDate: Option<Instant>,
    readingDays: DayPages)

  /** `b => b.id === id` */
  function HasId(id: string): Book -> bool
  {
    (b: Book) => b.id == id
  }

  /** `b => b.id !== id` */
  function OtherThan(id: string): Book -> bool
  {
    (b: Book) => b.id != id
  }

  /** The book record after `handleProgressUpdate` moves it to `newPage` at instant `now`:
      a forward move is credited to today's reading days, the page is stored as given
      (not clamped), and reaching `totalPages` finishes the book. */
  function Progress(b: Book, newPage: int, now: Instant): (r: Book)
    ensures r.currentPage == newPage
    ensures r.readingDays == Record(b.readingDays, DayOf(now), newPage - b.currentPage)
    ensures newPage >= b.totalPages ==> r.status == Finished && r.finishedDate == Some(now)
    ensures newPage < b.totalPages ==> r.status == b.status && r.finishedDate == b.finishedDate
    ensures r.id == b.id && r.title == b.title && r.author == b.author && r.totalPages == b.totalPages
    ensures r.genre == b.genre && r.coverImage == b.coverImage
  {
    var tracked := b.(readingDays := Record(b.readingDays, DayOf(now), newPage - b.currentPage),
                      currentPage := newPage);
    if newPage >= b.totalPages then tracked.(status := Finished, finishedDate := Some(now))
    else tracked
  }

  /** The values the edit form submits. An empty `genre` is the "no genre" choice;
      `cover` is the newly uploaded cover, if any. */
  datatype EditForm = EditForm(
    title: string,
    author: string,
    totalPages: int,
    currentPage: int,
    status: Status,
    genre: string,
    cover: Option<string>)

  /** The book record after `handleEditBook` saves `form` at instant `now`. The page
      move is tracked as in a progress update; every field is then taken from the form,
      and reaching the form's `totalPages` finishes the book whatever status was chosen. */
  function Edit(b: Book, form: EditForm, now: Instant): (r: Book)
    ensures r.id == b.id
    ensures r.readingDays == Record(b.readingDays, DayOf(now), form.currentPage - b.currentPage)
    ensures r.title == form.title && r.author == form.author
    ensures r.totalPages == form.totalPages && r.currentPage == form.currentPage
    ensures r.genre == if form.genre == "" then None else Some(form.genre)
    ensures r.coverImage == if form.cover.Some? then form.cover else b.coverImage
    ensures form.currentPage >= form.totalPages ==> r.status == Finished && r.finishedDate == Some(now)
    ensures form.currentPage < form.totalPages ==> r.status == form.status && r.finishedDate == b.finishedDate
  {
    var edited := b.(
      readingDays := Record(b.readingDays, DayOf(now), form.currentPage - b.currentPage),
      title := form.title,
      author := form.author,
      totalPages := form.totalPages,
      currentPage := form.currentPage,
      status := form.status,
      genre := if form.genre == "" then None else Some(form.genre),
      coverImage := if form.cover.Some? then form.cover else b.coverImage);
    if form.currentPage >= form.totalPages then edited.(status := Finished, finishedDate := Some(now))
    else edited
  }
}
