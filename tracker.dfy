/** The app's mutable state: the book list, the quote list and the reading ledger,
    and the handlers that change them in place. */
module Tracker {
  import opened Wrappers
  import opened Seqs
  import opened Calendar
  import opened Activity
  import opened Books
  import opened Ledger
  import opened Quotes

  /** `myBooks`, `myQuotes` and `readingActivity`. The book a modal is open on
      (`currentBookForProgress`, `currentEditBook`) is passed to a handler as its index
      in `books`; an index outside the list stands for no book (`if (!current) return`). */
  class Tracker {
    var books: seq<Book>
    var quotes: seq<Quote>
    var activity: DayPages

    /** The ledger holds, for every day, the pages read that day across the books, and
        only positive counts. */
    ghost predicate Valid()
      reads this
    {
      Sound(activity, books)
    }

    /** A fresh install: no books, no quotes, nothing read. */
    constructor ()
      ensures books == [] && quotes == [] && activity == map[]
      ensures Valid()
    {
      books, quotes, activity := [], [], map[];
    }

    /** `handleProgressUpdate`: move book `i` to `newPage` at instant `now`. A forward
        move is added to today's entry in the ledger and in the book; the page is set
        whatever it is, and reaching the last page finishes the book. */
    method UpdateProgress(i: int, newPage: int, now: Instant)
      modifies this
      ensures 0 <= i < |old(books)| ==>
        && books == old(books)[i := Progress(old(books)[i], newPage, now)]
        && activity == Record(old(activity), DayOf(now), newPage - old(books)[i].currentPage)
      ensures !(0 <= i < |old(books)|) ==> books == old(books) && activity == old(activity)
      ensures quotes == old(quotes)
      ensures old(Valid()) ==> Valid()
    {
      if !(0 <= i < |books|) {
        return;
      }
      ghost var books0, activity0 := books, activity;
      var book := books[i];
      var oldPage := book.currentPage;
      var pagesRead := newPage - oldPage;
      if pagesRead > 0 {
        var today := DayOf(now);
        activity := activity[today := At(activity, today) + pagesRead];
        book := book.(readingDays := book.readingDays[today := At(book.readingDays, today) + pagesRead]);
      }
      book := book.(currentPage := newPage);
      if newPage >= book.totalPages {
        book := book.(status := Finished, finishedDate := Some(now));
      }
      books := books[i := book];
      assert book == Progress(books0[i], newPage, now);
      if Sound(activity0, books0) {
        RecordKeepsSound(activity0, books0, i, book, DayOf(now), pagesRead);
      }
    }

    /** `handleEditBook`: save the edit form on book `i` at instant `now`. The page move
        is tracked as in a progress update, then every field is taken from the form. */
    method EditBook(i: int, form: EditForm, now: Instant)
      modifies this
      ensures 0 <= i < |old(books)| ==>
        && books == old(books)[i := Edit(old(books)[i], form, now)]
        && activity == Record(old(activity), DayOf(now), form.currentPage - old(books)[i].currentPage)
      ensures !(0 <= i < |old(books)|) ==> books == old(books) && activity == old(activity)
      ensures quotes == old(quotes)
      ensures old(Valid()) ==> Valid()
    {
      if !(0 <= i < |books|) {
        return;
      }
      ghost var books0, activity0 := books, activity;
      var book := books[i];
      var oldPage := book.currentPage;
      var newPage := form.currentPage;
      var pagesRead := newPage - oldPage;
      if pagesRead > 0 {
        var today := DayOf(now);
        activity := activity[today := At(activity, today) + pagesRead];
        book := book.(readingDays := book.readingDays[today := At(book.readingDays, today) + pagesRead]);
      }
      book := book.(title := form.title, author := form.author, totalPages := form.totalPages);
      book := book.(currentPage := newPage, status := form.status);
      book := book.(genre := if form.genre == "" then None else Some(form.genre));
      if form.cover.Some? {
        book := book.(coverImage := form.cover);
      }
      if newPage >= book.totalPages {
        book := book.(status := Finished, finishedDate := Some(now));
      }
      books := books[i := book];
      assert book == Edit(books0[i], form, now);
      if Sound(activity0, books0) {
        RecordKeepsSound(activity0, books0, i, book, DayOf(now), pagesRead);
      }
    }

    /** `handleDeleteBook` on book `i`, once confirmed: take each of its reading days off
        the ledger (only where the ledger has a non-zero entry, dropping entries that fall
        to 0 or below), then remove every book with its id. When no other book shares
        that id, the ledger stays in step with the remaining books. */
    method DeleteBook(i: int)
      modifies this
      ensures 0 <= i < |old(books)| ==>
        && activity == Debit(old(activity), old(books)[i].readingDays)
        && books == Filter(old(books), OtherThan(old(books)[i].id))
      ensures !(0 <= i < |old(books)|) ==> books == old(books) && activity == old(activity)
      ensures quotes == old(quotes)
      ensures old(Valid()) && (0 <= i < |old(books)| ==> UniqueAt(old(books), i)) ==> Valid()
    {
      if !(0 <= i < |books|) {
        return;
      }
      var book := books[i];
      var days := book.readingDays;
      ghost var activity0 := activity;
      var pending := days.Keys;
      while pending != {}
        invariant pending <= days.Keys
        invariant activity == DebitOn(activity0, days, days.Keys - pending)
        invariant books == old(books) && quotes == old(quotes)
        decreases pending
      {
        SomeDay(pending);
        var date :| date in pending;
        var pagesRead := days[date];
        if date in activity && activity[date] != 0 {
          activity := activity[date := activity[date] - pagesRead];
          if activity[date] <= 0 {
            activity := activity - {date};
          }
        }
        DebitStep(activity0, days, days.Keys - pending, date);
        assert days.Keys - pending + {date} == days.Keys - (pending - {date});
        pending := pending - {date};
      }
      assert days.Keys - pending == days.Keys;
      books := Filter(books, OtherThan(book.id));
      if Sound(activity0, old(books)) && UniqueAt(old(books), i) {
        DeleteKeepsSound(activity0, old(books), i);
      }
    }

    /** `myBooks.push(book)` in `addBookFromAPI` and `handleManualAdd`. A new book has
        no reading days, so the ledger stays in step. */
    method AddBook(book: Book)
      modifies this
      ensures books == old(books) + [book]
      ensures quotes == old(quotes) && activity == old(activity)
      ensures old(Valid()) && book.readingDays == map[] ==> Valid()
    {
      if Sound(activity, books) && book.readingDays == map[] {
        AddKeepsSound(activity, books, book);
      }
      books := books + [book];
    }

    /** `myQuotes.push(quote)` in `handleAddQuote`. */
    method AddQuote(quote: Quote)
      modifies this
      ensures quotes == old(quotes) + [quote]
      ensures books == old(books) && activity == old(activity)
    {
      quotes := quotes + [quote];
    }

    /** `toggleQuoteFavorite(id)`: flip the favourite flag of the first quote with that
        id, in place; nothing happens when there is none. */
    method ToggleQuoteFavorite(id: string)
      modifies this
      ensures quotes == ToggleFavorite(old(quotes), id)
      ensures books == old(books) && activity == old(activity)
    {
      var found := FirstIndex(quotes, QuoteHasId(id));
      if found.Some? {
        var j := found.value;
        quotes := quotes[j := quotes[j].(isFavorite := !quotes[j].isFavorite)];
      }
    }

    /** `deleteQuote(id)`, once confirmed: drop every quote with that id. */
    method DeleteQuote(id: string)
      modifies this
      ensures quotes == Filter(old(quotes), OtherQuote(id))
      ensures forall q :: q in quotes <==> q in old(quotes) && q.id != id
      ensures books == old(books) && activity == old(activity)
    {
      quotes := Filter(quotes, OtherQuote(id));
    }
  }
}
