# Bookmarkr reading ledger, in Dafny

Bookmarkr is a single-page reading tracker. It keeps three pieces of state:

- `myBooks`: the books, each with a status (`reading`, `finished`, `want`), page counts,
  an optional finish date and its own `readingDays` map from date to pages read.
- `myQuotes`: saved highlights, each pointing at a book by id.
- `readingActivity`: the ledger, a map from date to the pages read that day across all books.

This project models the part of `app.js` that keeps those three consistent and the
figures derived from them:

- the progress and edit handlers that record a forward page move in the ledger and in the
  book, and finish a book that reaches its last page;
- the delete handler, which takes the book's reading days back off the ledger;
- the streak walk;
- the statistics (pages this month, books finished this year, the 30-day average, total
  pages read);
- the calendar's shading;
- the genre emoji, the library and highlight filters, the quote-to-book title lookup;
- the quote favourite toggle and quote deletion;
- `escapeHtml`.

Modules, one per concern:

| module | what it holds |
|---|---|
| `Wrappers` | `Option` |
| `Seqs` | `filter`, `find` and a summing `forEach` over sequences, with their laws |
| `Calendar` | instants (ms since the epoch), days since 1970-01-01, the UTC day of an instant, the civil year and month of a day |
| `Activity` | the ledger as `map<Day, int>`: recording a move, and the deletion debit, visited in any key order |
| `Books` | the book record, the progress update and the edit form as functions on it |
| `Ledger` | the invariant tying the ledger to the books (`Sound`) and the lemmas that each change keeps it |
| `Quotes` | quotes, the favourite toggle, the title lookup |
| `Streak` | the streak as a function of the ledger, and the loop that computes it |
| `Stats` | window totals over the ledger's keys, `renderStats` and `updateStats` as loops proved against them |
| `Views` | calendar classes and cells, emoji, library and highlight filters |
| `Html` | `escapeHtml` and the decoding that undoes it |
| `Tracker` | the class holding `books`, `quotes` and `activity`, whose methods change them in place |

The central invariant is `Ledger.Sound`. It has three parts:

- for every day, the ledger entry equals the sum of the books' `readingDays` entries for that day;
- every ledger entry is positive;
- every per-book entry is positive.

Every handler that changes the ledger keeps `Sound`: progress, edit, and adding a book
with no reading days. Deletion keeps it too, provided no other book shares the deleted
book's id, because the source removes every book with that id but debits only one book's
days.

app.js behaves as follows where a reader might expect otherwise:

- The current page is not clamped to the page count. `handleProgressUpdate` stores
  whatever was entered (app.js:1043).
- The 30-day window of `renderStats` has no upper bound. Any day from 30 days before now
  on is counted (app.js:502).
- `finishedDate` is set only when a book reaches its last page (app.js:984-987 and
  app.js:1045-1047), and nothing ever clears it. A book edited back to `reading` keeps its old date.
- The "want to read" status is stored as the string `want`; "Want to Read" is only its
  label (app.js:281).

## Model

| member | source | states |
|---|---|---|
| `Calendar.DayOf` | app.js:1035 | the date key of an instant (`toISOString().split('T')[0]`) is the day whose 24 hours contain it |
| `Calendar.CivilFromDays` | app.js:487 | the civil date of a day has a month from 1 to 12 and a day of month from 1 to 31 |
| `Calendar.DayOfYearBounds` | app.js:487 | every day of a 400-year era falls on day 0 to 365 of its March-based year, which is what keeps the civil month and day in range |
| `Calendar.MonthOf` | app.js:487 | the month of a day (`getMonth()` counted from 1) is from 1 to 12 |
| `Activity.Record` | app.js:1034-1041 | a move of `pagesRead > 0` adds exactly that to the entry for `day`, creating it if absent. A move of 0 or less leaves the map as it was. No other day changes |
| `Activity.RecordKeepsPositive` | app.js:1034-1036 | recording any move on a ledger of positive entries leaves only positive entries |
| `Activity.Debit` | app.js:1000-1012 | after deleting a book, a day the book has no entry for, or whose ledger entry is missing or 0, is unchanged. A touched day stays exactly when its entry minus the book's pages is positive, and then holds that difference. No day is added |
| `Activity.DebitStep` | app.js:1002-1011 | one iteration of the deletion loop on a new day extends the set of visited days, so the result does not depend on the order of `Object.keys` |
| `Activity.DebitKeepsPositive` | app.js:1006-1009 | deleting never leaves a zero or negative ledger entry |
| `Books.Progress` | app.js:1027-1048 | the book after a progress update. The page is set to `newPage` unclamped. The move is recorded in its `readingDays` under today. At or past `totalPages` it is finished with `finishedDate` now; below, status and date are kept. Every other field is kept |
| `Books.Edit` | app.js:955-987 | the book after an edit. The move is tracked as in a progress update. Every field comes from the form; an empty genre becomes none and a missing new cover keeps the old one. Reaching the form's `totalPages` forces finished with `finishedDate` now |
| `Ledger.RecordKeepsConsistent` | app.js:1034-1041 | adding the same move to the ledger and to one book's days keeps every ledger entry equal to the sum over books |
| `Ledger.RecordKeepsSound` | app.js:959-970 | the same for the full invariant, as the edit handler does it |
| `Ledger.DeleteKeepsConsistent` | app.js:1000-1014 | debiting the deleted book's days and filtering out its id leaves every entry equal to the sum over the remaining books, when the id is unique |
| `Ledger.DeleteKeepsSound` | app.js:996-1014 | deletion keeps the full invariant, when the id is unique |
| `Ledger.AddKeepsSound` | app.js:881-884 | appending a book with empty `readingDays` keeps the invariant |
| `Quotes.ToggleFavorite` | app.js:459-463 | only the first quote with the id has its flag flipped; every other quote, and the length, is unchanged. With no such quote nothing changes |
| `Quotes.ToggleTwice` | app.js:459-463 | toggling the same id twice restores the quote list |
| `Quotes.DeleteQuoteTwice` | app.js:469-471 | deleting a quote id twice is the same as deleting it once |
| `Quotes.BookTitle` | app.js:397-398 | the title of the first book with the quote's `bookId`, and `Unknown Book` when no book has it |
| `Streak.StreakAt` | app.js:715-728 | the streak is the k for which today, today-1, …, today-(k-1) all have a non-zero entry and today-k does not; k never exceeds the number of ledger keys up to today |
| `Streak.UpdateStreak` | app.js:715-731 | the backward walk from today's UTC day returns exactly `StreakAt`, which is at most the number of ledger entries |
| `Streak.StreakMonotone` | app.js:721-728 | a ledger active on at least the same days has at least as long a streak |
| `Streak.RecordKeepsStreak` | app.js:1034-1036 | reading pages today makes the streak at least 1 and never shortens it |
| `Streak.StreakExample` | app.js:715-728 | with pages on 9 and 10 January 2024 the streak on the 10th is 2, and on the 11th, before any reading, it is 0 |
| `Stats.Ones` | app.js:504 | the day-counting map has the ledger's keys and only positive entries |
| `Stats.WindowSumRemove` | app.js:485-490 | a window total does not depend on the order the keys are visited in |
| `Stats.WindowSumAgree` | app.js:485-490 | ledgers that agree on a set of keys have equal totals over it |
| `Stats.WindowSumNonNegative` | app.js:501-506 | a ledger of positive entries has a non-negative total over any window |
| `Stats.NoneCovered` | app.js:501-507 | a set of keys none of which lies in the window has total 0 over it |
| `Stats.NoDaysNoPages` | app.js:507 | when no day falls in the window, the window total is 0 |
| `Stats.RecordAddsToWindow` | app.js:1034-1036 | recording p > 0 pages on a day raises every window containing that day by p and leaves the others unchanged |
| `Stats.RoundedThirtieth` | app.js:507 | `Math.round(total / 30)`: r is the whole number with 30r - 15 ≤ total < 30r + 15 |
| `Stats.RenderStats` | app.js:479-507 | monthPages is the ledger total over the current month. yearBooks is the number of books finished with a finish date in the current year. avgPages is the rounded thirtieth of the total from 30 days ago on, and 0 when no day falls in that window. With no ledger key in the 30-day window, avgPages is 0 |
| `Stats.UpdateStats` | app.js:734-749 | the book count, the finished count, and the pages read: all pages of a finished book, the current page of one being read, none for a wanted one |
| `Stats.ProgressChangesPagesRead` | app.js:1043-1048 | moving a book being read to newPage changes pages read by newPage minus the old page, or by totalPages minus the old page when it finishes |
| `Stats.DeleteChangesPagesRead` | app.js:1014 | deleting a book with a unique id takes exactly its own contribution off pages read |
| `Stats.MarchExample` | app.js:484-490 | 10 pages on 1 March 2024, 20 on 15 March and 5 on 1 April give 30 for March 2024 |
| `Views.DayClassesMeaning` | app.js:664-673 | a day is `calendar-day`. It is `has-reading` iff pages > 0, `level-2` iff 50 ≤ pages < 100, `level-3` iff pages ≥ 100, and `today` iff it is today |
| `Views.MorePagesNoLighter` | app.js:665-668 | a day with more pages is shaded at least as deeply |
| `Views.RecordedDayShowsReading` | app.js:1034-1036 | after pages are recorded on a day, its calendar cell shows reading |
| `Views.WeekdayOf` | app.js:649 | `getDay()` is a weekday number from 0 to 6 |
| `Views.FirstOfMarch2024IsFriday` | app.js:649 | `getDay()` of 1 March 2024 is 5, a Friday, which anchors the weekday numbering |
| `Views.WeekdayStep` | app.js:649 | each next day is the next weekday, wrapping from Saturday (6) to Sunday (0) |
| `Views.CellClasses` | app.js:664-673 | the class list built step by step is `DayClasses` |
| `Views.DayCells` | app.js:660-675 | one cell per day of the month, for the k-th day: its date, `readingActivity[date] \|\| 0`, and its classes |
| `Views.RenderCalendar` | app.js:642-678 | the grid is one blank per weekday before the 1st, then the month's day cells in order |
| `Views.BookEmoji` | app.js:1058-1072 | a known genre gets its own emoji, an unknown one the Fiction emoji; every result is one of the ten |
| `Views.CoverEmoji` | app.js:286 | a book without a genre, or with an empty one, shows the Fiction emoji |
| `Views.LibraryBooks` | app.js:250-261 | filtering by status and then by genre lists exactly the books passing both filters, in library order |
| `Views.Highlights` | app.js:376-381 | the list shown is `Filter` of the quotes by the favourites test, in their order with every copy kept: exactly the favourite quotes under the favourites filter, and the whole list otherwise |
| `Html.EscapeCharSafe` | app.js:1087-1094 | putting one escaped character before safe text keeps it safe |
| `Html.Escape` | app.js:1086-1095 | the escaped text has no raw `<`, `>`, `"` or `'`, and every `&` in it starts `&amp;`, `&lt;`, `&gt;`, `&quot;` or `&#039;` |
| `Html.UnescapeEscape` | app.js:1086-1095 | decoding the entities, with `&amp;` decoded last, gives back exactly the escaped text |
| `Tracker.Tracker.constructor` | app.js:5-7 | the app starts with no books, no quotes and an empty ledger, which satisfies the invariant |
| `Tracker.Tracker.UpdateProgress` | app.js:1027-1048 | book i becomes `Progress` of itself and the ledger is `Record`ed with the same move; an out-of-range i changes nothing. Quotes are untouched, and the invariant is kept |
| `Tracker.Tracker.EditBook` | app.js:955-987 | book i becomes `Edit` of itself and the ledger records the same move; the invariant is kept |
| `Tracker.Tracker.DeleteBook` | app.js:996-1014 | the in-place key loop leaves the ledger equal to `Debit` of the old ledger by the book's days, and the list keeps exactly the books with other ids. The invariant is kept when the id is unique |
| `Tracker.Tracker.AddBook` | app.js:884 | the book is appended and nothing else changes; the invariant is kept for a book with no reading days |
| `Tracker.Tracker.AddQuote` | app.js:453 | the quote is appended and nothing else changes |
| `Tracker.Tracker.ToggleQuoteFavorite` | app.js:459-463 | the in-place flip leaves the quote list equal to `ToggleFavorite` of the old list |
| `Tracker.Tracker.DeleteQuote` | app.js:469-471 | the quote list keeps exactly the quotes with other ids, in order; books and ledger are untouched |

## Left out

- Rendering to the DOM is not modelled: the markup strings, `innerHTML`, modals, navigation and the greeting. The model stops at the values those views display.
- Storage is not modelled. `localStorage` load and save, and the JSON round trip through it, are left out.
- The book search (`fetch` to the Google Books API), cover upload (`FileReader`) and the Chart.js chart are left out as I/O.
- `confirm` dialogs are left out. `DeleteBook` and `DeleteQuote` model the confirmed path; a cancel changes nothing.
- Ids from `Date.now()` are left out. A new book or quote is passed in whole, so the 200-page default of `addBookFromAPI` is not modelled.
- `parseInt` is left out, including `NaN` from an empty field. Page numbers arrive as integers.
- The local time zone is left out. Dates, months and years are all taken in UTC, while the source mixes UTC date keys with local `getMonth`/`getFullYear` and local calendar days.
- `Views.RenderCalendar`: takes the day number of the month's 1st and the month's length as parameters. It does not compute them from `currentMonth` with `Date`.
- `Views.BookEmoji`: does not model inherited object keys, such as a genre named `constructor`, for which the source's lookup returns a truthy function instead of an emoji.
- `Streak.UpdateStreak`: `checkDate.setDate(getDate() - 1)` steps back one local calendar day. The model steps back one UTC day.
- `Tracker.Tracker.DeleteBook`: the invariant is proved kept only when the deleted book's id is unique. With a repeated id, the source removes every book with it but debits only one book's days.
- The book a modal is open on is modelled by its index in the book list, not by the shared object reference. The source's aliasing of that object is not modelled.
- A book whose `readingDays` is missing is modelled as having an empty map. This is the legacy case the handlers patch with `readingDays = {}`.
- `showDayDetails`, `formatDate`, `renderHome`, `renderGenres` and `filterByGenre` are left out: they only display data.
- The percentage in `renderHome` (floating point) is left out for the same reason.
