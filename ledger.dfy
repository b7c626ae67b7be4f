/** The invariant that ties the global ledger to the books: for every day, the
    pages in `readingActivity` equal the sum of that day's pages over every book's
    `readingDays`, an absent entry counting as 0. */
module Ledger {
  import opened Seqs
  import opened Calendar
  import opened Activity
  import opened Books

  /** A book's pages on day `d`. */
  function PagesOn(d: Day): Book -> int
  {
    (b: Book) => At(b.readingDays, d)
  }

  /** The pages all `books` credit to day `d`. */
  function DaySum(books: seq<Book>, d: Day): int
  {
    Sum(books, PagesOn(d))
  }

  ghost predicate Consistent(activity: DayPages, books: seq<Book>)
  {
    forall d :: At(activity, d) == DaySum(books, d)
  }

  ghost predicate PositiveDays(books: seq<Book>)
  {
    forall b :: b in books ==> AllPositive(b.readingDays)
  }

  /** The state the app keeps: consistent, with no zero or negative entry in the
      ledger and only positive per-book counts (only positive moves are ever recorded). */
  ghost predicate Sound(activity: DayPages, books: seq<Book>)
  {
    Consistent(activity, books) && AllPositive(activity) && PositiveDays(books)
  }

  /** No other book shares the id of `books[i]`. */
  predicate UniqueAt(books: seq<Book>, i: int)
    requires 0 <= i < |books|
  {
    forall j :: 0 <= j < |books| && j != i ==> books[j].id != books[i].id
  }

  /** Recording the same move in the ledger and in book `i`'s reading days keeps the
      ledger consistent (the tracking step of a progress update or an edit). */
  lemma RecordKeepsConsistent(activity: DayPages, books: seq<Book>, i: nat, b: Book, day: Day, pagesRead: int)
    requires Consistent(activity, books) && i < |books|
    requires b.readingDays == Record(books[i].readingDays, day, pagesRead)
    ensures Consistent(Record(activity, day, pagesRead), books[i := b])
  {
    forall d
      ensures At(Record(activity, day, pagesRead), d) == DaySum(books[i := b], d)
    {
      SumUpdate(books, i, b, PagesOn(d));
    }
  }

  lemma RecordKeepsSound(activity: DayPages, books: seq<Book>, i: nat, b: Book, day: Day, pagesRead: int)
    requires Sound(activity, books) && i < |books|
    requires b.readingDays == Record(books[i].readingDays, day, pagesRead)
    ensures Sound(Record(activity, day, pagesRead), books[i := b])
  {
    RecordKeepsConsistent(activity, books, i, b, day, pagesRead);
    RecordKeepsPositive(activity, day, pagesRead);
    RecordKeepsPositive(books[i].readingDays, day, pagesRead);
  }

  /** Deleting book `i`, with its pages taken off the ledger, keeps the ledger consistent
      with the books that remain, provided no other book shares its id. */
  lemma DeleteKeepsConsistent(activity: DayPages, books: seq<Book>, i: nat)
    requires Sound(activity, books) && i < |books| && UniqueAt(books, i)
    ensures Consistent(Debit(activity, books[i].readingDays), Filter(books, OtherThan(books[i].id)))
  {
    var days := books[i].readingDays;
    var keep := OtherThan(books[i].id);
    var rest := Filter(books, keep);
    forall j | 0 <= j < |books| && j != i
      ensures keep(books[j])
    {
    }
    forall d
      ensures At(Debit(activity, days), d) == DaySum(rest, d)
    {
      SumFilterOne(books, i, keep, PagesOn(d));
      forall b | b in rest
        ensures PagesOn(d)(b) >= 0
      {
        assert AllPositive(b.readingDays);
      }
      SumNonNegative(rest, PagesOn(d));
      DebitAt(activity, days, d, DaySum(rest, d));
    }
  }

  /** On one day: if the ledger holds the deleted book's pages on top of a non-negative
      remainder, the deletion leaves exactly that remainder (an entry it drops had
      nothing left). */
  lemma DebitAt(activity: DayPages, days: DayPages, d: Day, remainder: int)
    requires AllPositive(days) && remainder >= 0
    requires At(activity, d) == remainder + At(days, d)
    ensures At(Debit(activity, days), d) == remainder
  {
  }

  lemma DeleteKeepsSound(activity: DayPages, books: seq<Book>, i: nat)
    requires Sound(activity, books) && i < |books| && UniqueAt(books, i)
    ensures Sound(Debit(activity, books[i].readingDays), Filter(books, OtherThan(books[i].id)))
  {
    DeleteKeepsConsistent(activity, books, i);
    DebitKeepsPositive(activity, books[i].readingDays);
  }

  /** A new book starts with no reading days, so adding it keeps the ledger consistent. */
  lemma AddKeepsSound(activity: DayPages, books: seq<Book>, b: Book)
    requires Sound(activity, books) && b.readingDays == map[]
    ensures Sound(activity, books + [b])
  {
    forall d
      ensures At(activity, d) == DaySum(books + [b], d)
    {
      SumSnoc(books, b, PagesOn(d));
    }
  }
}
