/** Saved quotes: each points at a book by id, a reference nothing keeps valid
    (deleting a book leaves its quotes behind). */
module Quotes {
  import opened Wrappers
  import opened Seqs
  import opened Books

  datatype Quote = Quote(id: string, bookId: string, text: string, page: Option<string>, isFavorite: bool)

  /** `q => q.id === id` */
  function QuoteHasId(id: string): Quote -> bool
  {
    (q: Quote) => q.id == id
  }

  /** `q => q.id !== id` */
  function OtherQuote(id: string): Quote -> bool
  {
    (q: Quote) => q.id != id
  }

  /** `qs[j]` is the quote `qs.find(q => q.id === id)` returns. */
  predicate IsFirst(qs: seq<Quote>, id: string, j: int)
    requires 0 <= j < |qs|
  {
    qs[j].id == id && forall k :: 0 <= k < j ==> qs[k].id != id
  }

  /** The quote list after `toggleQuoteFavorite(id)`: the first quote with that id has
      its favourite flag flipped, and nothing else changes (no such quote, no change). */
  function ToggleFavorite(qs: seq<Quote>, id: string): (r: seq<Quote>)
    ensures |r| == |qs|
    ensures forall j :: 0 <= j < |qs| ==>
      r[j] == if IsFirst(qs, id, j) then qs[j].(isFavorite := !qs[j].isFavorite) else qs[j]
  {
    match FirstIndex(qs, QuoteHasId(id))
    case None => qs
    case Some(j) => qs[j := qs[j].(isFavorite := !qs[j].isFavorite)]
  }

  /** Toggling the same quote twice restores the list. */
  lemma ToggleTwice(qs: seq<Quote>, id: string)
    ensures ToggleFavorite(ToggleFavorite(qs, id), id) == qs
  {
    var once := ToggleFavorite(qs, id);
    assert forall j :: 0 <= j < |qs| ==> once[j].id == qs[j].id;
    assert forall j :: 0 <= j < |qs| ==> (IsFirst(once, id, j) <==> IsFirst(qs, id, j));
  }

  /** Deleting a quote twice is deleting it once. */
  lemma DeleteQuoteTwice(qs: seq<Quote>, id: string)
    ensures Filter(Filter(qs, OtherQuote(id)), OtherQuote(id)) == Filter(qs, OtherQuote(id))
  {
    var once := Filter(qs, OtherQuote(id));
    assert forall j :: 0 <= j < |once| ==> once[j] in once;
    FilterAll(once, OtherQuote(id));
  }

  /** The title shown for a quote: that of the first book with its `bookId`, or
      'Unknown Book' when the book is gone. */
  function BookTitle(books: seq<Book>, bookId: string): (title: string)
    ensures (forall j :: 0 <= j < |books| ==> books[j].id != bookId) ==> title == "Unknown Book"
    ensures forall j :: 0 <= j < |books| && books[j].id == bookId ==>
      title == books[j].title || exists k :: 0 <= k < j && books[k].id == bookId
  {
    match FirstIndex(books, HasId(bookId))
    case Some(j) => books[j].title
    case None => "Unknown Book"
  }
}
