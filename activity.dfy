/** Date-keyed page counts. The global `readingActivity` and every book's
    `readingDays` have this shape: a map from day to pages read that day. */
module Activity {
  import opened Calendar

  type DayPages = map<Day, int>

  /** `m[d] || 0`: the pages on day `d`, an absent entry counting as 0. */
  function At(m: DayPages, d: Day): int
  {
    if d in m then m[d] else 0
  }

  /** A non-empty set of days has a member to pick. */
  lemma SomeDay(s: set<Day>)
    requires s != {}
    ensures exists d :: d in s
  {
    if forall d :: d !in s {
      assert false;
    }
  }

  /** The tracking step of a progress update:
      `if (pagesRead > 0) m[day] = (m[day] || 0) + pagesRead`. */
  function Record(m: DayPages, day: Day, pagesRead: int): (r: DayPages)
    ensures pagesRead > 0 ==> r.Keys == m.Keys + {day} && At(r, day) == At(m, day) + pagesRead
    ensures pagesRead <= 0 ==> r == m
    ensures forall d :: d != day ==> (d in r <==> d in m) && At(r, d) == At(m, d)
  {
    if pagesRead > 0 then m[day := At(m, day) + pagesRead] else m
  }

  /** Every entry is positive: what repeated positive `Record`s build up. */
  ghost predicate AllPositive(m: DayPages)
  {
    forall d :: d in m ==> m[d] > 0
  }

  /** Recording any move on a ledger of positive entries leaves only positive entries. */
  lemma RecordKeepsPositive(m: DayPages, day: Day, pagesRead: int)
    requires AllPositive(m)
    ensures AllPositive(Record(m, day, pagesRead))
  {
  }

  /** Whether the deletion loop touches day `d` (it is one of the deleted book's days
      and `if (readingActivity[date])` holds), among the days `done` it has visited. */
  predicate Touched(m: DayPages, days: DayPages, done: set<Day>, d: Day)
  {
    d in done && d in days && d in m && m[d] != 0
  }

  /** The ledger once the deletion loop has visited the days `done` of the deleted
      book's `days`, in whatever order: each touched entry has the book's pages taken
      off and is dropped if that leaves 0 or less; every other entry is as it was. */
  function DebitOn(m: DayPages, days: DayPages, done: set<Day>): DayPages
  {
    map d | d in m && !(Touched(m, days, done, d) && m[d] - days[d] <= 0) ::
      if Touched(m, days, done, d) then m[d] - days[d] else m[d]
  }

  /** The ledger after a book with reading days `days` is deleted (all its days visited). */
  function Debit(m: DayPages, days: DayPages): (r: DayPages)
    ensures r.Keys <= m.Keys
    ensures forall d :: d !in days || d !in m || m[d] == 0 ==> (d in r <==> d in m) && At(r, d) == At(m, d)
    ensures forall d :: d in days && d in m && m[d] != 0 ==> (d in r <==> m[d] - days[d] > 0)
    ensures forall d :: d in days && d in r && m[d] != 0 ==> r[d] == m[d] - days[d] > 0
  {
    DebitOn(m, days, days.Keys)
  }

  /** One iteration of the deletion loop on day `d`, as the source writes it:
      `if (m[d]) { m[d] -= pages; if (m[d] <= 0) delete m[d]; }` */
  function DebitDay(m: DayPages, d: Day, pages: int): DayPages
  {
    if d in m && m[d] != 0 then
      if m[d] - pages <= 0 then m - {d} else m[d := m[d] - pages]
    else m
  }

  /** Visiting one more day extends the set of visited days, whatever the order. */
  lemma DebitStep(m: DayPages, days: DayPages, done: set<Day>, d: Day)
    requires d in days && d !in done
    ensures DebitDay(DebitOn(m, days, done), d, days[d]) == DebitOn(m, days, done + {d})
  {
    var before := DebitOn(m, days, done);
    assert forall e :: e in before && e != d ==> before[e] == DebitOn(m, days, done + {d})[e];
  }

  /** Taking a book's days off a ledger whose entries are positive leaves only positive entries. */
  lemma DebitKeepsPositive(m: DayPages, days: DayPages)
    requires AllPositive(m)
    ensures AllPositive(Debit(m, days))
  {
  }
}
