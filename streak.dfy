/** The reading streak: walking back from today, the number of consecutive days
    whose ledger entry is present and non-zero (`if (readingActivity[dateStr])`). */
module Streak {
  import opened Calendar
  import opened Activity

  /** Day `d` has a truthy ledger entry. */
  predicate Active(m: DayPages, d: Day)
  {
    d in m && m[d] != 0
  }

  /** The ledger's days at or before `cursor`: how many steps the walk can still take. */
  ghost function KeysUpTo(m: DayPages, cursor: Day): set<Day>
  {
    set d | d in m && d <= cursor
  }

  /** One step back from an active day leaves one key fewer at or before the cursor. */
  lemma KeysUpToStep(m: DayPages, cursor: Day)
    requires Active(m, cursor)
    ensures |KeysUpTo(m, cursor - 1)| == |KeysUpTo(m, cursor)| - 1
  {
    assert KeysUpTo(m, cursor - 1) == KeysUpTo(m, cursor) - {cursor};
  }

  lemma KeysUpToBound(m: DayPages, cursor: Day)
    ensures |KeysUpTo(m, cursor)| <= |m|
  {
    SubsetSize(KeysUpTo(m, cursor), m.Keys);
  }

  lemma SubsetSize(a: set<Day>, b: set<Day>)
    requires a <= b
    ensures |a| <= |b|
  {
    assert b == a + (b - a);
    assert a * (b - a) == {};
  }

  /** The streak ending at `today`: the days today, today-1, ..., today-(k-1) are all
      active and today-k is not. */
  ghost function StreakAt(m: DayPages, today: Day): (k: nat)
    ensures forall d :: today - k < d <= today ==> Active(m, d)
    ensures !Active(m, today - k)
    ensures k <= |KeysUpTo(m, today)|
    decreases |KeysUpTo(m, today)|
  {
    if Active(m, today) then
      KeysUpToStep(m, today);
      1 + StreakAt(m, today - 1)
    else 0
  }

  /** `updateStreak`: the backward walk from the UTC day of `now`. */
  method UpdateStreak(m: DayPages, now: Instant) returns (streak: nat)
    ensures streak == StreakAt(m, DayOf(now))
    ensures forall d :: DayOf(now) - streak < d <= DayOf(now) ==> Active(m, d)
    ensures !Active(m, DayOf(now) - streak)
    ensures streak <= |m|
  {
    var today := DayOf(now);
    streak := 0;
    var checkDate := today;
    KeysUpToBound(m, today);
    while true
      invariant checkDate == today - streak
      invariant streak + StreakAt(m, checkDate) == StreakAt(m, today)
      invariant streak + |KeysUpTo(m, checkDate)| <= |m|
      decreases |KeysUpTo(m, checkDate)|
    {
      if checkDate in m && m[checkDate] != 0 {
        KeysUpToStep(m, checkDate);
        streak := streak + 1;
        checkDate := checkDate - 1;
      } else {
        break;
      }
    }
  }

  /** A ledger active on every day `m` is active on has a streak at least as long. */
  lemma {:induction false} StreakMonotone(m: DayPages, m': DayPages, today: Day)
    requires forall d :: Active(m, d) ==> Active(m', d)
    ensures StreakAt(m', today) >= StreakAt(m, today)
    decreases |KeysUpTo(m, today)|
  {
    if Active(m, today) {
      KeysUpToStep(m, today);
      StreakMonotone(m, m', today - 1);
    }
  }

  /** Recording pages read today on a ledger of positive entries makes today active and
      never shortens the streak. */
  lemma RecordKeepsStreak(m: DayPages, today: Day, pagesRead: int)
    requires AllPositive(m) && pagesRead > 0
    ensures StreakAt(Record(m, today, pagesRead), today) >= 1
    ensures StreakAt(Record(m, today, pagesRead), today) >= StreakAt(m, today)
  {
    var m' := Record(m, today, pagesRead);
    assert Active(m', today);
    StreakMonotone(m, m', today);
  }

  /** With pages read on 9 and 10 January 2024 (days 19731 and 19732), the streak on
      the 10th is 2; on the 11th, before anything is read, it is already 0. */
  lemma StreakExample()
    ensures StreakAt(map[19731 := 3, 19732 := 5], 19732) == 2
    ensures StreakAt(map[19731 := 3, 19732 := 5], 19733) == 0
  {
    var m := map[19731 := 3, 19732 := 5];
    assert Active(m, 19732) && Active(m, 19731) && !Active(m, 19730);
  }
}
