/** The daily reading streak, stored as the date of the last reading day and
    the streak length. Calendar dates are day numbers (days since the epoch,
    in UTC), so "yesterday" is `today - 1`; the empty initial date is `None`. */
module Streaks {
  import opened Common

  datatype StreakData = StreakData(lastDate: Option<int>, currentStreak: int)

  const DefaultStreak: StreakData := StreakData(None, 0)

  /** What `updateStreak` returns, together with the slot it leaves behind. */
  datatype StreakUpdate = StreakUpdate(streak: int, slot: Slot<StreakData>)

  /** Records reading on `today`: unchanged if already recorded today, one
      longer if the last reading day was yesterday, else a new streak of one. */
  function UpdateStreak(slot: Slot<StreakData>, today: int): (r: StreakUpdate)
    ensures var d := Load(slot, DefaultStreak);
            && (d.lastDate == Some(today) ==> r == StreakUpdate(d.currentStreak, slot))
            && (d.lastDate == Some(today - 1) ==> r.streak == d.currentStreak + 1)
            && (d.lastDate != Some(today) && d.lastDate != Some(today - 1) ==> r.streak == 1)
            && (d.lastDate != Some(today) ==> r.slot == Save(slot, StreakData(Some(today), r.streak)))
  {
    var data := Load(slot, DefaultStreak);
    if data.lastDate == Some(today) then
      StreakUpdate(data.currentStreak, slot)
    else
      var streak := if data.lastDate == Some(today - 1) then data.currentStreak + 1 else 1;
      StreakUpdate(streak, Save(slot, StreakData(Some(today), streak)))
  }

  /** The streak still counts while the last reading day is today or
      yesterday; reading never writes. */
  function GetCurrentStreak(slot: Slot<StreakData>, today: int): (n: int)
    ensures var d := Load(slot, DefaultStreak);
            && ((d.lastDate == Some(today) || d.lastDate == Some(today - 1)) ==> n == d.currentStreak)
            && (!(d.lastDate == Some(today) || d.lastDate == Some(today - 1)) ==> n == 0)
  {
    var data := Load(slot, DefaultStreak);
    if data.lastDate == Some(today) || data.lastDate == Some(today - 1) then data.currentStreak else 0
  }

  /** What every stored record written by `UpdateStreak` satisfies. */
  predicate Valid(d: StreakData)
  {
    d.currentStreak >= 0 && (d.lastDate.Some? ==> d.currentStreak >= 1)
  }

  /** After an update the record is dated today, its streak is at least one and
      equals the returned streak, and validity is kept. */
  lemma UpdateStreakWritesToday(slot: Slot<StreakData>, today: int)
    requires Valid(Load(slot, DefaultStreak))
    ensures var r := UpdateStreak(slot, today);
            && r.streak >= 1
            && Load(r.slot, DefaultStreak).currentStreak >= 0
            && Valid(Load(r.slot, DefaultStreak))
            && (slot.Available? ==> r.slot == Available(Some(StreakData(Some(today), r.streak))))
  {
  }

  /** A second update on the same day returns the same streak and writes
      nothing. */
  lemma UpdateStreakIdempotent(slot: Slot<StreakData>, today: int)
    ensures var first := UpdateStreak(slot, today);
            UpdateStreak(first.slot, today) == first
  {
  }

  /** Updates the streak on `n` consecutive days starting at `start`. */
  function UpdateOnDays(slot: Slot<StreakData>, start: int, n: nat): (r: StreakUpdate)
    decreases n
  {
    var first := UpdateStreak(slot, start);
    if n <= 1 then first else UpdateOnDays(first.slot, start + 1, n - 1)
  }

  /** Reading on `n` consecutive days after a streak of `s` that ended the day
      before gives a streak of `s + n`. */
  lemma {:induction false} ConsecutiveDaysExtend(s: int, start: int, n: nat)
    requires n >= 1
    ensures UpdateOnDays(Available(Some(StreakData(Some(start - 1), s))), start, n)
            == StreakUpdate(s + n, Available(Some(StreakData(Some(start + n - 1), s + n))))
    decreases n
  {
    if n > 1 {
      ConsecutiveDaysExtend(s + 1, start + 1, n - 1);
    }
  }

  /** From an empty store, reading on `n` consecutive days gives a streak of
      `n`. */
  lemma ConsecutiveDaysFromEmpty(start: int, n: nat)
    requires n >= 1
    ensures UpdateOnDays(Available(None), start, n).streak == n
  {
    var first := UpdateStreak(Available(None), start);
    assert first == StreakUpdate(1, Available(Some(StreakData(Some(start), 1))));
    if n > 1 {
      ConsecutiveDaysExtend(1, start + 1, n - 1);
    }
  }

  /** Missing a day starts over. */
  lemma MissedDayResets(slot: Slot<StreakData>, today: int, gap: int)
    requires gap >= 2
    requires Load(slot, DefaultStreak).lastDate == Some(today - gap)
    ensures UpdateStreak(slot, today).streak == 1
    ensures GetCurrentStreak(slot, today) == 0
  {
  }

  /** The displayed streak agrees with the update on the day it was made and
      the day after, and has lapsed to zero from the second day after. */
  lemma CurrentStreakAfterUpdate(slot: Slot<StreakData>, today: int, later: int)
    requires slot.Available?
    ensures var r := UpdateStreak(slot, today);
            && GetCurrentStreak(r.slot, today) == r.streak
            && GetCurrentStreak(r.slot, today + 1) == r.streak
            && (later >= today + 2 ==> GetCurrentStreak(r.slot, later) == 0)
  {
  }
}
