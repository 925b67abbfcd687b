/** The achievement badges: five flags kept in local storage, unlocked by a
    reading streak or a total chapter count and never withdrawn. */
module Badges {
  import opened Common

  datatype BadgeData = BadgeData(
    sevenDayStreak: bool,
    thirtyChapters: bool,
    fiftyChapters: bool,
    hundredChapters: bool,
    completeBook: bool)

  const NoBadges: BadgeData := BadgeData(false, false, false, false, false)

  const StreakBadgeDays: int := 7
  const ThirtyChapters: int := 30
  const FiftyChapters: int := 50
  const HundredChapters: int := 100

  /** Every badge held in `a` is held in `b`. */
  predicate Includes(b: BadgeData, a: BadgeData)
  {
    && (a.sevenDayStreak ==> b.sevenDayStreak)
    && (a.thirtyChapters ==> b.thirtyChapters)
    && (a.fiftyChapters ==> b.fiftyChapters)
    && (a.hundredChapters ==> b.hundredChapters)
    && (a.completeBook ==> b.completeBook)
  }

  /** The badges held after an achievement of `totalChapters` chapters and a
      `streak`-day streak: each threshold badge is held iff it was already
      held or its threshold is met; the book badge is left as it was. */
  function Unlock(b: BadgeData, totalChapters: int, streak: int): (r: BadgeData)
    ensures r.sevenDayStreak <==> b.sevenDayStreak || streak >= StreakBadgeDays
    ensures r.thirtyChapters <==> b.thirtyChapters || totalChapters >= ThirtyChapters
    ensures r.fiftyChapters <==> b.fiftyChapters || totalChapters >= FiftyChapters
    ensures r.hundredChapters <==> b.hundredChapters || totalChapters >= HundredChapters
    ensures r.completeBook == b.completeBook
    ensures Includes(r, b)
  {
    b.(sevenDayStreak := b.sevenDayStreak || streak >= StreakBadgeDays,
       thirtyChapters := b.thirtyChapters || totalChapters >= ThirtyChapters,
       fiftyChapters := b.fiftyChapters || totalChapters >= FiftyChapters,
       hundredChapters := b.hundredChapters || totalChapters >= HundredChapters)
  }

  /** The stored badges, none held when nothing is stored or on the server. */
  function GetBadges(slot: Slot<BadgeData>): (b: BadgeData)
    ensures slot.Available? && slot.stored.Some? ==> b == slot.stored.value
    ensures !(slot.Available? && slot.stored.Some?) ==> b == NoBadges
  {
    Load(slot, NoBadges)
  }

  /** What `updateBadges` returns, together with the slot it leaves behind. */
  datatype BadgeUpdate = BadgeUpdate(badges: BadgeData, slot: Slot<BadgeData>)

  /** Unlocks against the stored badges and saves the result. */
  function UpdateBadges(slot: Slot<BadgeData>, totalChapters: int, streak: int): (r: BadgeUpdate)
    ensures r.badges.sevenDayStreak <==> GetBadges(slot).sevenDayStreak || streak >= StreakBadgeDays
    ensures r.badges.thirtyChapters <==> GetBadges(slot).thirtyChapters || totalChapters >= ThirtyChapters
    ensures r.badges.fiftyChapters <==> GetBadges(slot).fiftyChapters || totalChapters >= FiftyChapters
    ensures r.badges.hundredChapters <==> GetBadges(slot).hundredChapters || totalChapters >= HundredChapters
    ensures Includes(r.badges, GetBadges(slot))
    ensures r.badges.completeBook == GetBadges(slot).completeBook
    ensures r.slot.Available? <==> slot.Available?
    ensures slot.Available? ==> GetBadges(r.slot) == r.badges
    ensures slot.Unavailable? ==> r.badges == Unlock(NoBadges, totalChapters, streak)
  {
    var badges := Unlock(GetBadges(slot), totalChapters, streak);
    BadgeUpdate(badges, Save(slot, badges))
  }

  /** The chapter badges nest: a hundred implies fifty implies thirty. */
  predicate Nested(b: BadgeData)
  {
    (b.hundredChapters ==> b.fiftyChapters) && (b.fiftyChapters ==> b.thirtyChapters)
  }

  /** Unlocking keeps the chapter badges nested. */
  lemma UnlockKeepsNested(b: BadgeData, totalChapters: int, streak: int)
    requires Nested(b)
    ensures Nested(Unlock(b, totalChapters, streak))
  {
  }

  /** Two unlocks in a row amount to one with the larger of each achievement. */
  lemma UnlockMerges(b: BadgeData, t1: int, s1: int, t2: int, s2: int)
    ensures Unlock(Unlock(b, t1, s1), t2, s2)
            == Unlock(b, if t1 >= t2 then t1 else t2, if s1 >= s2 then s1 else s2)
  {
  }

  /** Repeating an update with the same achievement changes nothing further. */
  lemma UpdateBadgesIdempotent(slot: Slot<BadgeData>, totalChapters: int, streak: int)
    ensures var first := UpdateBadges(slot, totalChapters, streak);
            UpdateBadges(first.slot, totalChapters, streak) == first
  {
  }

  /** Applies one update per `(totalChapters, streak)` pair, in order. */
  function UpdateAll(slot: Slot<BadgeData>, achievements: seq<(int, int)>): Slot<BadgeData>
    decreases |achievements|
  {
    if |achievements| == 0 then slot
    else UpdateAll(UpdateBadges(slot, achievements[0].0, achievements[0].1).slot, achievements[1..])
  }

  /** Starting from no badges, any run of updates keeps the chapter badges
      nested and never awards the book badge, which nothing unlocks. */
  lemma {:induction false} UpdateAllNeverCompletesBook(slot: Slot<BadgeData>, achievements: seq<(int, int)>)
    requires Nested(GetBadges(slot)) && !GetBadges(slot).completeBook
    ensures Nested(GetBadges(UpdateAll(slot, achievements)))
    ensures !GetBadges(UpdateAll(slot, achievements)).completeBook
    decreases |achievements|
  {
    if |achievements| > 0 {
      var next := UpdateBadges(slot, achievements[0].0, achievements[0].1);
      UnlockKeepsNested(GetBadges(slot), achievements[0].0, achievements[0].1);
      UpdateAllNeverCompletesBook(next.slot, achievements[1..]);
    }
  }

  /** Badges only accumulate across any run of updates. */
  lemma {:induction false} UpdateAllMonotone(slot: Slot<BadgeData>, achievements: seq<(int, int)>)
    ensures Includes(GetBadges(UpdateAll(slot, achievements)), GetBadges(slot))
    decreases |achievements|
  {
    if |achievements| > 0 {
      var next := UpdateBadges(slot, achievements[0].0, achievements[0].1);
      UpdateAllMonotone(next.slot, achievements[1..]);
    }
  }
}
