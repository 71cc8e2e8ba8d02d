/** Which day the weekly NAV anchor moves (bot/runtime/nav_state.py, bot/risk/caps.py). Times are seconds
    since midnight UTC of a Monday. */
module EngineCalendar {
  import opened Common
  import opened Engine
  import opened Calendar

  function UtcWeekday(now: int): int {
    now / DAY % 7
  }

  /** The tick's dates are those of its clock. */
  predicate Consistent(t: Tick) {
    t.date == IstDate(t.now) && t.utcWeekday == UtcWeekday(t.now)
  }

  /** The day rolls at IST midnight, the week by the UTC weekday. A roll within the first five and a half
      hours of an IST day moves the weekly anchor exactly on Tuesdays, a later one exactly on Mondays. So
      while the loop keeps ticking through midnight, Monday still counts against last week's anchor. */
  lemma WeeklyAnchor(s: State, t: Tick)
    requires Consistent(t) && s.lastDate.Some? && s.lastDate.value < t.date
    ensures var early := (t.now + IST_OFFSET) % DAY < IST_OFFSET;
            Roll(s, t).nav.openWeek == if t.date % 7 == (if early then 1 else 0) then s.nav.now else s.nav.openWeek
    ensures Roll(s, t).nav.openToday == s.nav.now
  {
    var x := t.now + IST_OFFSET;
    assert x == x / DAY * DAY + x % DAY;
    if x % DAY < IST_OFFSET {
      assert t.now / DAY == t.date - 1;
    } else {
      assert t.now / DAY == t.date;
    }
  }

  /** The anchors move only on the first tick of a later date than the last one seen: not on the first tick of a
      process, not twice on one date, and not if the clock goes back. */
  lemma RollsOncePerDate(s: State, t: Tick)
    ensures Roll(s, t).lastDate == Some(t.date)
    ensures s.lastDate.None? || t.date <= s.lastDate.value ==> Roll(s, t).nav == s.nav
    ensures s.lastDate.Some? && s.lastDate.value < t.date ==> Roll(s, t).nav.openToday == s.nav.now
    ensures forall u: Tick :: u.date == t.date ==> Roll(Roll(s, t), u) == Roll(s, t)
  {
  }
}
