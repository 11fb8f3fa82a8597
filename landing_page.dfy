/** The sale countdown of frontend/src/pages/LandingPage.jsx: four fields
    and the once-a-second tick that decrements them with borrowing. */
module LandingPage {

  /** Days, hours, minutes and seconds as one count of seconds. */
  function TotalSeconds(days: int, hours: int, minutes: int, seconds: int): int {
    days * 86400 + hours * 3600 + minutes * 60 + seconds
  }

  class Countdown {
    var days: int
    var hours: int
    var minutes: int
    var seconds: int

    /** The initial `timeLeft`: 5 days, 12 hours, 30 minutes. */
    constructor()
      ensures days == 5 && hours == 12 && minutes == 30 && seconds == 0
      ensures Valid()
    {
      days, hours, minutes, seconds := 5, 12, 30, 0;
    }

    /** The ranges of a clock: no field negative, minutes and seconds
        below 60 and hours below 24. */
    predicate Valid()
      reads this
    {
      days >= 0 && 0 <= hours < 24 && 0 <= minutes < 60 && 0 <= seconds < 60
    }

    function Total(): int
      reads this
    {
      TotalSeconds(days, hours, minutes, seconds)
    }

    predicate Finished()
      reads this
    {
      days == 0 && hours == 0 && minutes == 0 && seconds == 0
    }

    /** One run of the interval's updater: take a second from the lowest
        field that has one, resetting the fields below it to their
        maximum; at zero nothing changes. */
    method Tick()
      modifies this
      ensures old(seconds) > 0 ==>
        seconds == old(seconds) - 1 && minutes == old(minutes) && hours == old(hours) && days == old(days)
      ensures old(seconds) <= 0 && old(minutes) > 0 ==>
        seconds == 59 && minutes == old(minutes) - 1 && hours == old(hours) && days == old(days)
      ensures old(seconds) <= 0 && old(minutes) <= 0 && old(hours) > 0 ==>
        seconds == 59 && minutes == 59 && hours == old(hours) - 1 && days == old(days)
      ensures old(seconds) <= 0 && old(minutes) <= 0 && old(hours) <= 0 && old(days) > 0 ==>
        seconds == 59 && minutes == 59 && hours == 23 && days == old(days) - 1
      ensures old(seconds) <= 0 && old(minutes) <= 0 && old(hours) <= 0 && old(days) <= 0 ==>
        seconds == old(seconds) && minutes == old(minutes) && hours == old(hours) && days == old(days)
      ensures old(Valid()) ==> Valid()
      ensures old(Valid()) && !old(Finished()) ==> Total() == old(Total()) - 1
      ensures old(Valid()) && old(Finished()) ==> Finished()
    {
      var d, h, m, s := days, hours, minutes, seconds;
      if s > 0 {
        s := s - 1;
      } else if m > 0 {
        m := m - 1;
        s := 59;
      } else if h > 0 {
        h := h - 1;
        m := 59;
        s := 59;
      } else if d > 0 {
        d := d - 1;
        h := 23;
        m := 59;
        s := 59;
      }
      days, hours, minutes, seconds := d, h, m, s;
    }
  }

  /** A valid clock is at zero exactly when its total is, so the tick
      counts the total down by one each second until it stops at zero. */
  lemma FinishedIffZero(days: int, hours: int, minutes: int, seconds: int)
    requires days >= 0 && 0 <= hours < 24 && 0 <= minutes < 60 && 0 <= seconds < 60
    ensures TotalSeconds(days, hours, minutes, seconds) >= 0
    ensures TotalSeconds(days, hours, minutes, seconds) == 0 <==>
      days == 0 && hours == 0 && minutes == 0 && seconds == 0
  {
  }
}
