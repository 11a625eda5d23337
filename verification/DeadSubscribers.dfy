/** When a subscriber counts as dead. Two times are kept: of the first failure to reach it, and of the last. */
module DeadSubscribers {

  datatype Event = Connected | Failed(time: int) | GiveUp

  /** The two fields; 0 is "not set", -1 "remove as soon as possible". */
  datatype Times = Times(t1: int, t2: int)

  class KvSubscriberBase {
    var t1NoConnection: int
    var t2NoConnection: int
    ghost var history: seq<Event>

    constructor ()
      ensures Valid() && history == []
    {
      t1NoConnection, t2NoConnection, history := 0, 0, [];
    }

    ghost predicate Valid()
      reads this
    {
      Times(t1NoConnection, t2NoConnection) == TimesAfter(history)
    }

    /** Told after each attempt to reach the subscriber. */
    method Connection(connected: bool, removeNow: bool, now: int)
      requires Valid()
      modifies this
      ensures Valid()
      ensures history == old(history) + [if connected then Connected else if removeNow then GiveUp else Failed(now)]
    {
      ghost var event := if connected then Connected else if removeNow then GiveUp else Failed(now);
      assert (history + [event])[..|history|] == history;
      history := history + [event];
      if connected {
        t1NoConnection := 0;
        return;
      }
      if removeNow {
        t1NoConnection := -1;
        t2NoConnection := -1;
        return;
      }
      if t1NoConnection == 0 {
        t1NoConnection := now;
      } else {
        t2NoConnection := now;
      }
    }

    method RemoveThisSubscriber(duration: int) returns (remove: bool)
      requires Valid()
      ensures remove == Verdict(TimesAfter(history), duration)
    {
      if t1NoConnection < 0 && t2NoConnection < 0 {
        return true;
      }
      if t1NoConnection != 0 && t2NoConnection != 0 {
        var dif := t2NoConnection - t1NoConnection;
        if dif < 0 {
          dif := dif * -1;
        }
        if dif >= duration {
          return true;
        }
      }
      return false;
    }
  }

  function TimesAfter(history: seq<Event>): Times {
    if history == [] then Times(0, 0)
    else var t := TimesAfter(history[..|history| - 1]);
         match history[|history| - 1]
         case Connected => Times(0, t.t2)
         case GiveUp => Times(-1, -1)
         case Failed(now) => if t.t1 == 0 then Times(now, t.t2) else Times(t.t1, now)
  }

  function Verdict(t: Times, duration: int): bool {
    (t.t1 < 0 && t.t2 < 0) || (t.t1 != 0 && t.t2 != 0 && Apart(t.t1, t.t2) >= duration)
  }

  function Apart(a: int, b: int): int { if a < b then b - a else a - b }

  // ------------------------------------------------------------------- what it should mean

  /** The failures since the subscriber was last reached. */
  function Outage(history: seq<Event>): seq<int> {
    if history == [] then []
    else match history[|history| - 1]
         case Connected => []
         case GiveUp => Outage(history[..|history| - 1])
         case Failed(now) => Outage(history[..|history| - 1]) + [now]
  }

  function GivenUp(history: seq<Event>): bool {
    history != [] && match history[|history| - 1]
                     case Connected => false
                     case GiveUp => true
                     case Failed(_) => GivenUp(history[..|history| - 1])
  }

  /** The subscriber has been given up, or has not been reached over at least the duration. */
  predicate Dead(history: seq<Event>, duration: int) {
    var outage := Outage(history);
    GivenUp(history) || (outage != [] && outage[|outage| - 1] - outage[0] >= duration)
  }

  /** Clock readings, in order; the clock has long passed any duration. */
  ghost predicate Clocked(history: seq<Event>, duration: int) {
    && (forall i | 0 <= i < |history| && history[i].Failed? :: history[i].time > duration)
    && (forall i, j | 0 <= i < j < |history| && history[i].Failed? && history[j].Failed? ::
        history[i].time <= history[j].time)
  }

  lemma {:induction false} OutageTimes(history: seq<Event>, duration: int)
    requires Clocked(history, duration) && duration > 0
    ensures var t, outage := TimesAfter(history), Outage(history);
            if GivenUp(history) then t.t1 == -1 && (t.t2 == -1 || t.t2 > duration)
            else && (outage == [] ==> t.t1 == 0)
                 && (outage != [] ==> t.t1 == outage[0] > duration)
                 && (|outage| > 1 ==> t.t2 == outage[|outage| - 1] >= outage[0])
    ensures forall x | x in Outage(history) :: exists i | 0 <= i < |history| :: history[i] == Failed(x)
  {
    if history != [] {
      var before, last := history[..|history| - 1], history[|history| - 1];
      OutageTimes(before, duration);
      assert history == before + [last];
      if last.Failed? && Outage(before) != [] {
        assert Outage(before)[0] in Outage(before);
      }
    }
  }

  /** The second time is not cleared when the subscriber is reached again. So the test is right except after
      the first failure of a new outage, when a time left from before, or from giving up, lies far enough off. */
  lemma {:induction false} VerdictRightUnlessStale(history: seq<Event>, duration: int)
    requires Clocked(history, duration) && duration > 0
    ensures var t := TimesAfter(history);
            Verdict(t, duration) == Dead(history, duration) <==>
            GivenUp(history) || |Outage(history)| != 1 || t.t2 == 0 || Apart(t.t1, t.t2) < duration
  {
    OutageTimes(history, duration);
  }

  /** Ten minutes of trouble, recovery, and one failure a day later: removed at once, with a limit of an hour. */
  lemma {:induction false} RemovedAfterOneFailure()
    ensures var history := [Failed(100000), Failed(100600), Connected, Failed(187000)];
            Verdict(TimesAfter(history), 3600) && !Dead(history, 3600)
  {
    var h1 := [Failed(100000)];
    var h2 := h1 + [Failed(100600)];
    var h3 := h2 + [Connected];
    var h4 := h3 + [Failed(187000)];
    assert h1[..0] == [] && h2[..1] == h1 && h3[..2] == h2 && h4[..3] == h3;
    assert TimesAfter(h1) == Times(100000, 0);
    assert TimesAfter(h2) == Times(100000, 100600);
    assert TimesAfter(h3) == Times(0, 100600) && Outage(h3) == [] && !GivenUp(h3);
    assert TimesAfter(h4) == Times(187000, 100600) && Outage(h4) == [187000];
    assert h4 == [Failed(100000), Failed(100600), Connected, Failed(187000)];
  }
}
