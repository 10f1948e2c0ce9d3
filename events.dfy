/** The three-lane event queue every actor reads from (`src/events.rs`).

    The flume channels become sequence fields of the queue object, the
    `BTreeMap` of timers a `map` keyed by instant, the clock an explicit
    `now` parameter, and `select!` a choice among the sources that are ready
    at `now`. */
module Events {
  import opened Wrappers

  /** Instants and durations, in milliseconds. */
  type Instant = nat

  /** The outcome of awaiting `recv_async` at one instant: the event it
      resolves with, or `Pending` when no source is ready yet. */
  datatype Poll<E> = Ready(event: E) | Pending

  /** The sources `select!` races once neither an urgent event nor a due
      timer is waiting. */
  datatype Source = NormalLane | TimerLane

  /** `BTreeMap::insert` of each entry in turn. */
  function InsertAll<E>(m: map<Instant, E>, es: seq<(Instant, E)>): (r: map<Instant, E>)
    decreases |es|
  {
    if es == [] then m else InsertAll(m[es[0].0 := es[0].1], es[1..])
  }

  /** An instant that no entry of `es` is scheduled at keeps its old entry,
      or stays absent. */
  lemma {:induction false} InsertAllElsewhere<E>(m: map<Instant, E>, es: seq<(Instant, E)>, k: Instant)
    requires forall i :: 0 <= i < |es| ==> es[i].0 != k
    ensures k in InsertAll(m, es) <==> k in m
    ensures k in m ==> InsertAll(m, es)[k] == m[k]
    decreases |es|
  {
    if es != [] {
      InsertAllElsewhere(m[es[0].0 := es[0].1], es[1..], k);
    }
  }

  /** The last entry scheduled at an instant wins: it overwrites the earlier
      ones and whatever the map held. */
  lemma {:induction false} InsertAllLastWins<E>(m: map<Instant, E>, es: seq<(Instant, E)>, i: nat)
    requires i < |es|
    requires forall j :: i < j < |es| ==> es[j].0 != es[i].0
    ensures es[i].0 in InsertAll(m, es) && InsertAll(m, es)[es[i].0] == es[i].1
    decreases |es|
  {
    if i == 0 {
      InsertAllElsewhere(m[es[0].0 := es[0].1], es[1..], es[0].0);
    } else {
      InsertAllLastWins(m[es[0].0 := es[0].1], es[1..], i - 1);
    }
  }

  predicate IsLeast(k: Instant, s: set<Instant>) {
    k in s && forall j :: j in s ==> k <= j
  }

  lemma {:induction false} LeastExists(s: set<Instant>)
    requires s != {}
    ensures exists k :: IsLeast(k, s)
  {
    var x :| x in s;
    if s == {x} {
      assert IsLeast(x, s);
    } else {
      LeastExists(s - {x});
      var k :| IsLeast(k, s - {x});
      var lo := if x < k then x else k;
      forall j | j in s ensures lo <= j {
        if j != x {
          assert j in s - {x};
        }
      }
      assert IsLeast(lo, s);
    }
  }

  /** The first key of a `BTreeMap`: the least instant, or `None` exactly
      when there is no timer. */
  function Earliest<E>(m: map<Instant, E>): (r: Option<Instant>)
    ensures r.None? <==> m.Keys == {}
    ensures r.Some? ==> IsLeast(r.value, m.Keys)
  {
    if m.Keys == {} then None
    else
      LeastExists(m.Keys);
      var k :| IsLeast(k, m.Keys);
      Some(k)
  }

  /** Some timer's instant is strictly before `now` (`next_timed_event`'s test). */
  predicate DueBefore<E>(m: map<Instant, E>, now: Instant) {
    Earliest(m).Some? && Earliest(m).value < now
  }

  /** Some timer's instant is `now` or earlier (`delay_until` has completed). */
  predicate Reached<E>(m: map<Instant, E>, now: Instant) {
    Earliest(m).Some? && Earliest(m).value <= now
  }

  /** `EventQueue<E>`: an owner-only receiving end. */
  class EventQueue<E> {
    /** Events sent with `send_with_urgency`, oldest first. */
    var urgent: seq<E>
    /** Events sent with `send`, oldest first. */
    var normal: seq<E>
    /** `(deadline, event)` pairs sent with `send_with_delay`, not yet moved
        into `timers`. */
    var timerLane: seq<(Instant, E)>
    /** Scheduled events by deadline; one event per instant. */
    var timers: map<Instant, E>

    /** `EventQueue::default()`: every lane empty, no timer. */
    constructor ()
      ensures urgent == [] && normal == [] && timerLane == [] && timers == map[]
    {
      urgent, normal, timerLane, timers := [], [], [], map[];
    }

    /** The timers once every pending timer entry has been moved in. */
    function Drained(): map<Instant, E>
      reads this
    {
      InsertAll(timers, timerLane)
    }

    /** `enque_timers`: drain the timer lane into `timers`, in arrival order. */
    method EnqueTimers()
      modifies this
      ensures timerLane == [] && timers == old(Drained())
      ensures urgent == old(urgent) && normal == old(normal)
    {
      while timerLane != []
        invariant InsertAll(timers, timerLane) == old(Drained())
        invariant urgent == old(urgent) && normal == old(normal)
        decreases |timerLane|
      {
        var (when, event) := timerLane[0];
        timerLane := timerLane[1..];
        timers := timers[when := event];
      }
    }

    /** `next_instant`: the earliest scheduled instant. */
    function NextInstant(): (r: Option<Instant>)
      reads this
      ensures r.None? <==> timers.Keys == {}
      ensures r.Some? ==> r.value in timers && forall k :: k in timers ==> r.value <= k
    {
      Earliest(timers)
    }

    /** `next_timed_event`: take the earliest timer out only if its instant
        is strictly before `now`. */
    method NextTimedEvent(now: Instant) returns (r: Option<E>)
      modifies this
      ensures var e := Earliest(old(timers));
        if DueBefore(old(timers), now) then
          r == Some(old(timers)[e.value]) && timers == old(timers) - {e.value}
        else
          r == None && timers == old(timers)
      ensures urgent == old(urgent) && normal == old(normal) && timerLane == old(timerLane)
    {
      var next := NextInstant();
      if next.Some? && next.value < now {
        r := Some(timers[next.value]);
        timers := timers - {next.value};
      } else {
        r := None;
      }
    }

    /** `recv_async`, resolved at instant `now`: urgent first; then a timer
        that is already overdue; then whichever of the normal lane and the
        earliest timer is ready. */
    method RecvAsync(now: Instant) returns (r: Poll<E>)
      modifies this
      ensures timerLane == []
      ensures old(urgent) != [] ==>
        r == Ready(old(urgent)[0]) && urgent == old(urgent)[1..]
        && normal == old(normal) && timers == old(Drained())
      ensures old(urgent) == [] ==> urgent == []
      ensures old(urgent) == [] && DueBefore(old(Drained()), now) ==>
        var t := Earliest(old(Drained())).value;
        r == Ready(old(Drained())[t]) && timers == old(Drained()) - {t} && normal == old(normal)
      ensures old(urgent) == [] && !DueBefore(old(Drained()), now) ==>
        || (r == Pending && normal == old(normal) && timers == old(Drained()))
        || (old(normal) != [] && r == Ready(old(normal)[0])
            && normal == old(normal)[1..] && timers == old(Drained()))
        || (Reached(old(Drained()), now)
            && var t := Earliest(old(Drained())).value;
               r == Ready(old(Drained())[t]) && timers == old(Drained()) - {t}
               && normal == old(normal))
      ensures r == Pending ==>
        old(urgent) == [] && old(normal) == [] && !Reached(old(Drained()), now)
    {
      EnqueTimers();
      if urgent != [] {
        r := Ready(urgent[0]);
        urgent := urgent[1..];
      } else {
        var timed := NextTimedEvent(now);
        if timed.Some? {
          r := Ready(timed.value);
        } else {
          // `select!`: the urgent lane is empty here, so the race is between
          // the normal lane and the delay until the earliest instant.
          var next := NextInstant();
          var ready: set<Source> :=
            (if normal != [] then {NormalLane} else {})
            + (if next.Some? && next.value <= now then {TimerLane} else {});
          if ready == {} {
            r := Pending;
          } else {
            var source :| source in ready;
            if source == NormalLane {
              r := Ready(normal[0]);
              normal := normal[1..];
            } else {
              r := Ready(timers[next.value]);
              timers := timers - {next.value};
            }
          }
        }
      }
    }
  }

  /** `EventSender<E>`: a cloneable handle that feeds one queue's lanes.
      `EventQueue::sender()` is modelled by constructing one over the queue. */
  class EventSender<E> {
    const queue: EventQueue<E>

    constructor (q: EventQueue<E>)
      ensures queue == q
    {
      queue := q;
    }

    /** `send`: append to the normal lane. */
    method Send(event: E)
      modifies queue
      ensures queue.normal == old(queue.normal) + [event]
      ensures queue.urgent == old(queue.urgent) && queue.timerLane == old(queue.timerLane)
      ensures queue.timers == old(queue.timers)
    {
      queue.normal := queue.normal + [event];
    }

    /** `send_with_urgency`: append to the urgent lane. */
    method SendWithUrgency(event: E)
      modifies queue
      ensures queue.urgent == old(queue.urgent) + [event]
      ensures queue.normal == old(queue.normal) && queue.timerLane == old(queue.timerLane)
      ensures queue.timers == old(queue.timers)
    {
      queue.urgent := queue.urgent + [event];
    }

    /** `send_with_delay`: append `(now + after, event)` to the timer lane. */
    method SendWithDelay(event: E, after: nat, now: Instant)
      modifies queue
      ensures queue.timerLane == old(queue.timerLane) + [(now + after, event)]
      ensures queue.urgent == old(queue.urgent) && queue.normal == old(queue.normal)
      ensures queue.timers == old(queue.timers)
    {
      queue.timerLane := queue.timerLane + [(now + after, event)];
    }

    /** `clone`: a new handle on the same lanes. */
    method Clone() returns (c: EventSender<E>)
      ensures fresh(c) && c.queue == queue
    {
      c := new EventSender(queue);
    }
  }

  /** An urgent event overtakes a normal one sent before it. */
  method UrgentOvertakesNormal(plain: int, pressing: int, now: Instant) returns (first: Poll<int>, second: Poll<int>)
    ensures first == Ready(pressing) && second == Ready(plain)
  {
    var q := new EventQueue<int>();
    var tx := new EventSender(q);
    tx.Send(plain);
    tx.SendWithUrgency(pressing);
    first := q.RecvAsync(now);
    second := q.RecvAsync(now);
  }

  /** A delayed event is not handed out before its deadline, even when
      nothing else is waiting, and is once the deadline is reached. */
  method DelayedEventWaits(timed: int, after: nat, sent: Instant) returns (early: Poll<int>, onTime: Poll<int>)
    requires after >= 1
    ensures early == Pending && onTime == Ready(timed)
  {
    var q := new EventQueue<int>();
    var tx := new EventSender(q);
    tx.SendWithDelay(timed, after, sent);
    assert InsertAll(map[], q.timerLane) == InsertAll(map[sent + after := timed], []);
    assert q.Drained().Keys == {sent + after};
    early := q.RecvAsync(sent + after - 1);
    assert q.Drained() == map[sent + after := timed];
    onTime := q.RecvAsync(sent + after);
  }

  /** An overdue delayed event goes ahead of a normal event sent after it. */
  method OverdueEventGoesFirst(timed: int, plain: int, after: nat, sent: Instant, now: Instant)
    returns (first: Poll<int>, second: Poll<int>)
    requires sent + after < now
    ensures first == Ready(timed) && second == Ready(plain)
  {
    var q := new EventQueue<int>();
    var tx := new EventSender(q);
    tx.SendWithDelay(timed, after, sent);
    tx.Send(plain);
    assert InsertAll(map[], q.timerLane) == InsertAll(map[sent + after := timed], []);
    assert q.Drained().Keys == {sent + after};
    first := q.RecvAsync(now);
    second := q.RecvAsync(now);
  }
}
