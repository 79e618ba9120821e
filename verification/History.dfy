/** A conversation's recent turns: how many are kept, and the schedule they are dropped on. */
module History {
  import opened Messages

  // ---- when ----

  /** Local midnight: at or before the time it is asked about, and later for a later day.
      Instants count from Go's zero time, which comes before any clock's. */
  ghost predicate IsCalendar(midnight: int -> int) {
    && (forall t: int :: t > 0 ==> 0 < midnight(t) <= t)
    && (forall t: int, u: int :: 0 < t <= u ==> midnight(t) == midnight(u) || t < midnight(u))
  }

  /** The latest scheduled reset, counting whole intervals from the day's midnight. */
  function Boundary(midnight: int -> int, every: int, now: int): int
    requires every > 0
  {
    midnight(now) + (now - midnight(now)) / every * every
  }

  lemma Intervals(since: int, every: int)
    requires every > 0 && since >= 0
    ensures 0 <= since / every * every <= since < since / every * every + every
  {
  }

  lemma MulOrder(a: int, b: int, every: int)
    requires every > 0
    ensures a <= b ==> a * every <= b * every
  {
    if a <= b { assert (b - a) * every >= 0; }
  }

  lemma IntervalsMonotone(a: int, b: int, every: int)
    requires every > 0 && 0 <= a <= b
    ensures a / every * every <= b / every * every
  {
    var m, n := a / every, b / every;
    Intervals(a, every);
    Intervals(b, every);
    MulOrder(n + 1, m, every);
    MulOrder(m, n, every);
  }

  /** At or before now and less than an interval old, whether or not intervals divide the day. */
  lemma BoundaryIsLatest(midnight: int -> int, every: int, now: int)
    requires IsCalendar(midnight) && every > 0 && now > 0
    ensures 0 < midnight(now) <= Boundary(midnight, every, now) <= now < Boundary(midnight, every, now) + every
    ensures exists n: nat :: Boundary(midnight, every, now) == midnight(now) + n * every
  {
    Intervals(now - midnight(now), every);
    var n: nat := (now - midnight(now)) / every;
    assert Boundary(midnight, every, now) == midnight(now) + n * every;
  }

  /** The schedule never goes back. */
  lemma BoundaryMonotone(midnight: int -> int, every: int, now: int, later: int)
    requires IsCalendar(midnight) && every > 0 && 0 < now <= later
    ensures Boundary(midnight, every, now) <= Boundary(midnight, every, later)
  {
    BoundaryIsLatest(midnight, every, now);
    BoundaryIsLatest(midnight, every, later);
    if midnight(now) == midnight(later) {
      IntervalsMonotone(now - midnight(now), later - midnight(now), every);
    }
  }

  // ---- the ring ----

  function LastN<T>(s: seq<T>, n: nat): seq<T> {
    if |s| > n then s[|s| - n..] else s
  }

  /** The last of all there were, as many as there is room for. */
  ghost predicate Newest<T>(kept: seq<T>, all: seq<T>, room: nat) {
    |kept| == (if |all| < room then |all| else room) && kept == all[|all| - |kept|..]
  }

  lemma LastNIsNewest<T>(all: seq<T>, n: nat)
    ensures Newest(LastN(all, n), all, n)
  {
  }

  datatype Ring = Ring(buf: seq<TurnRecord>, since: int)

  function Added(r: Ring, max: nat, t: TurnRecord): Ring {
    r.(buf := LastN(r.buf + [t], max))
  }

  /** The boundary is adopted whether or not there is anything to drop. */
  function ResetTo(r: Ring, boundary: int): Ring {
    if r.since < boundary then Ring([], boundary) else r
  }

  predicate Drops(r: Ring, boundary: int) {
    r.since < boundary && r.buf != []
  }

  class HistoryRing {
    var buf: seq<TurnRecord>
    const max: nat
    var since: int

    function Contents(): Ring
      reads this
    {
      Ring(buf, since)
    }

    constructor (max: nat)
      ensures Contents() == Ring([], 0) && this.max == max
    {
      buf, since := [], 0;
      this.max := max;
    }

    method Add(user: string, assistant: string)
      modifies this
      ensures Contents() == Added(old(Contents()), max, TurnRecord(user, assistant))
      ensures since == old(since) && Newest(buf, old(buf) + [TurnRecord(user, assistant)], max)
    {
      buf := buf + [TurnRecord(user, assistant)];
      if |buf| > max {
        buf := buf[|buf| - max..];
      }
    }

    method ResetIfDue(boundary: int) returns (dropped: bool)
      modifies this
      ensures Contents() == ResetTo(old(Contents()), boundary)
      ensures dropped <==> old(Drops(Contents(), boundary))
      ensures dropped <==> buf != old(buf)
      ensures since == (if old(since) < boundary then boundary else old(since))
    {
      if since >= boundary {
        return false;
      }
      since := boundary;
      if |buf| == 0 {
        return false;
      }
      buf := [];
      return true;
    }

    method MaybeReset(midnight: int -> int, every: int, now: int) returns (tell: bool)
      modifies this
      ensures every <= 0 ==> !tell && Contents() == old(Contents())
      ensures every > 0 ==> Contents() == ResetTo(old(Contents()), Boundary(midnight, every, now))
      ensures every > 0 ==> (tell <==> old(Drops(Contents(), Boundary(midnight, every, now))))
    {
      if every <= 0 {
        return false;
      }
      tell := ResetIfDue(Boundary(midnight, every, now));
    }
  }

  // ---- a conversation over time ----

  datatype Settings = Settings(midnight: int -> int, every: int, max: nat)
  {
    ghost predicate Ok() { IsCalendar(midnight) && every > 0 }
  }

  /** A message is only heard, a turn begins, or its answer is delivered. */
  datatype Event = Hear(at: int, said: TurnRecord) | Begin(at: int) | Deliver(at: int, said: TurnRecord)

  datatype Stamped = Stamped(at: int, said: TurnRecord)

  /** `log` is everything recorded since the last clearing; `told` the resets announced. */
  datatype Conversation = Conversation(ring: Ring, log: seq<Stamped>, told: seq<int>, now: int)

  const NEW := Conversation(Ring([], 0), [], [], 0)

  function Records(log: seq<Stamped>): seq<TurnRecord> {
    seq(|log|, i requires 0 <= i < |log| => log[i].said)
  }

  function Next(g: Settings, c: Conversation, e: Event): Conversation
    requires g.every > 0
  {
    match e
    case Hear(at, said) => Conversation(Added(c.ring, g.max, said), c.log + [Stamped(at, said)], c.told, at)
    case Deliver(at, said) => Conversation(Added(c.ring, g.max, said), c.log + [Stamped(at, said)], c.told, at)
    case Begin(at) =>
      var b := Boundary(g.midnight, g.every, at);
      Conversation(ResetTo(c.ring, b), if c.ring.since < b then [] else c.log,
                   if Drops(c.ring, b) then c.told + [b] else c.told, at)
  }

  /** Events in the order of a clock that does not go back. */
  predicate Follows(c: Conversation, e: Event) { e.at > 0 && c.now <= e.at }

  predicate InOrder(c: Conversation, events: seq<Event>) {
    forall i :: 0 <= i < |events| ==>
      events[i].at > 0 && (if i == 0 then c.now else events[i - 1].at) <= events[i].at
  }

  function Run(g: Settings, c: Conversation, events: seq<Event>): Conversation
    requires g.every > 0
  {
    if events == [] then c else Next(g, Run(g, c, events[..|events| - 1]), events[|events| - 1])
  }

  ghost predicate Increasing(s: seq<int>) {
    forall i, j :: 0 <= i < j < |s| ==> s[i] < s[j]
  }

  /** No boundary still to come is before the one the ring is reset to. */
  ghost predicate NotAhead(g: Settings, c: Conversation)
    requires g.every > 0
  {
    forall t: int :: t > 0 && c.now <= t ==> c.ring.since <= Boundary(g.midnight, g.every, t)
  }

  ghost predicate Inv(g: Settings, c: Conversation)
    requires g.every > 0
  {
    && c.ring.buf == LastN(Records(c.log), g.max)
    && (forall r :: r in c.log ==> c.ring.since <= r.at <= c.now)
    && NotAhead(g, c)
    && c.ring.since <= c.now
    && Increasing(c.told)
    && (forall b :: b in c.told ==> b <= c.ring.since)
  }

  lemma RecordsOneMore(log: seq<Stamped>, r: Stamped, max: nat)
    ensures LastN(Records(log + [r]), max) == LastN(LastN(Records(log), max) + [r.said], max)
  {
    assert Records(log + [r]) == Records(log) + [r.said];
  }

  lemma RecordingKeeps(g: Settings, c: Conversation, e: Event)
    requires g.Ok() && Inv(g, c) && Follows(c, e) && !e.Begin?
    ensures Inv(g, Next(g, c, e))
  {
    hide Boundary, LastN, Records;
    RecordsOneMore(c.log, Stamped(e.at, e.said), g.max);
    assert forall t: int :: t > 0 && e.at <= t ==> c.ring.since <= Boundary(g.midnight, g.every, t);
  }

  lemma NoneBefore(g: Settings, at: int)
    requires g.Ok() && at > 0
    ensures Boundary(g.midnight, g.every, at) <= at
    ensures forall t: int :: t > 0 && at <= t ==> Boundary(g.midnight, g.every, at) <= Boundary(g.midnight, g.every, t)
  {
    BoundaryIsLatest(g.midnight, g.every, at);
    forall t: int | t > 0 && at <= t
      ensures Boundary(g.midnight, g.every, at) <= Boundary(g.midnight, g.every, t)
    {
      BoundaryMonotone(g.midnight, g.every, at, t);
    }
  }

  lemma NothingRecorded(max: nat)
    ensures LastN(Records([]), max) == []
  {
  }

  lemma BeginKeeps(g: Settings, c: Conversation, e: Event)
    requires g.Ok() && Inv(g, c) && Follows(c, e) && e.Begin?
    ensures Inv(g, Next(g, c, e))
  {
    hide Boundary, IsCalendar, LastN, Records;
    NoneBefore(g, e.at);
    NothingRecorded(g.max);
    forall i | 0 <= i < |c.told| ensures c.told[i] <= c.ring.since { assert c.told[i] in c.told; }
  }

  lemma StepKeeps(g: Settings, c: Conversation, e: Event)
    requires g.Ok() && Inv(g, c) && Follows(c, e)
    ensures Inv(g, Next(g, c, e)) && Next(g, c, e).now == e.at
  {
    if e.Begin? { BeginKeeps(g, c, e); } else { RecordingKeeps(g, c, e); }
  }

  /** Over every run the ring holds the last turns recorded since it was last cleared, every
      one of them recorded at or after the boundary it was cleared at, and each boundary is
      announced once at most. */
  lemma {:induction false} RunKeeps(g: Settings, events: seq<Event>)
    requires g.Ok() && InOrder(NEW, events)
    ensures Inv(g, Run(g, NEW, events))
    ensures events != [] ==> Run(g, NEW, events).now == events[|events| - 1].at
    ensures events == [] ==> Run(g, NEW, events) == NEW
  {
    if events == [] {
      forall t: int | t > 0 ensures 0 <= Boundary(g.midnight, g.every, t) { BoundaryIsLatest(g.midnight, g.every, t); }
    } else {
      var before := events[..|events| - 1];
      RunKeeps(g, before);
      StepKeeps(g, Run(g, NEW, before), events[|events| - 1]);
    }
  }

  /** A turn that begins is given nothing recorded before the latest scheduled reset. */
  lemma NothingOlderSurvives(g: Settings, events: seq<Event>, at: int)
    requires g.Ok() && InOrder(NEW, events + [Begin(at)])
    ensures var c := Run(g, NEW, events + [Begin(at)]);
            && c.ring.since == Boundary(g.midnight, g.every, at)
            && c.ring.buf == LastN(Records(c.log), g.max)
            && forall r :: r in c.log ==> Boundary(g.midnight, g.every, at) <= r.at
  {
    var all := events + [Begin(at)];
    assert all[..|all| - 1] == events;
    forall i | 0 <= i < |events| ensures events[i] == all[i] {
    }
    RunKeeps(g, events);
    RunKeeps(g, all);
    assert Follows(Run(g, NEW, events), Begin(at)) by {
      assert all[|all| - 1].at == at;
      if events != [] { assert all[|all| - 2] == events[|events| - 1]; }
    }
  }

  /** The first turn of a process does announce a reset exactly when something was heard before
      it: the zero boundary it starts from is adopted like any other. */
  lemma FirstTurnTells(g: Settings, heard: seq<Event>, at: int)
    requires g.Ok() && g.max > 0 && InOrder(NEW, heard + [Begin(at)])
    requires forall e :: e in heard ==> e.Hear?
    ensures Run(g, NEW, heard + [Begin(at)]).told != [] <==> heard != []
  {
    var all := heard + [Begin(at)];
    assert all[..|all| - 1] == heard;
    HeardOnly(g, heard);
    assert all[|all| - 1].at == at;
    BoundaryIsLatest(g.midnight, g.every, at);
  }

  lemma {:induction false} HeardOnly(g: Settings, heard: seq<Event>)
    requires g.every > 0 && g.max > 0
    requires forall e :: e in heard ==> e.Hear?
    ensures var c := Run(g, NEW, heard); c.ring.since == 0 && c.told == [] && (c.ring.buf == [] <==> heard == [])
  {
    if heard != [] {
      HeardOnly(g, heard[..|heard| - 1]);
    }
  }

  // ---- what is not lost ----

  /** Over every run the ring is the newest of what was recorded since it was cleared. */
  lemma NewestTurnsKept(g: Settings, events: seq<Event>)
    requires g.Ok() && InOrder(NEW, events)
    ensures var c := Run(g, NEW, events); Newest(c.ring.buf, Records(c.log), g.max)
  {
    RunKeeps(g, events);
    LastNIsNewest(Records(Run(g, NEW, events).log), g.max);
  }

  /** What was said in these events, heard or answered. */
  function Said(events: seq<Event>): seq<Stamped> {
    if events == [] then []
    else
      var e := events[|events| - 1];
      Said(events[..|events| - 1]) + if e.Begin? then [] else [Stamped(e.at, e.said)]
  }

  /** Between two scheduled resets nothing is cleared or announced: everything said is on the log
      behind what was there. */
  lemma {:induction false} NothingLostBetweenResets(g: Settings, c: Conversation, events: seq<Event>)
    requires g.every > 0
    requires forall e :: e in events && e.Begin? ==> Boundary(g.midnight, g.every, e.at) <= c.ring.since
    ensures var d := Run(g, c, events);
            d.log == c.log + Said(events) && d.told == c.told && d.ring.since == c.ring.since
  {
    hide Boundary;
    if events != [] {
      var before := events[..|events| - 1];
      forall e | e in before ensures e in events {
      }
      NothingLostBetweenResets(g, c, before);
      assert events[|events| - 1] in events;
    }
  }

  /** A turn that begins clears everything exactly where a reset has fallen due since the last
      one adopted, and announces that reset exactly where something then goes. */
  lemma ResetsAreTold(g: Settings, events: seq<Event>, at: int)
    requires g.Ok() && g.max > 0
    ensures var c, d := Run(g, NEW, events), Run(g, NEW, events + [Begin(at)]);
            var b := Boundary(g.midnight, g.every, at);
            && (if c.ring.since < b then d.ring == Ring([], b) && d.log == [] else d.ring == c.ring && d.log == c.log)
            && d.told == c.told + if d.ring.buf != c.ring.buf then [b] else []
  {
    assert (events + [Begin(at)])[..|events|] == events;
  }
}
