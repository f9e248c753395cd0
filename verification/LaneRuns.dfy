/** Whole runs of the admission lane: any interleaving of admissions, dispatches and
    completions. */
module LaneRuns {
  import opened Base
  import opened Lanes

  datatype Event =
    | Admitted(request: Request, now: nat, answer: Result<Ticket>)
    | Dispatched(now: nat, served: Option<Ticket>)
    | Completed(ticket: Ticket, ok: bool)

  ghost predicate LaneStep(a: Lane, b: Lane, e: Event)
    requires a.cursor < QUEUE_CAPACITY == |a.slots|
  {
    match e
    case Admitted(request, now, answer) => AdmitStep(a, b, request, now, answer)
    case Dispatched(now, served) => DispatchStep(a, b, now, served)
    case Completed(ticket, ok) => CompleteStep(a, b, ticket, ok)
  }

  /** A run: the lane before the first event, and after each. */
  ghost predicate IsRun(states: seq<Lane>, events: seq<Event>) {
    && |states| == |events| + 1 && IsLane(states[0])
    && forall k :: 0 <= k < |events| ==>
         states[k].cursor < QUEUE_CAPACITY == |states[k].slots| && LaneStep(states[k], states[k + 1], events[k])
  }

  // ---------------------------------------------------------------- what every step keeps

  lemma StepKeepsLane(a: Lane, b: Lane, e: Event)
    requires IsLane(a) && LaneStep(a, b, e)
    ensures IsLane(b)
  {
    hide Sound, Purged, Taken, Owned, Dispatchable;
    LaneShape(a);
    match e
    case Admitted(request, now, answer) =>
      PurgedSound(a.slots, a.generation, a.done, now, |a.slots|);
      if answer.Ok? {
        AdmitSound(Purged(a.slots, now, |a.slots|), a.generation, a.done, answer.value.index, request);
      }
    case Dispatched(now, served) =>
      if served.Some? {
        LaunchSound(a.slots, a.generation, a.done, now, served.value.index);
      }
    case Completed(ticket, ok) =>
      if ok {
        Release(a.slots, a.generation, a.done, ticket.index, Ended(a.slots, ticket.index)[ticket.index], b.done);
      }
  }

  lemma LaneShape(a: Lane)
    requires IsLane(a)
    ensures |a.slots| == QUEUE_CAPACITY && a.cursor < QUEUE_CAPACITY
  {
  }

  /** In every state of every run requests in flight do not conflict, live intents are
      unique, owners stay within their cap and retired tickets stay retired. */
  lemma {:induction false} RunIsSound(states: seq<Lane>, events: seq<Event>, n: nat)
    requires IsRun(states, events) && n < |states|
    ensures IsLane(states[n])
  {
    hide IsLane, LaneStep;
    if n > 0 {
      RunIsSound(states, events, n - 1);
      StepKeepsLane(states[n - 1], states[n], events[n - 1]);
    }
  }

  // ---------------------------------------------------------------- fairness

  /** The event serves a slot. */
  predicate Serving(e: Event) {
    e.Dispatched? && e.served.Some?
  }

  /** The slots served by the first n events, and the cursor before and after each. */
  function PicksOf(events: seq<Event>, n: nat): seq<nat>
    requires n <= |events|
  {
    if n == 0 then []
    else
      var e := events[n - 1];
      PicksOf(events, n - 1) + if Serving(e) then [e.served.value.index] else []
  }

  ghost function CursorsOf(states: seq<Lane>, events: seq<Event>, n: nat): seq<nat>
    requires n <= |events| < |states|
  {
    if n == 0 then [states[0].cursor]
    else
      var e := events[n - 1];
      CursorsOf(states, events, n - 1) + if Serving(e) then [states[n].cursor] else []
  }

  /** Slot i could be served at every dispatch, and never was. */
  ghost predicate Overlooked(states: seq<Lane>, events: seq<Event>, i: nat) {
    && |states| == |events| + 1 && i < QUEUE_CAPACITY
    && forall k :: 0 <= k < |events| && Serving(events[k]) ==>
         && i < |states[k].slots| && Dispatchable(states[k].slots, events[k].now, i)
         && events[k].served.value.index != i
  }

  /** Only a dispatch that serves somebody moves the cursor, past the slot it serves. */
  lemma CursorStep(a: Lane, b: Lane, e: Event, i: nat)
    requires IsLane(a) && LaneStep(a, b, e) && i < QUEUE_CAPACITY
    ensures a.cursor < QUEUE_CAPACITY == |a.slots|
    ensures !Serving(e) ==> b.cursor == a.cursor
    ensures Serving(e) ==> e.served.value.index < QUEUE_CAPACITY && b.cursor == After(e.served.value.index)
    ensures Serving(e) && Dispatchable(a.slots, e.now, i) && e.served.value.index != i ==>
              Distance(a.cursor, e.served.value.index) < Distance(a.cursor, i)
  {
    hide Dispatchable, Purged, Taken, Owned, Sound, Distance, Launched, Ended, After;
    LaneShape(a);
  }

  lemma PassesOne(cursors: seq<nat>, picks: seq<nat>, i: nat, pick: nat)
    requires PassesOver(cursors, picks, i) && pick < QUEUE_CAPACITY
    requires Distance(cursors[|picks|], pick) < Distance(cursors[|picks|], i)
    ensures PassesOver(cursors + [After(pick)], picks + [pick], i)
  {
    hide Distance;
  }

  lemma {:induction false} RunPassesOver(states: seq<Lane>, events: seq<Event>, i: nat, n: nat)
    requires IsRun(states, events) && Overlooked(states, events, i) && n <= |events|
    ensures |states| == |events| + 1 && PassesOver(CursorsOf(states, events, n), PicksOf(events, n), i)
    ensures var cursors := CursorsOf(states, events, n); cursors[|cursors| - 1] == states[n].cursor
  {
    hide LaneStep, IsLane, Dispatchable, PassesOver, Distance, After;
    if n == 0 {
      NothingPassed(states, events, i);
    } else {
      RunIsSound(states, events, n - 1);
      RunPassesOver(states, events, i, n - 1);
      CursorStep(states[n - 1], states[n], events[n - 1], i);
      PassedLength(CursorsOf(states, events, n - 1), PicksOf(events, n - 1), i);
      if Serving(events[n - 1]) {
        PassesOne(CursorsOf(states, events, n - 1), PicksOf(events, n - 1), i, events[n - 1].served.value.index);
      } else {
        assert CursorsOf(states, events, n) == CursorsOf(states, events, n - 1);
        assert PicksOf(events, n) == PicksOf(events, n - 1);
      }
    }
  }

  lemma PassedLength(cursors: seq<nat>, picks: seq<nat>, i: nat)
    requires PassesOver(cursors, picks, i)
    ensures |cursors| == |picks| + 1 && i < QUEUE_CAPACITY && forall k :: 0 <= k < |cursors| ==> cursors[k] < QUEUE_CAPACITY
  {
  }

  lemma NothingPassed(states: seq<Lane>, events: seq<Event>, i: nat)
    requires IsRun(states, events) && i < QUEUE_CAPACITY
    ensures |states| == |events| + 1
    ensures PassesOver(CursorsOf(states, events, 0), PicksOf(events, 0), i)
  {
  }

  /** Over any run: a slot that can be served at every dispatch is served before
      QUEUE_CAPACITY others are. */
  lemma ServedInTurn(states: seq<Lane>, events: seq<Event>, i: nat)
    requires IsRun(states, events) && Overlooked(states, events, i)
    ensures |PicksOf(events, |events|)| < QUEUE_CAPACITY
  {
    hide Overlooked, LaneStep, IsLane;
    RunPassesOver(states, events, i, |events|);
    NoStarvation(CursorsOf(states, events, |events|), PicksOf(events, |events|), i);
  }

  // ---------------------------------------------------------------- tickets

  /** Generations and retired tickets only grow. */
  lemma {:induction false} RunGrows(states: seq<Lane>, events: seq<Event>, m: nat, n: nat)
    requires IsRun(states, events) && m <= n < |states|
    ensures states[m].generation <= states[n].generation && states[m].done <= states[n].done
  {
    hide Dispatchable, Purged, Taken, Owned, Sound, Distance, Launched, Ended;
    if m < n {
      RunGrows(states, events, m, n - 1);
      assert LaneStep(states[n - 1], states[n], events[n - 1]);
    }
  }

  /** No ticket completes twice, even after its slot has been used again. */
  lemma CompletesOnce(states: seq<Lane>, events: seq<Event>, j: nat, k: nat)
    requires IsRun(states, events) && j < k < |events|
    requires events[j].Completed? && events[j].ok && events[k].Completed? && events[k].ok
    ensures events[j].ticket != events[k].ticket
  {
    hide Ended, Sound;
    assert LaneStep(states[j], states[j + 1], events[j]);
    assert LaneStep(states[k], states[k + 1], events[k]);
    RunGrows(states, events, j + 1, k);
  }

  /** No two admissions hand out the same ticket. */
  lemma TicketsDiffer(states: seq<Lane>, events: seq<Event>, j: nat, k: nat)
    requires IsRun(states, events) && j < k < |events|
    requires events[j].Admitted? && events[j].answer.Ok? && events[k].Admitted? && events[k].answer.Ok?
    ensures events[j].answer.value.generation < events[k].answer.value.generation
  {
    hide Purged, Taken, Owned, Sound;
    assert LaneStep(states[j], states[j + 1], events[j]);
    assert LaneStep(states[k], states[k + 1], events[k]);
    RunGrows(states, events, j + 1, k);
  }

  // ---------------------------------------------------------------- what a state promises

  /** Two requests that touch a common account only to read it. */
  predicate Apart(a: Request, b: Request) {
    && a.writeSet * b.writeSet == {} && a.writeSet * b.readSet == {} && a.readSet * b.writeSet == {}
  }

  lemma ApartMeans(a: Request, b: Request)
    ensures Conflicts(a, b) <==> !Apart(a, b)
  {
    assert a.writeSet * (b.readSet + b.writeSet) == a.writeSet * b.readSet + a.writeSet * b.writeSet;
  }

  /** Slots among the first n that hold an open request of an owner. */
  ghost function OpenOf(s: Slots, owner: Key, n: nat): set<nat>
    requires n <= |s|
  {
    set i | 0 <= i < n && s[i].Some? && s[i].value.request.owner == owner && !s[i].value.completed
  }

  lemma {:induction false} OwnedIsOpen(s: Slots, owner: Key, n: nat)
    requires n <= |s|
    ensures Owned(s, owner, n) == |OpenOf(s, owner, n)|
  {
    if n > 0 {
      OwnedIsOpen(s, owner, n - 1);
      var before := OpenOf(s, owner, n - 1);
      if Counts(s[n - 1], owner) {
        assert OpenOf(s, owner, n) == before + {n - 1};
      } else {
        assert OpenOf(s, owner, n) == before;
      }
    } else {
      assert OpenOf(s, owner, 0) == {};
    }
  }

  /** In every state of every run: two requests in flight share no account that either
      writes, no two live requests have the same owner and nonce or the same
      generation, and no owner has more than 32 open ones. */
  lemma RunKeepsApart(states: seq<Lane>, events: seq<Event>, n: nat)
    requires IsRun(states, events) && n < |states|
    ensures var s := states[n].slots;
            && |s| == 256
            && (forall i, j :: 0 <= i < |s| && 0 <= j < |s| && i != j && s[i].Some? && s[j].Some?
                               && s[i].value.inFlight && s[j].value.inFlight ==>
                  Apart(s[i].value.request, s[j].value.request))
            && (forall i, j :: 0 <= i < j < |s| && s[i].Some? && s[j].Some? ==>
                  && (s[i].value.request.owner != s[j].value.request.owner
                      || s[i].value.request.nonce != s[j].value.request.nonce)
                  && s[i].value.generation != s[j].value.generation)
            && forall owner: Key :: |OpenOf(s, owner, |s|)| <= 32
  {
    hide IsRun;
    RunIsSound(states, events, n);
    var s := states[n].slots;
    hide Owned, Conflicts, Apart, OpenOf;
    forall i, j | 0 <= i < |s| && 0 <= j < |s| && i != j && s[i].Some? && s[j].Some?
                  && s[i].value.inFlight && s[j].value.inFlight
      ensures Apart(s[i].value.request, s[j].value.request)
    {
      ApartMeans(s[i].value.request, s[j].value.request);
    }
    forall owner: Key
      ensures |OpenOf(s, owner, |s|)| <= 32
    {
      OwnedIsOpen(s, owner, |s|);
    }
  }

  // ---------------------------------------------------------------- what an admission does

  /** The slot is still held at this time: its request is in flight or has not expired. */
  predicate Held(x: Option<Entry>, now: nat) {
    x.Some? && (x.value.inFlight || x.value.request.deadline >= now)
  }

  /** The slots after dropping what is no longer held. */
  ghost predicate Kept(s: Slots, t: Slots, now: nat) {
    |t| == |s| && forall i :: 0 <= i < |s| ==> t[i] == if Held(s[i], now) then s[i] else None
  }

  /** An admission drops exactly the requests that are neither in flight nor in time.
      It refuses a request whose deadline has passed, then one whose owner and nonce are
      held, then one whose owner has 32 open requests, then one for which no slot is
      free, and otherwise puts it into the first free slot under the next generation. */
  lemma AdmissionMeans(a: Lane, b: Lane, request: Request, now: nat, answer: Result<Ticket>) returns (s: Slots)
    requires IsLane(a) && AdmitStep(a, b, request, now, answer)
    ensures Kept(a.slots, s, now) && |s| == |b.slots| == 256
    ensures answer == Err(Expired) <==> request.deadline < now
    ensures request.deadline < now ==> b == a
    ensures request.deadline >= now ==>
              var held := exists i :: 0 <= i < |s| && s[i].Some? && s[i].value.request.owner == request.owner
                                      && s[i].value.request.nonce == request.nonce;
              var busy := |OpenOf(s, request.owner, |s|)| >= 32;
              var full := forall i :: 0 <= i < |s| ==> s[i].Some?;
              && (answer == Err(Duplicate) <==> held)
              && (answer == Err(OwnerLimit) <==> !held && busy)
              && (answer == Err(QueueFull) <==> !held && !busy && full)
              && (answer == Err(Arithmetic) <==> !held && !busy && !full && a.generation >= U64_MAX)
              && (answer.Err? ==> b == a.(slots := s))
              && (answer.Ok? ==>
                    var i := answer.value.index;
                    && i < |s| && s[i].None? && (forall j :: 0 <= j < i ==> s[j].Some?)
                    && answer.value.generation == a.generation + 1
                    && b == a.(slots := s[i := Some(Entry(request, a.generation + 1, false, false))],
                               generation := a.generation + 1))
  {
    LaneShape(a);
    s := Purged(a.slots, now, |a.slots|);
    PurgedRest(a.slots, now, |a.slots|);
    OwnedIsOpen(s, request.owner, |s|);
    hide Purged, Owned, OpenOf, IsLane;
  }

  // ---------------------------------------------------------------- what a dispatch does

  /** Slot i holds a request that waits, is in time, and is apart from all in flight. */
  ghost predicate CanRun(s: Slots, now: nat, i: nat)
    requires i < |s|
  {
    && s[i].Some? && !s[i].value.inFlight && !s[i].value.completed && s[i].value.request.deadline >= now
    && forall j :: 0 <= j < |s| && s[j].Some? && s[j].value.inFlight ==>
         Apart(s[i].value.request, s[j].value.request)
  }

  lemma CanRunMeans(s: Slots, now: nat, i: nat)
    requires i < |s|
    ensures Dispatchable(s, now, i) <==> CanRun(s, now, i)
  {
    DispatchableMeans(s, now, i);
    hide Dispatchable, Conflicts, Apart;
    if s[i].Some? {
      forall j | 0 <= j < |s| && s[j].Some?
        ensures Conflicts(s[i].value.request, s[j].value.request) <==> !Apart(s[i].value.request, s[j].value.request)
      {
        ApartMeans(s[i].value.request, s[j].value.request);
      }
    }
  }

  /** How many slots after the cursor slot i comes, around the ring of 256. */
  function TurnOf(cursor: nat, i: nat): nat
    requires cursor < 256
  {
    if i >= cursor then i - cursor else i + 256 - cursor
  }

  /** A dispatch serves nobody exactly when nobody can run; otherwise it launches, of
      those that can, the one whose turn comes first, and the cursor moves past it. */
  lemma DispatchMeans(a: Lane, b: Lane, now: nat, served: Option<Ticket>)
    requires IsLane(a) && a.cursor < QUEUE_CAPACITY == |a.slots| && DispatchStep(a, b, now, served)
    ensures served.None? <==> forall i :: 0 <= i < 256 ==> !CanRun(a.slots, now, i)
    ensures served.None? ==> b == a
    ensures served.Some? ==>
              var i := served.value.index;
              && i < 256 && CanRun(a.slots, now, i) && served.value.generation == a.slots[i].value.generation
              && (forall j :: 0 <= j < 256 && CanRun(a.slots, now, j) ==> TurnOf(a.cursor, i) <= TurnOf(a.cursor, j))
              && b == a.(slots := a.slots[i := Some(a.slots[i].value.(inFlight := true))],
                         cursor := if i + 1 == 256 then 0 else i + 1)
  {
    hide IsLane, CanRun, Dispatchable;
    forall i | 0 <= i < 256
      ensures Dispatchable(a.slots, now, i) <==> CanRun(a.slots, now, i)
    {
      CanRunMeans(a.slots, now, i);
    }
    if served.Some? {
      CanRunMeans(a.slots, now, served.value.index);
    }
  }
}
