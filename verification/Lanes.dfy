/** The admission lane: a bounded queue whose in-flight requests never conflict, with
    tickets that complete at most once and a round-robin dispatcher. */
module Lanes {
  import opened Base

  const QUEUE_CAPACITY: nat := 256
  const OWNER_CAPACITY: nat := 32

  datatype Request = Request(owner: Key, nonce: u64, readSet: set<nat>, writeSet: set<nat>, deadline: u64)

  datatype Ticket = Ticket(index: nat, generation: nat)

  datatype Entry = Entry(request: Request, generation: nat, inFlight: bool, completed: bool)

  type Slots = seq<Option<Entry>>

  // ---------------------------------------------------------------- the invariant

  predicate Conflicts(a: Request, b: Request) {
    a.writeSet * (b.readSet + b.writeSet) != {} || a.readSet * b.writeSet != {}
  }

  ghost predicate NoConflicts(s: Slots) {
    forall i, j :: 0 <= i < |s| && 0 <= j < |s| && i != j && s[i].Some? && s[j].Some?
                   && s[i].value.inFlight && s[j].value.inFlight ==>
      !Conflicts(s[i].value.request, s[j].value.request)
  }

  predicate SameIntent(a: Request, b: Request) {
    a.owner == b.owner && a.nonce == b.nonce
  }

  /** Live (owner, nonce) pairs and generations are unique. */
  ghost predicate AllDistinct(s: Slots) {
    forall i, j :: 0 <= i < j < |s| && s[i].Some? && s[j].Some? ==>
      !SameIntent(s[i].value.request, s[j].value.request) && s[i].value.generation != s[j].value.generation
  }

  /** Incomplete requests of one owner among the first n slots. */
  function Owned(s: Slots, owner: Key, n: nat): nat
    requires n <= |s|
  {
    if n == 0 then 0
    else Owned(s, owner, n - 1)
         + if s[n - 1].Some? && s[n - 1].value.request.owner == owner && !s[n - 1].value.completed then 1 else 0
  }

  ghost predicate Generated(s: Slots, generation: nat) {
    forall i :: 0 <= i < |s| && s[i].Some? ==>
      s[i].value.generation <= generation && (s[i].value.inFlight ==> !s[i].value.completed)
  }

  /** A ticket completed once can never match a slot that is still open. */
  ghost predicate Retired(s: Slots, generation: nat, done: set<Ticket>) {
    forall t :: t in done ==>
      && t.generation <= generation
      && (t.index < |s| && s[t.index].Some? && s[t.index].value.generation == t.generation ==> s[t.index].value.completed)
  }

  ghost predicate Sound(s: Slots, generation: nat, done: set<Ticket>) {
    && |s| == QUEUE_CAPACITY && NoConflicts(s) && AllDistinct(s) && Generated(s, generation)
    && (forall owner: Key :: Owned(s, owner, |s|) <= OWNER_CAPACITY)
    && Retired(s, generation, done)
  }

  // ---------------------------------------------------------------- how one slot changes

  predicate Counts(x: Option<Entry>, owner: Key) {
    x.Some? && x.value.request.owner == owner && !x.value.completed
  }

  lemma {:induction false} OwnedUpdate(s: Slots, i: nat, x: Option<Entry>, owner: Key, n: nat)
    requires i < |s| && n <= |s|
    ensures Owned(s[i := x], owner, n) ==
            Owned(s, owner, n) + (if i < n then (if Counts(x, owner) then 1 else 0) - (if Counts(s[i], owner) then 1 else 0) else 0)
  {
    if n > 0 {
      OwnedUpdate(s, i, x, owner, n - 1);
    }
  }

  /** A slot may be emptied or its request may end without disturbing anything. */
  lemma Release(s: Slots, generation: nat, done: set<Ticket>, i: nat, x: Option<Entry>, done': set<Ticket>)
    requires Sound(s, generation, done) && i < |s| && s[i].Some?
    requires x.None? || (x.value == s[i].value.(inFlight := false, completed := true))
    requires done' == done || (x.Some? && done' == done + {Ticket(i, s[i].value.generation)})
    ensures Sound(s[i := x], generation, done')
  {
    var after := s[i := x];
    forall owner: Key
      ensures Owned(after, owner, |after|) <= OWNER_CAPACITY
    {
      OwnedUpdate(s, i, x, owner, |s|);
    }
    hide Conflicts, SameIntent, Owned;
  }

  // ---------------------------------------------------------------- expiry

  predicate Lapsed(x: Option<Entry>, now: nat) {
    x.Some? && !x.value.inFlight && x.value.request.deadline < now
  }

  /** The slots after dropping what expired before the n-th. */
  function Purged(s: Slots, now: nat, n: nat): (r: Slots)
    requires n <= |s|
    ensures |r| == |s|
  {
    if n == 0 then s
    else
      var before := Purged(s, now, n - 1);
      if Lapsed(s[n - 1], now) then before[n - 1 := None] else before
  }

  lemma {:induction false} PurgedRest(s: Slots, now: nat, n: nat)
    requires n <= |s|
    ensures forall i :: n <= i < |s| ==> Purged(s, now, n)[i] == s[i]
    ensures forall i :: 0 <= i < n ==> Purged(s, now, n)[i] == if Lapsed(s[i], now) then None else s[i]
  {
    if n > 0 {
      PurgedRest(s, now, n - 1);
    }
  }

  lemma {:induction false} PurgedSound(s: Slots, generation: nat, done: set<Ticket>, now: nat, n: nat)
    requires Sound(s, generation, done) && n <= |s|
    ensures Sound(Purged(s, now, n), generation, done)
  {
    if n > 0 {
      PurgedSound(s, generation, done, now, n - 1);
      PurgedRest(s, now, n - 1);
      hide Sound;
      if Lapsed(s[n - 1], now) {
        Release(Purged(s, now, n - 1), generation, done, n - 1, None, done);
      }
    }
  }

  // ---------------------------------------------------------------- dispatch

  /** Everything read and written by requests in flight. */
  function ReadsInFlight(s: Slots, n: nat): set<nat>
    requires n <= |s|
  {
    if n == 0 then {}
    else ReadsInFlight(s, n - 1) + if s[n - 1].Some? && s[n - 1].value.inFlight then s[n - 1].value.request.readSet else {}
  }

  function WritesInFlight(s: Slots, n: nat): set<nat>
    requires n <= |s|
  {
    if n == 0 then {}
    else WritesInFlight(s, n - 1) + if s[n - 1].Some? && s[n - 1].value.inFlight then s[n - 1].value.request.writeSet else {}
  }

  lemma {:induction false} FootprintsCover(s: Slots, n: nat, i: nat)
    requires i < n <= |s| && s[i].Some? && s[i].value.inFlight
    ensures s[i].value.request.readSet <= ReadsInFlight(s, n) && s[i].value.request.writeSet <= WritesInFlight(s, n)
  {
    if i < n - 1 {
      FootprintsCover(s, n - 1, i);
    }
  }

  /** Waiting, in time, and free of conflicts with the given footprints. */
  predicate Serves(x: Option<Entry>, now: nat, readSet: set<nat>, writeSet: set<nat>) {
    && x.Some? && !x.value.inFlight && !x.value.completed && x.value.request.deadline >= now
    && x.value.request.writeSet * (readSet + writeSet) == {} && x.value.request.readSet * writeSet == {}
  }

  predicate Dispatchable(s: Slots, now: nat, i: nat)
    requires i < |s|
  {
    Serves(s[i], now, ReadsInFlight(s, |s|), WritesInFlight(s, |s|))
  }

  lemma {:induction false} FootprintsMeet(s: Slots, n: nat, r: nat)
    requires n <= |s|
    ensures r in ReadsInFlight(s, n) ==>
              exists i :: 0 <= i < n && s[i].Some? && s[i].value.inFlight && r in s[i].value.request.readSet
    ensures r in WritesInFlight(s, n) ==>
              exists i :: 0 <= i < n && s[i].Some? && s[i].value.inFlight && r in s[i].value.request.writeSet
  {
    if n > 0 {
      FootprintsMeet(s, n - 1, r);
    }
  }

  /** The accumulated footprints refuse exactly the requests that conflict with some
      request in flight. */
  lemma DispatchableMeans(s: Slots, now: nat, i: nat)
    requires i < |s|
    ensures Dispatchable(s, now, i) <==>
              && s[i].Some? && !s[i].value.inFlight && !s[i].value.completed && s[i].value.request.deadline >= now
              && forall j :: 0 <= j < |s| && s[j].Some? && s[j].value.inFlight ==>
                   !Conflicts(s[i].value.request, s[j].value.request)
  {
    if Dispatchable(s, now, i) {
      forall j | 0 <= j < |s| && s[j].Some? && s[j].value.inFlight
        ensures !Conflicts(s[i].value.request, s[j].value.request)
      {
        FootprintsCover(s, |s|, j);
      }
    } else if s[i].Some? && !s[i].value.inFlight && !s[i].value.completed && s[i].value.request.deadline >= now {
      var mine := s[i].value.request;
      var clash := mine.writeSet * (ReadsInFlight(s, |s|) + WritesInFlight(s, |s|)) + mine.readSet * WritesInFlight(s, |s|);
      var r :| r in clash;
      FootprintsMeet(s, |s|, r);
      if j :| 0 <= j < |s| && s[j].Some? && s[j].value.inFlight && r in s[j].value.request.writeSet
              && (r in mine.writeSet || r in mine.readSet) {
        MeetsConflict(mine, s[j].value.request, r);
      } else {
        var j :| 0 <= j < |s| && s[j].Some? && s[j].value.inFlight && r in s[j].value.request.readSet;
        MeetsConflict(mine, s[j].value.request, r);
      }
    }
  }

  lemma MeetsConflict(a: Request, b: Request, r: nat)
    requires (r in a.writeSet && (r in b.readSet || r in b.writeSet)) || (r in a.readSet && r in b.writeSet)
    ensures Conflicts(a, b)
  {
    if r in a.writeSet {
      assert r in a.writeSet * (b.readSet + b.writeSet);
    } else {
      assert r in a.readSet * b.writeSet;
    }
  }

  function Launched(s: Slots, i: nat): Slots
    requires i < |s| && s[i].Some?
  {
    s[i := Some(s[i].value.(inFlight := true))]
  }

  /** Dispatching keeps in-flight requests free of conflicts. */
  lemma LaunchSound(s: Slots, generation: nat, done: set<Ticket>, now: nat, i: nat)
    requires Sound(s, generation, done) && i < |s| && Dispatchable(s, now, i)
    ensures Sound(Launched(s, i), generation, done)
  {
    DispatchableMeans(s, now, i);
    forall owner: Key
      ensures Owned(Launched(s, i), owner, |s|) <= OWNER_CAPACITY
    {
      OwnedUpdate(s, i, Some(s[i].value.(inFlight := true)), owner, |s|);
    }
    forall j | 0 <= j < |s| && j != i && s[j].Some? && s[j].value.inFlight
      ensures !Conflicts(s[i].value.request, s[j].value.request) && !Conflicts(s[j].value.request, s[i].value.request)
    {
      ConflictsBothWays(s[i].value.request, s[j].value.request);
    }
    hide Conflicts, SameIntent, Owned, Dispatchable;
  }

  lemma ConflictsBothWays(a: Request, b: Request)
    ensures Conflicts(a, b) <==> Conflicts(b, a)
  {
  }

  // ---------------------------------------------------------------- admission

  ghost predicate Taken(s: Slots, r: Request) {
    exists i :: 0 <= i < |s| && s[i].Some? && SameIntent(s[i].value.request, r)
  }

  /** A new request in a free slot, under a new generation. */
  lemma AdmitSound(s: Slots, generation: nat, done: set<Ticket>, i: nat, r: Request)
    requires Sound(s, generation, done) && i < |s| && s[i].None? && !Taken(s, r)
    requires Owned(s, r.owner, |s|) < OWNER_CAPACITY
    ensures Sound(s[i := Some(Entry(r, generation + 1, false, false))], generation + 1, done)
  {
    var x := Some(Entry(r, generation + 1, false, false));
    var after := s[i := x];
    forall owner: Key
      ensures Owned(after, owner, |after|) <= OWNER_CAPACITY
    {
      OwnedUpdate(s, i, x, owner, |s|);
    }
    hide Conflicts, Owned;
  }

  // ---------------------------------------------------------------- round robin

  /** How many slots the dispatcher looks at before slot i. */
  function Distance(cursor: nat, i: nat): (d: nat)
    requires cursor < QUEUE_CAPACITY && i < QUEUE_CAPACITY
    ensures d < QUEUE_CAPACITY && (cursor + d) % QUEUE_CAPACITY == i
  {
    if i >= cursor then i - cursor else i + QUEUE_CAPACITY - cursor
  }

  function After(i: nat): nat {
    (i + 1) % QUEUE_CAPACITY
  }

  /** Serving a slot that is looked at earlier brings slot i strictly closer. */
  lemma Closer(cursor: nat, picked: nat, i: nat)
    requires cursor < QUEUE_CAPACITY && picked < QUEUE_CAPACITY && i < QUEUE_CAPACITY
    requires Distance(cursor, picked) < Distance(cursor, i)
    ensures Distance(After(picked), i) < Distance(cursor, i)
  {
  }

  /** Successive dispatches that pass over slot i although it could be served. */
  ghost predicate PassesOver(cursors: seq<nat>, picks: seq<nat>, i: nat) {
    && |cursors| == |picks| + 1 && i < QUEUE_CAPACITY
    && (forall k :: 0 <= k < |cursors| ==> cursors[k] < QUEUE_CAPACITY)
    && forall k :: 0 <= k < |picks| ==>
         && picks[k] < QUEUE_CAPACITY && cursors[k + 1] == After(picks[k])
         && Distance(cursors[k], picks[k]) < Distance(cursors[k], i)
  }

  /** A slot that stays dispatchable is passed over fewer than QUEUE_CAPACITY times. */
  lemma {:induction false} NoStarvation(cursors: seq<nat>, picks: seq<nat>, i: nat)
    requires PassesOver(cursors, picks, i)
    ensures |picks| + Distance(cursors[|picks|], i) <= Distance(cursors[0], i)
    ensures |picks| < QUEUE_CAPACITY
  {
    if |picks| > 0 {
      var n := |picks| - 1;
      NoStarvation(cursors[..n + 1], picks[..n], i);
      Closer(cursors[n], picks[n], i);
    }
  }

  // ---------------------------------------------------------------- one operation

  /** The lane between two operations. */
  datatype Lane = Lane(slots: Slots, generation: nat, cursor: nat, done: set<Ticket>)

  ghost predicate IsLane(a: Lane) {
    Sound(a.slots, a.generation, a.done) && a.cursor < QUEUE_CAPACITY
  }

  /** What `admit` does: refuse expired, duplicate and excess requests, otherwise take
      the first free slot under a generation no ticket has carried before. */
  ghost predicate AdmitStep(a: Lane, b: Lane, request: Request, now: nat, r: Result<Ticket>) {
    && b.cursor == a.cursor && b.done == a.done
    && if request.deadline < now then r == Err(Expired) && b == a
       else
         var s := Purged(a.slots, now, |a.slots|);
         if Taken(s, request) then r == Err(Duplicate) && b == a.(slots := s)
         else if Owned(s, request.owner, |s|) >= OWNER_CAPACITY then r == Err(OwnerLimit) && b == a.(slots := s)
         else if forall i :: 0 <= i < |s| ==> s[i].Some? then r == Err(QueueFull) && b == a.(slots := s)
         else if a.generation >= U64_MAX then r == Err(Arithmetic) && b == a.(slots := s)
         else
           && r.Ok? && r.value.index < |s| && s[r.value.index].None?
           && (forall i :: 0 <= i < r.value.index ==> s[i].Some?)
           && b.generation == a.generation + 1 == r.value.generation
           && b.slots == s[r.value.index := Some(Entry(request, b.generation, false, false))]
  }

  /** What `dispatch` does: serve the first dispatchable slot from the cursor on. */
  ghost predicate DispatchStep(a: Lane, b: Lane, now: nat, served: Option<Ticket>)
    requires a.cursor < QUEUE_CAPACITY == |a.slots|
  {
    if served.None? then
      b == a && forall i :: 0 <= i < QUEUE_CAPACITY ==> !Dispatchable(a.slots, now, i)
    else
      var i := served.value.index;
      && i < QUEUE_CAPACITY && Dispatchable(a.slots, now, i)
      && served.value.generation == a.slots[i].value.generation
      && b == a.(slots := Launched(a.slots, i), cursor := After(i))
      && forall j :: 0 <= j < QUEUE_CAPACITY && Dispatchable(a.slots, now, j) ==>
           j == i || Distance(a.cursor, i) < Distance(a.cursor, j)
  }

  /** What `complete` does: it accepts the ticket of a request in flight, and only that. */
  ghost predicate CompleteStep(a: Lane, b: Lane, ticket: Ticket, ok: bool) {
    && (ok <==> && ticket.index < |a.slots| && a.slots[ticket.index].Some?
                && a.slots[ticket.index].value.generation == ticket.generation && a.slots[ticket.index].value.inFlight)
    && (ok ==> ticket !in a.done && b == a.(slots := Ended(a.slots, ticket.index), done := a.done + {ticket}))
    && (!ok ==> b == a)
  }

  // ---------------------------------------------------------------- the lane

  class Admission {
    const slots: array<Option<Entry>>
    var generation: nat
    var cursor: nat
    ghost var done: set<Ticket>

    ghost predicate Valid()
      reads this, slots
    {
      slots.Length == QUEUE_CAPACITY && cursor < QUEUE_CAPACITY && Sound(slots[..], generation, done)
    }

    ghost function State(): Lane
      reads this, slots
    {
      Lane(slots[..], generation, cursor, done)
    }

    constructor ()
      ensures Valid() && fresh(slots) && done == {} && forall i :: 0 <= i < QUEUE_CAPACITY ==> slots[i].None?
    {
      slots := new Option<Entry>[QUEUE_CAPACITY](_ => None);
      generation, cursor, done := 0, 0, {};
      new;
      EmptySound(slots[..]);
    }

    /** Drop expired entries that are not in flight. */
    method Purge(now: nat)
      requires Valid()
      modifies slots
      ensures Valid() && slots[..] == Purged(old(slots[..]), now, QUEUE_CAPACITY)
    {
      ghost var s := slots[..];
      PurgedSound(s, generation, done, now, QUEUE_CAPACITY);
      hide Sound;
      for i := 0 to QUEUE_CAPACITY
        invariant slots[..] == Purged(s, now, i)
      {
        PurgedRest(s, now, i);
        assert slots[i] == slots[..][i] == s[i];
        if Lapsed(slots[i], now) {
          slots[i] := None;
        }
      }
    }

    /** `admit`: refuse expired, duplicate and excess requests, otherwise take the first
        free slot under a generation no ticket has carried before. */
    method Admit(request: Request, now: nat) returns (r: Result<Ticket>)
      requires Valid()
      modifies this`generation, slots
      ensures Valid()
      ensures AdmitStep(old(State()), State(), request, now, r)
    {
      if request.deadline < now {
        return Err(Expired);
      }
      Purge(now);
      ghost var s := slots[..];
      hide Sound, Purged;
      var taken, owned := CountOwner(request);
      if taken {
        return Err(Duplicate);
      }
      if owned >= OWNER_CAPACITY {
        return Err(OwnerLimit);
      }
      var index := 0;
      while index < QUEUE_CAPACITY && slots[index].Some?
        invariant index <= QUEUE_CAPACITY && forall i :: 0 <= i < index ==> s[i].Some?
      {
        index := index + 1;
      }
      if index == QUEUE_CAPACITY {
        return Err(QueueFull);
      }
      if generation >= U64_MAX {
        return Err(Arithmetic);
      }
      AdmitSound(s, generation, done, index, request);
      generation := generation + 1;
      slots[index] := Some(Entry(request, generation, false, false));
      assert slots[..] == s[index := Some(Entry(request, generation, false, false))];
      return Ok(Ticket(index, generation));
    }

    /** Does the lane hold this intent, and how many open requests has its owner? */
    method CountOwner(request: Request) returns (taken: bool, owned: nat)
      requires slots.Length == QUEUE_CAPACITY
      ensures taken <==> Taken(slots[..], request)
      ensures !taken ==> owned == Owned(slots[..], request.owner, QUEUE_CAPACITY)
    {
      ghost var s := slots[..];
      owned := 0;
      for i := 0 to QUEUE_CAPACITY
        invariant owned == Owned(s, request.owner, i)
        invariant forall j :: 0 <= j < i && s[j].Some? ==> !SameIntent(s[j].value.request, request)
      {
        assert slots[i] == s[i];
        if slots[i].Some? && slots[i].value.request.owner == request.owner {
          if slots[i].value.request.nonce == request.nonce {
            return true, owned;
          }
          if !slots[i].value.completed {
            owned := owned + 1;
          }
        }
      }
      return false, owned;
    }

    /** `dispatch`: serve the first dispatchable slot from the cursor on. Whatever could
        have been served instead comes strictly closer to its turn. */
    method Dispatch(now: nat) returns (r: Option<(Ticket, Request)>)
      requires Valid()
      modifies this`cursor, slots
      ensures Valid()
      ensures DispatchStep(old(State()), State(), now, if r.Some? then Some(r.value.0) else None)
      ensures r.Some? ==> r.value.0.index < QUEUE_CAPACITY && old(slots[..])[r.value.0.index].Some?
                          && r.value.1 == old(slots[..])[r.value.0.index].value.request
    {
      ghost var s := slots[..];
      var readSet, writeSet := Footprints();
      hide Sound, Owned;
      for offset := 0 to QUEUE_CAPACITY
        invariant slots[..] == s
        invariant forall i :: 0 <= i < QUEUE_CAPACITY && Distance(cursor, i) < offset ==> !Dispatchable(s, now, i)
      {
        var i := (cursor + offset) % QUEUE_CAPACITY;
        assert slots[i] == s[i] && Distance(cursor, i) == offset;
        if Serves(slots[i], now, readSet, writeSet) {
          LaunchSound(s, generation, done, now, i);
          var e := slots[i].value;
          slots[i] := Some(e.(inFlight := true));
          cursor := After(i);
          assert slots[..] == Launched(s, i);
          return Some((Ticket(i, e.generation), e.request));
        }
      }
      return None;
    }

    method Footprints() returns (readSet: set<nat>, writeSet: set<nat>)
      requires slots.Length == QUEUE_CAPACITY
      ensures readSet == ReadsInFlight(slots[..], QUEUE_CAPACITY) && writeSet == WritesInFlight(slots[..], QUEUE_CAPACITY)
    {
      ghost var s := slots[..];
      readSet, writeSet := {}, {};
      for i := 0 to QUEUE_CAPACITY
        invariant readSet == ReadsInFlight(s, i) && writeSet == WritesInFlight(s, i)
      {
        assert slots[i] == s[i];
        if slots[i].Some? && slots[i].value.inFlight {
          readSet := readSet + slots[i].value.request.readSet;
          writeSet := writeSet + slots[i].value.request.writeSet;
        }
      }
    }

    /** `complete`: only the ticket of the request in flight, and only once, even after
        its slot has been used again. */
    method Complete(ticket: Ticket) returns (r: Result<()>)
      requires Valid()
      modifies this`done, slots
      ensures Valid()
      ensures CompleteStep(old(State()), State(), ticket, r.Ok?)
      ensures r.Err? ==> r.error.InvalidTicket?
    {
      ghost var s := slots[..];
      if ticket.index >= QUEUE_CAPACITY || slots[ticket.index].None? {
        return Err(InvalidTicket);
      }
      var e := slots[ticket.index].value;
      assert s[ticket.index] == Some(e);
      if e.generation != ticket.generation || !e.inFlight || e.completed {
        return Err(InvalidTicket);
      }
      NotDone(s, generation, done, ticket);
      Release(s, generation, done, ticket.index, Some(e.(inFlight := false, completed := true)), done + {ticket});
      hide Sound;
      slots[ticket.index] := Some(e.(inFlight := false, completed := true));
      done := done + {ticket};
      assert slots[..] == Ended(s, ticket.index);
      return Ok(());
    }
  }

  function Ended(s: Slots, i: nat): Slots
    requires i < |s| && s[i].Some?
  {
    s[i := Some(s[i].value.(inFlight := false, completed := true))]
  }

  lemma EmptySound(s: Slots)
    requires |s| == QUEUE_CAPACITY && forall i :: 0 <= i < |s| ==> s[i].None?
    ensures Sound(s, 0, {})
  {
    forall owner: Key
      ensures Owned(s, owner, |s|) == 0
    {
      NoneOwned(s, owner, |s|);
    }
    hide Owned;
  }

  lemma {:induction false} NoneOwned(s: Slots, owner: Key, n: nat)
    requires n <= |s| && forall i :: 0 <= i < |s| ==> s[i].None?
    ensures Owned(s, owner, n) == 0
  {
    if n > 0 {
      NoneOwned(s, owner, n - 1);
    }
  }

  lemma NotDone(s: Slots, generation: nat, done: set<Ticket>, t: Ticket)
    requires Sound(s, generation, done) && t.index < |s| && s[t.index].Some?
    requires s[t.index].value.generation == t.generation && !s[t.index].value.completed
    ensures t !in done
  {
    hide NoConflicts, AllDistinct, Owned;
  }
}
