/** The blocking connection pool: the slot buffer, and the monitor protocol around it. */
module ConnectionPool {
  import opened DataTypes

  // A database connection is nothing but its identity.
  datatype Connection = Connection(id: nat)

  type Thread = nat
  type Handle = nat

  // ---------------------------------------------------------------- slot buffer

  /** Slots below used have been moved out of; the others hold a connection. */
  datatype Slots = Slots(slots: seq<Option<Connection>>, used: nat) {
    ghost predicate Valid() {
      && used <= |slots|
      && (forall i :: 0 <= i < |slots| ==> (slots[i].None? <==> i < used))
    }

    function Free(): int {
      |slots| - used
    }

    /** Moves the next free connection out of its slot. */
    function Take(): (Slots, Connection)
      requires Valid() && used < |slots|
    {
      (Slots(slots[used := None], used + 1), slots[used].value)
    }

    /** Moves a connection back into the last used slot. */
    function Put(c: Connection): Slots
      requires Valid() && used != 0
    {
      Slots(slots[used - 1 := Some(c)], used - 1)
    }
  }

  /** The slots that hold c. */
  ghost function SlotsWith(slots: seq<Option<Connection>>, c: Connection): set<nat> {
    set i: nat | i < |slots| && slots[i] == Some(c)
  }

  lemma SlotsWithUpdate(slots: seq<Option<Connection>>, i: nat, o: Option<Connection>, c: Connection)
    requires i < |slots|
    ensures |SlotsWith(slots[i := o], c)| + (if slots[i] == Some(c) then 1 else 0)
         == |SlotsWith(slots, c)| + (if o == Some(c) then 1 else 0)
  {
    var before, after := SlotsWith(slots, c), SlotsWith(slots[i := o], c);
    assert after - {i} == before - {i};
    assert |after| == |after - {i}| + (if i in after then 1 else 0);
    assert |before| == |before - {i}| + (if i in before then 1 else 0);
  }

  lemma {:induction false} SlotsWithFull(conns: seq<Connection>, c: Connection)
    ensures |SlotsWith(Filled(conns), c)| == multiset(conns)[c]
  {
    if conns == [] {
      assert SlotsWith(Filled(conns), c) == {};
    } else {
      var n := |conns| - 1;
      var init := conns[..n];
      SlotsWithFull(init, c);
      assert conns == init + [conns[n]];
      assert SlotsWith(Filled(conns), c) == SlotsWith(Filled(init), c) + (if conns[n] == c then {n} else {});
    }
  }

  function Filled(conns: seq<Connection>): seq<Option<Connection>> {
    seq(|conns|, i requires 0 <= i < |conns| => Some(conns[i]))
  }

  /** Taking and putting are inverse to each other. */
  lemma TakePut(s: Slots, c: Connection)
    requires s.Valid()
    ensures s.used < |s.slots| ==> s.Take().0.Valid() && s.Take().0.Put(s.Take().1) == s
    ensures s.used != 0 ==> s.Put(c).Valid() && s.Put(c).Take() == (s, c)
  {
    if s.used < |s.slots| {
      assert s.slots[s.used := None][s.used := Some(s.slots[s.used].value)] == s.slots;
    }
    if s.used != 0 {
      assert s.slots[s.used - 1 := Some(c)][s.used - 1 := None] == s.slots;
    }
  }

  class Pool {
    const pool: array<Option<Connection>>
    var used: nat

    ghost function State(): Slots
      reads this, pool
    {
      Slots(pool[..], used)
    }

    ghost predicate Valid()
      reads this, pool
    {
      State().Valid()
    }

    /** One slot per connection made by the factory, all of them free. */
    constructor (connections: seq<Connection>)
      ensures Valid() && fresh(pool)
      ensures State() == Slots(Filled(connections), 0)
    {
      pool := new Option<Connection>[|connections|](_ => None);
      used := 0;
      new;
      for i := 0 to |connections|
        invariant used == 0
        invariant forall k :: 0 <= k < i ==> pool[k] == Some(connections[k])
      {
        pool[i] := Some(connections[i]);
      }
      assert pool[..] == Filled(connections);
    }

    /** The critical section that GetConnection runs once its wait is over. */
    method TakeConnection() returns (c: Connection)
      requires Valid() && used < pool.Length
      modifies this, pool
      ensures Valid()
      ensures (State(), c) == old(State()).Take()
    {
      c := pool[used].value;
      pool[used] := None;
      used := used + 1;
    }

    /** The critical section of ReturnConnection. */
    method ReturnConnection(c: Connection)
      requires Valid() && used != 0
      modifies this, pool
      ensures Valid()
      ensures State() == old(State()).Put(c)
    {
      used := used - 1;
      pool[used] := Some(c);
    }
  }

  // ---------------------------------------------------------------- monitor protocol

  /** The pool together with the wrappers and the threads that use it.
      A thread in none of the four sets runs freely.
        blocked    waits on the condition variable and has not been notified
        notified   was notified and has not yet run
        spurious   was woken by nothing and has not yet run
        returning  has put a connection back and still has to notify
      dropped collects the connections lost by overwriting a live wrapper. */
  datatype Monitor = Monitor(
    buffer: Slots,
    held: map<Handle, Connection>,
    dropped: multiset<Connection>,
    blocked: set<Thread>,
    notified: set<Thread>,
    spurious: set<Thread>,
    returning: set<Thread>)

  datatype Step =
    | Acquire(t: Thread, w: Handle)               // arrives and finds a free connection
    | Block(t: Thread)                            // arrives and finds none
    | SpuriousWake(t: Thread)
    | Recheck(t: Thread, w: Handle)               // woken for any reason, takes the mutex and tests again
    | Return(t: Thread, w: Handle)                // wrapper destroyed: slot refilled under the mutex
    | Notify(t: Thread, chosen: Option<Thread>)   // notify_one after the mutex is released
    | MoveWrapper(src: Handle, dst: Handle)       // move construction, or assignment; src may be moved-from

  ghost predicate Idle(m: Monitor, t: Thread) {
    t !in m.blocked && t !in m.notified && t !in m.spurious && t !in m.returning
  }

  ghost predicate Enabled(m: Monitor, s: Step) {
    match s
    case Acquire(t, w) => Idle(m, t) && m.buffer.used < |m.buffer.slots| && w !in m.held
    case Block(t) => Idle(m, t) && !(m.buffer.used < |m.buffer.slots|)
    case SpuriousWake(t) => t in m.blocked
    case Recheck(t, w) => (t in m.notified || t in m.spurious) && w !in m.held
    case Return(t, w) => Idle(m, t) && w in m.held
    case Notify(t, chosen) => t in m.returning && (if m.blocked == {} then chosen == None
                                                   else chosen.Some? && chosen.value in m.blocked)
    case MoveWrapper(_, _) => true
  }

  /** The move assignment of a wrapper abandons the connection its target still owns. */
  predicate OverwritesLive(m: Monitor, s: Step) {
    s.MoveWrapper? && s.src != s.dst && s.dst in m.held
  }

  ghost function Acquired(m: Monitor, w: Handle): Monitor
    requires m.buffer.Valid() && m.buffer.used < |m.buffer.slots|
  {
    var (b, c) := m.buffer.Take();
    m.(buffer := b, held := m.held[w := c])
  }

  /** A wrapper that owned a connection forgets it. */
  ghost function Abandoned(m: Monitor, w: Handle): Monitor {
    if w in m.held then m.(held := m.held - {w}, dropped := m.dropped + multiset{m.held[w]}) else m
  }

  ghost function Renamed(m: Monitor, src: Handle, dst: Handle): Monitor
    requires src in m.held
  {
    m.(held := (m.held - {src})[dst := m.held[src]])
  }

  ghost function Next(m: Monitor, s: Step): Monitor
    requires m.buffer.Valid() && Enabled(m, s)
    requires s.Return? ==> m.buffer.used != 0
  {
    match s
    case Acquire(t, w) => Acquired(m, w)
    case Block(t) => m.(blocked := m.blocked + {t})
    case SpuriousWake(t) => m.(blocked := m.blocked - {t}, spurious := m.spurious + {t})
    case Recheck(t, w) =>
      var awake := m.(notified := m.notified - {t}, spurious := m.spurious - {t});
      if m.buffer.used < |m.buffer.slots| then Acquired(awake, w)
      else awake.(blocked := m.blocked + {t})
    case Return(t, w) =>
      m.(buffer := m.buffer.Put(m.held[w]), held := m.held - {w}, returning := m.returning + {t})
    case Notify(t, chosen) =>
      var done := m.(returning := m.returning - {t});
      if chosen.None? then done
      else done.(blocked := m.blocked - {chosen.value}, notified := m.notified + {chosen.value})
    case MoveWrapper(src, dst) =>
      if src == dst then m
      else if src in m.held then Renamed(Abandoned(m, dst), src, dst)
      else Abandoned(m, dst)
  }

  // ---------------------------------------------------------------- invariant

  /** The live wrappers that own c. */
  ghost function Owners(held: map<Handle, Connection>, c: Connection): set<Handle> {
    set w | w in held && held[w] == c
  }

  lemma OwnersAdd(held: map<Handle, Connection>, w: Handle, c: Connection, d: Connection)
    requires w !in held
    ensures |Owners(held[w := c], d)| == |Owners(held, d)| + (if c == d then 1 else 0)
    ensures |held[w := c]| == |held| + 1
  {
    assert Owners(held[w := c], d) == Owners(held, d) + (if c == d then {w} else {});
  }

  lemma OwnersRemove(held: map<Handle, Connection>, w: Handle, d: Connection)
    requires w in held
    ensures |Owners(held, d)| == |Owners(held - {w}, d)| + (if held[w] == d then 1 else 0)
    ensures |held - {w}| == |held| - 1
  {
    OwnersAdd(held - {w}, w, held[w], d);
    assert (held - {w})[w := held[w]] == held;
  }

  /** In how many places c is: slots, live wrappers, or lost. */
  ghost function Copies(m: Monitor, c: Connection): nat {
    |SlotsWith(m.buffer.slots, c)| + |Owners(m.held, c)| + m.dropped[c]
  }

  ghost predicate Conserved(m: Monitor, initial: multiset<Connection>) {
    && m.buffer.Valid()
    && m.buffer.used == |m.held| + |m.dropped|
    && forall c :: Copies(m, c) == initial[c]
  }

  ghost predicate NoLostWakeup(m: Monitor) {
    m.blocked != {} ==> m.buffer.Free() <= |m.notified| + |m.returning|
  }

  ghost predicate ThreadsApart(m: Monitor) {
    && m.blocked !! m.notified !! m.spurious !! m.returning
  }

  ghost predicate Inv(m: Monitor, initial: multiset<Connection>) {
    Conserved(m, initial) && ThreadsApart(m) && NoLostWakeup(m)
  }

  function Start(connections: seq<Connection>): Monitor {
    Monitor(Slots(Filled(connections), 0), map[], multiset{}, {}, {}, {}, {})
  }

  lemma StartInv(connections: seq<Connection>)
    ensures Inv(Start(connections), multiset(connections))
  {
    forall c ensures Copies(Start(connections), c) == multiset(connections)[c] {
      SlotsWithFull(connections, c);
      assert Owners(map[], c) == {};
    }
  }

  /** A live wrapper is counted in used, so returning it never finds used at zero. */
  lemma ReturnFindsUsed(m: Monitor, initial: multiset<Connection>, s: Step)
    requires Conserved(m, initial) && Enabled(m, s) && s.Return?
    ensures m.buffer.used != 0
  {
    assert s.w in m.held.Keys;
  }

  lemma AcquiredConserves(m: Monitor, initial: multiset<Connection>, w: Handle)
    requires Conserved(m, initial) && m.buffer.used < |m.buffer.slots| && w !in m.held
    ensures Conserved(Acquired(m, w), initial)
  {
    var c := m.buffer.Take().1;
    forall d ensures Copies(Acquired(m, w), d) == initial[d] {
      SlotsWithUpdate(m.buffer.slots, m.buffer.used, None, d);
      OwnersAdd(m.held, w, c, d);
      assert Copies(m, d) == initial[d];
    }
    OwnersAdd(m.held, w, c, c);
  }

  lemma ReturnConserves(m: Monitor, initial: multiset<Connection>, t: Thread, w: Handle)
    requires Conserved(m, initial) && Enabled(m, Return(t, w)) && m.buffer.used != 0
    ensures Conserved(Next(m, Return(t, w)), initial)
  {
    var c := m.held[w];
    forall d ensures Copies(Next(m, Return(t, w)), d) == initial[d] {
      SlotsWithUpdate(m.buffer.slots, m.buffer.used - 1, Some(c), d);
      OwnersRemove(m.held, w, d);
      assert Copies(m, d) == initial[d];
    }
    OwnersRemove(m.held, w, c);
  }

  lemma AbandonedConserves(m: Monitor, initial: multiset<Connection>, w: Handle)
    requires Conserved(m, initial)
    ensures Conserved(Abandoned(m, w), initial)
    ensures Abandoned(m, w).dropped == multiset{} <==> m.dropped == multiset{} && w !in m.held
  {
    hide SlotsWith, Owners;
    if w in m.held {
      var m' := Abandoned(m, w);
      assert m.held[w] in m'.dropped;
      OwnersRemove(m.held, w, m.held[w]);
      forall d ensures Copies(m', d) == initial[d] {
        OwnersRemove(m.held, w, d);
        assert Copies(m, d) == initial[d];
      }
    }
  }

  lemma RenamedConserves(m: Monitor, initial: multiset<Connection>, src: Handle, dst: Handle)
    requires Conserved(m, initial) && src in m.held && dst !in m.held
    ensures Conserved(Renamed(m, src, dst), initial)
  {
    hide SlotsWith, Owners;
    var m', c, rest := Renamed(m, src, dst), m.held[src], m.held - {src};
    OwnersRemove(m.held, src, c);
    OwnersAdd(rest, dst, c, c);
    forall d ensures Copies(m', d) == initial[d] {
      OwnersRemove(m.held, src, d);
      OwnersAdd(rest, dst, c, d);
      assert Copies(m, d) == initial[d];
    }
  }

  lemma StepConserves(m: Monitor, initial: multiset<Connection>, s: Step)
    requires Conserved(m, initial) && Enabled(m, s)
    requires s.Return? ==> m.buffer.used != 0
    ensures Conserved(Next(m, s), initial)
    ensures Next(m, s).dropped == multiset{} <==> m.dropped == multiset{} && !OverwritesLive(m, s)
  {
    var m' := Next(m, s);
    match s
    case Acquire(t, w) => AcquiredConserves(m, initial, w);
    case Return(t, w) => ReturnConserves(m, initial, t, w);
    case MoveWrapper(src, dst) =>
      if src != dst {
        AbandonedConserves(m, initial, dst);
        if src in m.held {
          RenamedConserves(Abandoned(m, dst), initial, src, dst);
        }
      }
    case Recheck(t, w) =>
      var awake := m.(notified := m.notified - {t}, spurious := m.spurious - {t});
      assert forall c :: Copies(awake, c) == Copies(m, c);
      if m.buffer.used < |m.buffer.slots| {
        AcquiredConserves(awake, initial, w);
      } else {
        assert forall c :: Copies(m', c) == Copies(m, c);
      }
    case _ =>
      assert forall c :: Copies(m', c) == Copies(m, c);
  }

  /** Moving a wrapper hands its connection over and leaves it with none; moving one onto itself,
      or one that has none onto another, hands over nothing. */
  lemma MoveHandsOver(m: Monitor, src: Handle, dst: Handle, w: Handle)
    requires m.buffer.Valid()
    ensures var m' := Next(m, MoveWrapper(src, dst));
            && m'.buffer == m.buffer
            && (src == dst ==> m' == m)
            && (src != dst ==> src !in m'.held && (dst in m'.held <==> src in m.held))
            && (src != dst && src in m.held ==> m'.held[dst] == m.held[src])
            && (w != src && w != dst ==> (w in m'.held <==> w in m.held) && (w in m.held ==> m'.held[w] == m.held[w]))
  {}

  lemma StepKeepsThreadsApart(m: Monitor, s: Step)
    requires m.buffer.Valid() && ThreadsApart(m) && Enabled(m, s)
    requires s.Return? ==> m.buffer.used != 0
    ensures ThreadsApart(Next(m, s))
  {}

  lemma OneFewer(s: set<Thread>, t: Thread)
    ensures |s - {t}| >= |s| - 1 && (t !in s ==> s - {t} == s)
    ensures |s + {t}| == |s| + if t in s then 0 else 1
  {
    assert s - {t} + (if t in s then {t} else {}) == s;
  }

  lemma NotifyKeepsWakeups(m: Monitor, t: Thread, chosen: Option<Thread>)
    requires m.buffer.Valid() && ThreadsApart(m) && NoLostWakeup(m) && Enabled(m, Notify(t, chosen))
    ensures NoLostWakeup(Next(m, Notify(t, chosen)))
  {
    hide Idle, Slots.Valid;
    OneFewer(m.returning, t);
    if chosen.Some? {
      OneFewer(m.notified, chosen.value);
    }
  }

  lemma ReturnKeepsWakeups(m: Monitor, t: Thread, w: Handle)
    requires m.buffer.Valid() && NoLostWakeup(m) && Enabled(m, Return(t, w)) && m.buffer.used != 0
    ensures NoLostWakeup(Next(m, Return(t, w)))
  {
    OneFewer(m.returning, t);
  }

  lemma AcquireKeepsWakeups(m: Monitor, t: Thread, w: Handle)
    requires m.buffer.Valid() && NoLostWakeup(m) && Enabled(m, Acquire(t, w))
    ensures NoLostWakeup(Next(m, Acquire(t, w)))
  {}

  lemma BlockKeepsWakeups(m: Monitor, t: Thread)
    requires m.buffer.Valid() && Enabled(m, Block(t))
    ensures NoLostWakeup(Next(m, Block(t)))
  {}

  lemma SpuriousKeepsWakeups(m: Monitor, t: Thread)
    requires m.buffer.Valid() && NoLostWakeup(m) && Enabled(m, SpuriousWake(t))
    ensures NoLostWakeup(Next(m, SpuriousWake(t)))
  {}

  lemma MoveKeepsWakeups(m: Monitor, src: Handle, dst: Handle)
    requires m.buffer.Valid() && NoLostWakeup(m)
    ensures NoLostWakeup(Next(m, MoveWrapper(src, dst)))
  {}

  lemma RecheckKeepsWakeups(m: Monitor, t: Thread, w: Handle)
    requires m.buffer.Valid() && NoLostWakeup(m) && Enabled(m, Recheck(t, w))
    ensures NoLostWakeup(Next(m, Recheck(t, w)))
  {
    hide Idle, Slots.Valid;
    OneFewer(m.notified, t);
  }

  lemma StepKeepsWakeups(m: Monitor, s: Step)
    requires m.buffer.Valid() && ThreadsApart(m) && NoLostWakeup(m) && Enabled(m, s)
    requires s.Return? ==> m.buffer.used != 0
    ensures NoLostWakeup(Next(m, s))
  {
    hide *;
    match s
    case Acquire(t, w) => AcquireKeepsWakeups(m, t, w);
    case Block(t) => BlockKeepsWakeups(m, t);
    case SpuriousWake(t) => SpuriousKeepsWakeups(m, t);
    case MoveWrapper(src, dst) => MoveKeepsWakeups(m, src, dst);
    case Notify(t, chosen) => NotifyKeepsWakeups(m, t, chosen);
    case Recheck(t, w) => RecheckKeepsWakeups(m, t, w);
    case Return(t, w) => ReturnKeepsWakeups(m, t, w);
  }

  // ---------------------------------------------------------------- waiting

  /** The threads whose call of GetConnection has begun and not returned. */
  ghost function Waiting(m: Monitor): set<Thread> {
    m.blocked + m.notified + m.spurious
  }

  /** t wakes, finds a free connection and leaves with it: the first free one, in the new wrapper. */
  ghost predicate Serves(m: Monitor, s: Step, m': Monitor, t: Thread) {
    && s.Recheck? && s.t == t
    && t in Waiting(m) && t !in Waiting(m')
    && m.buffer.used < |m.buffer.slots| && m'.buffer.Free() == m.buffer.Free() - 1
    && s.w !in m.held && m.buffer.slots[m.buffer.used].Some?
    && m'.held == m.held[s.w := m.buffer.slots[m.buffer.used].value]
  }

  /** A thread begins to wait by finding nothing free, stops only by being served, and sleeps
      again, holding nothing new, when it wakes and finds nothing free. */
  lemma StepKeepsWaiting(m: Monitor, s: Step, t: Thread)
    requires m.buffer.Valid() && ThreadsApart(m) && Enabled(m, s)
    requires s.Return? ==> m.buffer.used != 0
    ensures s == Block(t) ==> t in Next(m, s).blocked
    ensures t in Waiting(m) ==> t in Waiting(Next(m, s)) || Serves(m, s, Next(m, s), t)
    ensures t !in Waiting(m) && t in Waiting(Next(m, s)) ==> s == Block(t)
    ensures s.Recheck? && s.t == t && m.buffer.Free() > 0 ==> Serves(m, s, Next(m, s), t)
    ensures s.Recheck? && s.t == t && m.buffer.Free() == 0 ==>
              var m' := Next(m, s);
              && t in m'.blocked && t !in m'.notified && t !in m'.spurious
              && m'.held == m.held && m'.buffer == m.buffer
  {}

  /** Every notification has its cause: it is owed exactly from the return of a connection until
      it is sent, and delivered exactly from then, to a waiting thread, until that one tests again. */
  lemma StepKeepsNotifications(m: Monitor, s: Step, t: Thread)
    requires m.buffer.Valid() && ThreadsApart(m) && Enabled(m, s)
    requires s.Return? ==> m.buffer.used != 0
    ensures t in Next(m, s).returning <==> (s.Return? && s.t == t) || (t in m.returning && !(s.Notify? && s.t == t))
    ensures t in Next(m, s).notified <==>
              (s.Notify? && s.chosen == Some(t) && t in m.blocked) || (t in m.notified && !(s.Recheck? && s.t == t))
    ensures s.Notify? && m.blocked != {} ==> s.chosen.Some?
  {}

  lemma StepKeepsSize(m: Monitor, s: Step)
    requires m.buffer.Valid() && Enabled(m, s)
    requires s.Return? ==> m.buffer.used != 0
    ensures |Next(m, s).buffer.slots| == |m.buffer.slots|
  {}

  // ---------------------------------------------------------------- runs

  /** trace[0], ..., trace[n] with steps[k] leading from trace[k] to trace[k + 1]. */
  ghost predicate IsRun(connections: seq<Connection>, trace: seq<Monitor>, steps: seq<Step>) {
    && |trace| == |steps| + 1
    && trace[0] == Start(connections)
    && forall k :: 0 <= k < |steps| ==> Transition(trace[k], steps[k], trace[k + 1])
  }

  /** Besides Enabled, a transition carries the guards under which Next is defined:
      a well-formed buffer and the assertion in ReturnConnection.
      GuardsAlwaysHold shows that no run is ever cut short by them. */
  ghost predicate Transition(m: Monitor, s: Step, m': Monitor) {
    && Enabled(m, s)
    && m.buffer.Valid()
    && (s.Return? ==> m.buffer.used != 0)
    && m' == Next(m, s)
  }

  lemma TransitionInv(m: Monitor, s: Step, m': Monitor, initial: multiset<Connection>)
    requires Inv(m, initial) && Transition(m, s, m')
    ensures Inv(m', initial)
    ensures m'.dropped == multiset{} <==> m.dropped == multiset{} && !OverwritesLive(m, s)
    ensures |m'.buffer.slots| == |m.buffer.slots|
  {
    hide Conserved, ThreadsApart, NoLostWakeup, Next, Enabled, OverwritesLive, Slots.Valid;
    StepConserves(m, initial, s);
    StepKeepsThreadsApart(m, s);
    StepKeepsWakeups(m, s);
    StepKeepsSize(m, s);
  }

  /** Every reachable state satisfies the invariant; connections are lost exactly by
      the steps that overwrite a live wrapper. */
  lemma {:induction false} RunInv(connections: seq<Connection>, trace: seq<Monitor>, steps: seq<Step>, k: nat)
    requires IsRun(connections, trace, steps) && k <= |steps|
    ensures Inv(trace[k], multiset(connections))
    ensures trace[k].dropped == multiset{} <==> forall j :: 0 <= j < k ==> !OverwritesLive(trace[j], steps[j])
    ensures |trace[k].buffer.slots| == |connections|
  {
    if k == 0 {
      StartInv(connections);
    } else {
      RunInv(connections, trace, steps, k - 1);
      assert Transition(trace[k - 1], steps[k - 1], trace[k - 1 + 1]);
      hide *;
      TransitionInv(trace[k - 1], steps[k - 1], trace[k], multiset(connections));
    }
  }

  /** The assertion used_connections_ != 0 never fires, and no other guard is ever missing. */
  lemma GuardsAlwaysHold(connections: seq<Connection>, trace: seq<Monitor>, steps: seq<Step>, s: Step)
    requires IsRun(connections, trace, steps)
    requires Enabled(trace[|steps|], s)
    ensures trace[|steps|].buffer.Valid()
    ensures s.Return? ==> trace[|steps|].buffer.used != 0
    ensures exists m' :: Transition(trace[|steps|], s, m')
  {
    var m := trace[|steps|];
    RunInv(connections, trace, steps, |steps|);
    if s.Return? {
      ReturnFindsUsed(m, multiset(connections), s);
    }
    assert Transition(m, s, Next(m, s));
  }

  /** No lost wake-up: while a thread is blocked, every free connection is matched by a
      notification that has been delivered or is still going to be sent. */
  lemma NoWakeupIsLost(connections: seq<Connection>, trace: seq<Monitor>, steps: seq<Step>, k: nat)
    requires IsRun(connections, trace, steps) && k <= |steps|
    requires trace[k].blocked != {}
    ensures trace[k].buffer.Free() <= |trace[k].notified| + |trace[k].returning|
    ensures trace[k].buffer.Free() > 0 ==> exists t :: t in trace[k].notified || t in trace[k].returning
  {
    RunInv(connections, trace, steps, k);
    if trace[k].buffer.Free() > 0 {
      if trace[k].notified != {} {
        var t :| t in trace[k].notified;
      } else {
        assert trace[k].returning != {};
        var t :| t in trace[k].returning;
      }
    }
  }

  /** Whatever a thread is at, it can go on: it arrives and is served or blocks, tests again
      after any wake-up, returns any wrapper, or sends its notification. */
  lemma NobodyIsHeldUp(connections: seq<Connection>, trace: seq<Monitor>, steps: seq<Step>, t: Thread, w: Handle)
    requires IsRun(connections, trace, steps)
    requires w !in trace[|steps|].held
    ensures var m := trace[|steps|];
            && (t in m.blocked ==> Enabled(m, SpuriousWake(t)))
            && (t in m.notified || t in m.spurious ==> Enabled(m, Recheck(t, w)))
            && (t in m.returning ==> exists chosen :: Enabled(m, Notify(t, chosen)))
            && (t !in Waiting(m) && t !in m.returning ==>
                  && Enabled(m, if m.buffer.Free() > 0 then Acquire(t, w) else Block(t))
                  && forall v :: v in m.held ==> Enabled(m, Return(t, v)))
  {
    var m := trace[|steps|];
    RunInv(connections, trace, steps, |steps|);
    if t in m.returning {
      if m.blocked == {} {
        assert Enabled(m, Notify(t, None));
      } else {
        var u :| u in m.blocked;
        assert Enabled(m, Notify(t, Some(u)));
      }
    }
  }

  /** A thread that waits keeps waiting until it is served: GetConnection never returns without
      a connection. */
  lemma {:induction false} WaitsUntilServed(connections: seq<Connection>, trace: seq<Monitor>, steps: seq<Step>,
                                            i: nat, k: nat, t: Thread)
    requires IsRun(connections, trace, steps) && i <= k <= |steps|
    requires t in Waiting(trace[i]) || (i < k && steps[i] == Block(t))
    ensures t in Waiting(trace[k]) || exists j :: i <= j < k && Serves(trace[j], steps[j], trace[j + 1], t)
    decreases k - i
  {
    if i < k {
      assert Transition(trace[i], steps[i], trace[i + 1]);
      RunInv(connections, trace, steps, i);
      StepKeepsWaiting(trace[i], steps[i], t);
      hide Next, Serves;
      if t in Waiting(trace[i + 1]) {
        WaitsUntilServed(connections, trace, steps, i + 1, k, t);
      }
    }
  }

  /** Somebody overtakes a thread that was notified: it sleeps again instead of leaving
      with nothing. */
  lemma OvertakenSleepsAgain(a: Connection)
    ensures var steps := [Acquire(1, 0), Block(2), Return(1, 0), Notify(1, Some(2)), Acquire(3, 1), Recheck(2, 2)];
            exists trace: seq<Monitor> ::
              IsRun([a], trace, steps) && trace[6] == Monitor(Slots([None], 1), map[1 := a], multiset{}, {2}, {}, {}, {})
  {
    var steps := [Acquire(1, 0), Block(2), Return(1, 0), Notify(1, Some(2)), Acquire(3, 1), Recheck(2, 2)];
    var free, taken := Slots([Some(a)], 0), Slots([None], 1);
    var m0 := Start([a]);
    var m1 := Monitor(taken, map[0 := a], multiset{}, {}, {}, {}, {});
    var m2 := m1.(blocked := {2});
    var m3 := Monitor(free, map[], multiset{}, {2}, {}, {}, {1});
    var m4 := Monitor(free, map[], multiset{}, {}, {2}, {}, {});
    var m5 := Monitor(taken, map[1 := a], multiset{}, {}, {2}, {}, {});
    var m6 := Monitor(taken, map[1 := a], multiset{}, {2}, {}, {}, {});
    assert m0.buffer == free && Transition(m0, steps[0], m1);
    assert Transition(m1, steps[1], m2);
    assert Transition(m2, steps[2], m3);
    assert Transition(m3, steps[3], m4);
    assert Transition(m4, steps[4], m5);
    assert Transition(m5, steps[5], m6);
    assert IsRun([a], [m0, m1, m2, m3, m4, m5, m6], steps);
  }

  // ---------------------------------------------------------------- a waiter can be served

  /** The run goes on by the further steps, none of them a spurious wake-up, and the last one
      serves t. */
  ghost predicate LeadsToServing(connections: seq<Connection>, trace: seq<Monitor>, steps: seq<Step>,
                                 trace': seq<Monitor>, steps': seq<Step>, t: Thread) {
    && IsRun(connections, trace', steps') && |steps| < |steps'|
    && trace <= trace' && steps <= steps'
    && (forall j :: |steps| <= j < |steps'| ==> !steps'[j].SpuriousWake?)
    && Serves(trace'[|steps'| - 1], steps'[|steps'| - 1], trace'[|steps'|], t)
  }

  lemma GoOn(connections: seq<Connection>, trace: seq<Monitor>, steps: seq<Step>, s: Step)
    returns (trace': seq<Monitor>, steps': seq<Step>)
    requires IsRun(connections, trace, steps) && Enabled(trace[|steps|], s)
    ensures IsRun(connections, trace', steps') && steps' == steps + [s] && trace' == trace + [trace'[|steps'|]]
    ensures Transition(trace[|steps|], s, trace'[|steps'|])
  {
    GuardsAlwaysHold(connections, trace, steps, s);
    var m' :| Transition(trace[|steps|], s, m');
    trace', steps' := trace + [m'], steps + [s];
    forall k | 0 <= k < |steps'| ensures Transition(trace'[k], steps'[k], trace'[k + 1]) {
      if k < |steps| {
        assert Transition(trace[k], steps[k], trace[k + 1]);
      }
    }
  }

  /** A thread and a wrapper that nobody uses. */
  lemma Unused(m: Monitor) returns (t: Thread, w: Handle)
    ensures Idle(m, t) && w !in m.held
  {
    t := Beyond(m.blocked + m.notified + m.spurious + m.returning);
    w := Beyond(m.held.Keys);
  }

  lemma Beyond(s: set<nat>) returns (n: nat)
    ensures forall k :: k in s ==> k < n
    decreases s
  {
    n := 0;
    if s != {} {
      var k :| k in s;
      var rest := Beyond(s - {k});
      n := if k < rest then rest else k + 1;
      assert forall j :: j in s ==> j == k || j in s - {k};
    }
  }

  lemma RunLength(connections: seq<Connection>, trace: seq<Monitor>, steps: seq<Step>)
    requires IsRun(connections, trace, steps)
    ensures |trace| == |steps| + 1
  {}

  /** The steps still needed, at the most, before the one that serves t. */
  ghost function StepsAway(m: Monitor, t: Thread): nat {
    if t in m.blocked then (if m.returning != {} then 2 else if m.held != map[] then 3 else 4)
    else if m.buffer.Free() > 0 then 0 else 1
  }

  /** The next step on the way: whoever is in the way of t makes room for it. */
  lemma NextOnTheWay(connections: seq<Connection>, m: Monitor, t: Thread) returns (s: Step)
    requires Inv(m, multiset(connections)) && |m.buffer.slots| == |connections|
    requires t in Waiting(m) && |m.dropped| < |connections|
    ensures Enabled(m, s) && !s.SpuriousWake? && (s.Return? ==> m.buffer.used != 0)
    ensures if StepsAway(m, t) == 0 then Serves(m, s, Next(m, s), t)
            else t in Waiting(Next(m, s)) && Next(m, s).dropped == m.dropped && StepsAway(Next(m, s), t) < StepsAway(m, t)
  {
    var u, w := Unused(m);
    if t in m.blocked && m.returning != {} {
      var r :| r in m.returning;
      s := Notify(r, Some(t));
    } else if m.held != map[] && (t in m.blocked || m.buffer.Free() == 0) {
      var v :| v in m.held;
      s := Return(u, v);
      ReturnFindsUsed(m, multiset(connections), s);
    } else if t in m.blocked {
      assert m.held == map[];
      assert m.notified != {};
      var n :| n in m.notified;
      s := Recheck(n, w);
      assert w in Next(m, s).held;
    } else {
      s := Recheck(t, w);
    }
    StepKeepsWaiting(m, s, t);
  }

  lemma OneStepOn(connections: seq<Connection>, trace: seq<Monitor>, steps: seq<Step>, t: Thread)
    returns (s: Step, trace': seq<Monitor>, steps': seq<Step>)
    requires IsRun(connections, trace, steps)
    requires t in Waiting(trace[|steps|]) && |trace[|steps|].dropped| < |connections|
    ensures IsRun(connections, trace', steps') && steps' == steps + [s] && trace <= trace' && !s.SpuriousWake?
    ensures var m, m' := trace[|steps|], trace'[|steps'|];
            if StepsAway(m, t) == 0 then Serves(m, s, m', t)
            else t in Waiting(m') && |m'.dropped| < |connections| && StepsAway(m', t) < StepsAway(m, t)
  {
    hide Next, Enabled, Serves, Inv, Waiting, StepsAway;
    RunInv(connections, trace, steps, |steps|);
    s := NextOnTheWay(connections, trace[|steps|], t);
    trace', steps' := GoOn(connections, trace, steps, s);
  }

  lemma ServedAtOnce(connections: seq<Connection>, trace: seq<Monitor>, steps: seq<Step>, s: Step,
                     trace': seq<Monitor>, t: Thread)
    requires IsRun(connections, trace, steps) && IsRun(connections, trace', steps + [s])
    requires trace <= trace' && !s.SpuriousWake? && Serves(trace[|steps|], s, trace'[|steps| + 1], t)
    ensures LeadsToServing(connections, trace, steps, trace', steps + [s], t)
  {
    hide Transition, Serves, Start;
    assert trace'[|steps|] == trace[|steps|];
  }

  lemma StillLeads(connections: seq<Connection>, trace: seq<Monitor>, steps: seq<Step>, s: Step,
                   trace1: seq<Monitor>, trace': seq<Monitor>, steps': seq<Step>, t: Thread)
    requires trace <= trace1 && !s.SpuriousWake?
    requires LeadsToServing(connections, trace1, steps + [s], trace', steps', t)
    ensures LeadsToServing(connections, trace, steps, trace', steps', t)
  {
    hide IsRun, Serves;
    assert steps'[|steps|] == s;
  }

  lemma {:induction false} WayToServing(connections: seq<Connection>, trace: seq<Monitor>, steps: seq<Step>, t: Thread)
    returns (trace': seq<Monitor>, steps': seq<Step>)
    requires IsRun(connections, trace, steps)
    requires t in Waiting(trace[|steps|]) && |trace[|steps|].dropped| < |connections|
    ensures LeadsToServing(connections, trace, steps, trace', steps', t)
    decreases StepsAway(trace[|steps|], t)
  {
    hide *;
    RunLength(connections, trace, steps);
    var s, trace1, steps1 := OneStepOn(connections, trace, steps, t);
    if StepsAway(trace[|steps|], t) == 0 {
      trace', steps' := trace1, steps1;
      ServedAtOnce(connections, trace, steps, s, trace1, t);
    } else {
      trace', steps' := WayToServing(connections, trace1, steps1, t);
      StillLeads(connections, trace, steps, s, trace1, trace', steps', t);
    }
  }

  lemma {:induction false} LostForGood(connections: seq<Connection>, trace: seq<Monitor>, steps: seq<Step>, i: nat, k: nat)
    requires IsRun(connections, trace, steps) && i <= k <= |steps|
    ensures |trace[i].dropped| <= |trace[k].dropped|
  {
    if i < k {
      LostForGood(connections, trace, steps, i, k - 1);
      assert Transition(trace[k - 1], steps[k - 1], trace[k - 1 + 1]);
    }
  }

  lemma ServedFromWhatIsLeft(connections: seq<Connection>, trace: seq<Monitor>, steps: seq<Step>,
                             trace': seq<Monitor>, steps': seq<Step>, t: Thread)
    requires |trace| == |steps| + 1 && LeadsToServing(connections, trace, steps, trace', steps', t)
    ensures |trace[|steps|].dropped| < |connections|
  {
    hide IsRun, Serves, Inv;
    RunLength(connections, trace', steps');
    var n := |steps'| - 1;
    assert trace'[|steps|] == trace[|steps|];
    LostForGood(connections, trace', steps', |steps|, n);
    RunInv(connections, trace', steps', n);
    ServesFromFree(connections, trace'[n], steps'[n], trace'[|steps'|], t);
  }

  lemma ServesFromFree(connections: seq<Connection>, m: Monitor, s: Step, m': Monitor, t: Thread)
    requires Inv(m, multiset(connections)) && |m.buffer.slots| == |connections| && Serves(m, s, m', t)
    ensures |m.dropped| < |connections|
  {}

  /** A thread that waits can still be served, without any spurious wake-up, if and only if not
      every connection has been lost: the protocol never reaches a deadlock. */
  lemma WaiterCanBeServedIff(connections: seq<Connection>, trace: seq<Monitor>, steps: seq<Step>, t: Thread)
    requires IsRun(connections, trace, steps) && t in Waiting(trace[|steps|])
    ensures (exists trace', steps' :: LeadsToServing(connections, trace, steps, trace', steps', t)) <==>
            |trace[|steps|].dropped| < |connections|
  {
    hide IsRun, LeadsToServing, Waiting;
    RunLength(connections, trace, steps);
    if |trace[|steps|].dropped| < |connections| {
      var trace', steps' := WayToServing(connections, trace, steps, t);
    }
    forall trace', steps' | LeadsToServing(connections, trace, steps, trace', steps', t)
      ensures |trace[|steps|].dropped| < |connections|
    {
      ServedFromWhatIsLeft(connections, trace, steps, trace', steps', t);
    }
  }

  /** A connection is in exactly one place as long as it was made only once:
      in one slot, owned by one live wrapper, or lost. */
  lemma ExclusiveOwnership(connections: seq<Connection>, trace: seq<Monitor>, steps: seq<Step>, k: nat, c: Connection)
    requires IsRun(connections, trace, steps) && k <= |steps|
    requires multiset(connections)[c] == 1
    ensures Copies(trace[k], c) == 1
    ensures forall v, w :: v in trace[k].held && w in trace[k].held && trace[k].held[v] == trace[k].held[w] == c ==> v == w
    ensures forall w, i :: w in trace[k].held && trace[k].held[w] == c && 0 <= i < |trace[k].buffer.slots| ==>
              trace[k].buffer.slots[i] != Some(c)
  {
    RunInv(connections, trace, steps, k);
    var m := trace[k];
    forall v, w | v in m.held && w in m.held && m.held[v] == m.held[w] == c ensures v == w {
      if v != w {
        SubsetSize({v, w}, Owners(m.held, c));
      }
    }
    forall w, i | w in m.held && m.held[w] == c && 0 <= i < |m.buffer.slots| ensures m.buffer.slots[i] != Some(c) {
      SubsetSize({w}, Owners(m.held, c));
      if m.buffer.slots[i] == Some(c) {
        SubsetSize({i}, SlotsWith(m.buffer.slots, c));
      }
    }
  }

  lemma SubsetSize(a: set<nat>, b: set<nat>)
    requires a <= b
    ensures |a| <= |b|
  {
    assert b == a + (b - a);
  }

  /** The slots below used are empty and the others full; the live wrappers number
      exactly used if and only if no step overwrote a live wrapper. */
  lemma UsedCountsWrappers(connections: seq<Connection>, trace: seq<Monitor>, steps: seq<Step>, k: nat)
    requires IsRun(connections, trace, steps) && k <= |steps|
    ensures var b := trace[k].buffer;
            && b.used <= |b.slots| == |connections|
            && (forall i :: 0 <= i < |b.slots| ==> (b.slots[i].None? <==> i < b.used))
    ensures |trace[k].held| == trace[k].buffer.used <==>
            forall j :: 0 <= j < k ==> !OverwritesLive(trace[j], steps[j])
  {
    RunInv(connections, trace, steps, k);
  }

  /** Once every wrapper is gone and every notification has been acted on, a thread can
      still be waiting only if every connection of the pool has been lost. */
  lemma NobodyIsStranded(connections: seq<Connection>, trace: seq<Monitor>, steps: seq<Step>, k: nat)
    requires IsRun(connections, trace, steps) && k <= |steps|
    requires trace[k].held == map[] && trace[k].notified == {} && trace[k].returning == {}
    ensures trace[k].blocked != {} ==> |trace[k].dropped| == |connections|
  {
    RunInv(connections, trace, steps, k);
  }

  /** Assigning one live wrapper to another loses the connection of the second. */
  lemma OverwriteLosesConnection(a: Connection, b: Connection)
    ensures var steps := [Acquire(0, 0), Acquire(0, 1), MoveWrapper(0, 1)];
            exists trace: seq<Monitor> ::
              IsRun([a, b], trace, steps) && trace[3].dropped == multiset{b} && trace[3].held == map[1 := a]
  {
    var steps := [Acquire(0, 0), Acquire(0, 1), MoveWrapper(0, 1)];
    var m0 := Start([a, b]);
    var m1 := Next(m0, steps[0]);
    assert m1.buffer == Slots([None, Some(b)], 1) && m1.held == map[0 := a];
    var m2 := Next(m1, steps[1]);
    assert m2.buffer == Slots([None, None], 2) && m2.held == map[0 := a, 1 := b];
    var m3 := Next(m2, steps[2]);
    assert m3.held == map[1 := a];
    assert IsRun([a, b], [m0, m1, m2, m3], steps);
  }
}
