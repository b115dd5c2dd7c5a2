/**
 The scheduler with its ready list, semaphores and re-entrant locks, as one step system over any
 number of threads and locks. A section that runs with interrupts off is one step, cut where the
 thread blocks; lock_acquire and lock_release are several steps, with ticks allowed between them.
 */
module Sched {
  import opened Common

  type Tid = nat
  type LockId = nat

  datatype Status = Running | Ready | Blocked | Waiting | Hanging

  /** Where a thread is inside the lock code; Client is anywhere outside it, Asleep is blocked for another reason. */
  datatype Pc =
    | Client
    | Asleep
    | Down(l: LockId)        // about to test the semaphore for the first time
    | DownAgain(l: LockId)   // blocked in the semaphore, or woken and about to test it again
    | SetHolder(l: LockId)
    | SetCount(l: LockId)
    | Nest(l: LockId)        // lock_acquire by the holder: about to count one more
    | Unnest(l: LockId)      // lock_release of a nested acquire: about to count one less
    | ClearCount(l: LockId)
    | ClearHolder(l: LockId)
    | Up(l: LockId)

  /** `depth` counts, for each lock, the acquires that returned and whose release has not been called. */
  datatype Thread = Thread(status: Status, ticks: nat, priority: nat, pc: Pc, depth: map<LockId, nat>)

  datatype Lock = Lock(value: nat, waiters: seq<Tid>, holder: Maybe<Tid>, repeats: nat)

  datatype State = State(threads: map<Tid, Thread>, cur: Tid, ready: seq<Tid>, idle: Tid, locks: map<LockId, Lock>)

  predicate Sleeping(st: Status) { st.Blocked? || st.Waiting? || st.Hanging? }

  function Depth(m: map<LockId, nat>, l: LockId): nat {
    if l in m then m[l] else 0
  }

  // ---------------------------------------------------------------- the atomic sections

  function Put(s: State, t: Tid, th: Thread): State {
    s.(threads := s.threads[t := th])
  }

  function Me(s: State): Thread
    requires s.cur in s.threads
  {
    s.threads[s.cur]
  }

  function Goto(s: State, pc: Pc): State
    requires s.cur in s.threads
  {
    Put(s, s.cur, Me(s).(pc := pc))
  }

  function WithLock(s: State, l: LockId, k: Lock): State {
    s.(locks := s.locks[l := k])
  }

  /** thread_unlock: to the front of the ready list, with status RUNNING although it is only queued. */
  function Unlock(s: State, t: Tid): State
    requires t in s.threads
  {
    var th := s.threads[t];
    Put(s, t, th.(status := Running, pc := if th.pc.Asleep? then Client else th.pc)).(ready := [t] + s.ready)
  }

  /** First half of schedule: a thread whose slice ended goes to the back with a new slice. */
  function Requeue(s: State): State {
    if s.cur in s.threads && Me(s).status.Running?
    then Put(s, s.cur, Me(s).(status := Ready, ticks := Me(s).priority)).(ready := s.ready + [s.cur])
    else s
  }

  function RunHead(r: State): State
    requires r.ready != [] && r.ready[0] in r.threads
  {
    var t := r.ready[0];
    Put(r, t, r.threads[t].(status := Running)).(ready := r.ready[1..], cur := t)
  }

  /** Second half: wake the idle thread if nobody is ready, then run the first of the list. */
  function Dispatch(s: State): State
    requires s.idle in s.threads && forall t :: t in s.ready ==> t in s.threads
  {
    RunHead(if s.ready == [] then Unlock(s, s.idle) else s)
  }

  predicate CanSchedule(s: State) {
    s.idle in s.threads && forall t :: t in s.ready ==> t in s.threads
  }

  function Schedule(s: State): State
    requires CanSchedule(s)
  {
    Dispatch(Requeue(s))
  }

  function Tick(s: State): State
    requires CanSchedule(s) && s.cur in s.threads
  {
    if Me(s).ticks == 0 then Schedule(s) else Put(s, s.cur, Me(s).(ticks := Me(s).ticks - 1))
  }

  function Block(s: State, st: Status, pc: Pc): State
    requires CanSchedule(s) && s.cur in s.threads
  {
    Schedule(Put(s, s.cur, Me(s).(status := st, pc := pc)))
  }

  /** One pass through the loop of sema_down: take the value, or join the waiters and block. */
  function SemaDown(s: State, l: LockId): State
    requires CanSchedule(s) && s.cur in s.threads && l in s.locks
  {
    var k := s.locks[l];
    if k.value == 0 then
      if s.cur in k.waiters then s
      else Block(WithLock(s, l, k.(waiters := k.waiters + [s.cur])), Blocked, DownAgain(l))
    else Goto(WithLock(s, l, k.(value := k.value - 1)), SetHolder(l))
  }

  /** sema_up: wake the first waiter, if any, and raise the value. */
  function SemaUp(s: State, l: LockId): State
    requires s.cur in s.threads && l in s.locks
  {
    var k := s.locks[l];
    var s1 := Goto(s, Client);
    if k.waiters != [] && k.waiters[0] in s.threads
    then Unlock(WithLock(s1, l, k.(value := k.value + 1, waiters := k.waiters[1..])), k.waiters[0])
    else WithLock(s1, l, k.(value := k.value + 1))
  }

  /** The next statement of the lock code the current thread is in. */
  function Proceed(s: State): State
    requires CanSchedule(s) && s.cur in s.threads
    requires Me(s).pc.Client? || Me(s).pc.Asleep? || Me(s).pc.l in s.locks
  {
    var me := Me(s);
    match me.pc
    case Client => s
    case Asleep => s
    case Down(l) => SemaDown(s, l)
    case DownAgain(l) => SemaDown(s, l)
    case SetHolder(l) => Goto(WithLock(s, l, s.locks[l].(holder := Just(s.cur))), SetCount(l))
    case SetCount(l) =>
      Put(WithLock(s, l, s.locks[l].(repeats := 1)), s.cur, me.(pc := Client, depth := me.depth[l := Depth(me.depth,
        l) + 1]))
    case Nest(l) =>
      Put(WithLock(s, l, s.locks[l].(repeats := s.locks[l].repeats + 1)), s.cur,
          me.(pc := Client, depth := me.depth[l := Depth(me.depth, l) + 1]))
    case Unnest(l) =>
      if s.locks[l].repeats == 0 then s
      else Goto(WithLock(s, l, s.locks[l].(repeats := s.locks[l].repeats - 1)), Client)
    case ClearCount(l) => Goto(WithLock(s, l, s.locks[l].(repeats := 0)), ClearHolder(l))
    case ClearHolder(l) => Goto(WithLock(s, l, s.locks[l].(holder := Nothing)), Up(l))
    case Up(l) => SemaUp(s, l)
  }

  /** lock_acquire up to its test of the holder. */
  function Acquire(s: State, l: LockId): State
    requires s.cur in s.threads && l in s.locks
  {
    Goto(s, if s.locks[l].holder != Just(s.cur) then Down(l) else Nest(l))
  }

  /** lock_release up to its test of the count. The caller is outside the section from here on, or one level up. */
  function Release(s: State, l: LockId): State
    requires s.cur in s.threads && l in s.locks && Depth(Me(s).depth, l) > 0
  {
    var me := Me(s);
    Put(s, s.cur, me.(pc := if s.locks[l].repeats > 1 then Unnest(l) else ClearCount(l),
                      depth := me.depth[l := Depth(me.depth, l) - 1]))
  }

  /** thread_yield. */
  function Yield(s: State): State
    requires CanSchedule(s) && s.cur in s.threads
  {
    Schedule(Put(s, s.cur, Me(s).(status := Ready)).(ready := s.ready + [s.cur]))
  }

  function Spawn(s: State, t: Tid, priority: nat): State {
    Put(s, t, Thread(Ready, priority, priority, Client, map[])).(ready := s.ready + [t])
  }

  /** thread_exit of the current thread, then schedule. */
  function ExitSelf(s: State): State
    requires s.idle in s.threads && s.idle != s.cur && forall t :: t in s.ready ==> t in s.threads && t != s.cur
  {
    Schedule(s.(threads := s.threads - {s.cur}))
  }

  function Reap(s: State, t: Tid): State {
    s.(threads := s.threads - {t})
  }

  // ---------------------------------------------------------------- actions

  datatype Action =
    | ATick
    | AProceed
    | AAcquire(l: LockId)
    | ARelease(l: LockId)
    | AYield
    | ASleep(st: Status)
    | AWake(t: Tid)
    | ASpawn(t: Tid, priority: nat)
    | AExit
    | AReap(t: Tid)

  predicate Free(th: Thread) { th.pc.Client? && forall l :: l in th.depth ==> th.depth[l] == 0 }

  /**
   When an action can happen. A tick or a wake-up by an interrupt handler comes between any two statements; the idle
   thread only sleeps; a thread ends holding no lock.
   */
  predicate Enabled(s: State, a: Action) {
    && CanSchedule(s) && s.cur in s.threads
    && match a
       case ATick => true
       case AProceed => !Me(s).pc.Client? && !Me(s).pc.Asleep? && Me(s).pc.l in s.locks
       case AAcquire(l) => Me(s).pc.Client? && s.cur != s.idle && l in s.locks
       case ARelease(l) => Me(s).pc.Client? && l in s.locks && Depth(Me(s).depth, l) > 0
       case AYield => Me(s).pc.Client?
       case ASleep(st) => Me(s).pc.Client? && Sleeping(st) && (s.cur == s.idle ==> st.Blocked?)
       case AWake(t) => t in s.threads && s.threads[t].pc.Asleep? && Sleeping(s.threads[t].status)
       case ASpawn(t, _) => Me(s).pc.Client? && t !in s.threads
       case AExit => Free(Me(s)) && s.cur != s.idle && s.cur !in s.ready
       case AReap(t) => Me(s).pc.Client? && t in s.threads && t != s.idle && s.threads[t].pc.Asleep?
                        && s.threads[t].status.Hanging? && forall l :: l in s.threads[t].depth ==>
                              s.threads[t].depth[l] == 0
  }

  function Step(s: State, a: Action): State {
    if !Enabled(s, a) then s else
      match a
      case ATick => Tick(s)
      case AProceed => Proceed(s)
      case AAcquire(l) => Acquire(s, l)
      case ARelease(l) => Release(s, l)
      case AYield => Yield(s)
      case ASleep(st) => Block(s, st, Asleep)
      case AWake(t) => Unlock(s, t)
      case ASpawn(t, priority) => Spawn(s, t, priority)
      case AExit => ExitSelf(s)
      case AReap(t) => Reap(s, t)
  }

  function Run(s: State, acts: seq<Action>): State {
    if acts == [] then s else Step(Run(s, acts[..|acts| - 1]), acts[|acts| - 1])
  }

  // ---------------------------------------------------------------- where every thread is

  ghost predicate Parked(s: State, t: Tid) {
    && t in s.threads && s.threads[t].pc.DownAgain? && s.threads[t].pc.l in s.locks
    && t in s.locks[s.threads[t].pc.l].waiters
  }

  ghost predicate Off(s: State, t: Tid) {
    t in s.threads && s.threads[t].pc.Asleep? && Sleeping(s.threads[t].status)
  }

  ghost predicate OnCpu(s: State, t: Tid) {
    t == s.cur && t in s.threads && s.threads[t].status.Running? && !s.threads[t].pc.Asleep? && t !in s.ready
      && !Parked(s, t)
  }

  ghost predicate QueueOk(s: State) {
    && NoDup(s.ready)
    && forall t :: t in s.ready ==>
          t in s.threads && !Sleeping(s.threads[t].status) && !s.threads[t].pc.Asleep? && !Parked(s, t)
  }

  ghost predicate WaitersOk(s: State) {
    && (forall l :: l in s.locks ==> NoDup(s.locks[l].waiters))
    && (forall l, t :: l in s.locks && t in s.locks[l].waiters ==>
          t in s.threads && s.threads[t].pc == DownAgain(l) && s.threads[t].status.Blocked?)
  }

  ghost predicate EveryoneSomewhere(s: State) {
    forall t :: t in s.threads ==> t in s.ready || Parked(s, t) || Off(s, t) || OnCpu(s, t)
  }

  /** The idle thread never enters the lock code. */
  ghost predicate IdleOk(s: State) {
    && s.idle in s.threads && (s.threads[s.idle].pc.Client? || s.threads[s.idle].pc.Asleep?)
    && (s.threads[s.idle].pc.Asleep? ==> s.threads[s.idle].status.Blocked?)
    && forall l :: Depth(s.threads[s.idle].depth, l) == 0
  }

  /** Every thread is in exactly one place: queued, parked on one semaphore, off every list, or on the CPU. */
  ghost predicate Placed(s: State) {
    QueueOk(s) && WaitersOk(s) && EveryoneSomewhere(s) && IdleOk(s)
  }

  // ---------------------------------------------------------------- who has a lock

  /** The thread has taken the semaphore of l and not yet raised it again. */
  ghost predicate Owns(th: Thread, l: LockId) {
    Depth(th.depth, l) > 0 || th.pc == SetHolder(l) || th.pc == SetCount(l) || th.pc == ClearCount(l)
      || th.pc == ClearHolder(l) || th.pc == Up(l)
  }

  ghost predicate IsHolder(th: Thread, l: LockId) {
    Owns(th, l) && th.pc != SetHolder(l) && th.pc != Up(l)
  }

  /** holder_repeat_nm while the thread is the holder: its depth, but for the statement that is about to change it. */
  ghost function Repeats(th: Thread, l: LockId): nat {
    if th.pc == Unnest(l) then Depth(th.depth, l) + 1
    else if th.pc == ClearCount(l) then 1
    else Depth(th.depth, l)
  }

  ghost predicate PcOk(s: State, t: Tid)
    requires t in s.threads
  {
    var th := s.threads[t];
    && (forall l :: Depth(th.depth, l) > 0 ==> l in s.locks)
    && (!th.pc.Client? && !th.pc.Asleep? ==> th.pc.l in s.locks)
    && (!th.pc.Client? && !th.pc.Asleep? && !th.pc.Nest? && !th.pc.Unnest? ==> Depth(th.depth, th.pc.l) == 0)
    && (th.pc.Nest? || th.pc.Unnest? ==> Depth(th.depth, th.pc.l) > 0)
  }

  ghost predicate Runnable(s: State, t: Tid) { t == s.cur || t in s.ready }

  /** A thread popped from the waiters that still has to test the value again. */
  ghost predicate Woken(s: State, t: Tid, l: LockId) {
    t in s.threads && s.threads[t].pc == DownAgain(l) && Runnable(s, t)
  }

  ghost function Owners(s: State, l: LockId): set<Tid> {
    set t | t in s.threads && Owns(s.threads[t], l)
  }

  ghost function Holders(s: State, l: LockId): set<Tid> {
    set t | t in s.threads && IsHolder(s.threads[t], l)
  }

  ghost function Count(s: State, l: LockId, holder: Maybe<Tid>): nat {
    if holder.Just? && holder.value in s.threads then Repeats(s.threads[holder.value], l) else 0
  }

  /**
   What the fields of a lock say about the threads: at most one owner, and the value is 0 exactly while there is one.
   */
  ghost predicate CoreOk(k: Lock, owners: set<Tid>, holders: set<Tid>, count: nat) {
    && k.value <= 1
    && (forall t, u :: t in owners && u in owners ==> t == u)
    && (k.value == 0 <==> owners != {})
    && holders == (if k.holder.Just? then {k.holder.value} else {})
    && k.repeats == count
  }

  ghost predicate LockCore(s: State, l: LockId)
    requires l in s.locks
  {
    CoreOk(s.locks[l], Owners(s, l), Holders(s, l), Count(s, l, s.locks[l].holder))
  }

  /** No wakeup is lost: while the value is free and threads wait, one that was woken is about to test again. */
  ghost predicate WakeOk(s: State, l: LockId)
    requires l in s.locks
  {
    s.locks[l].value == 1 && s.locks[l].waiters != [] ==> exists t :: Woken(s, t, l)
  }

  ghost predicate LocksOk(s: State) {
    && (forall t :: t in s.threads ==> PcOk(s, t))
    && (forall l :: l in s.locks ==> LockCore(s, l) && WakeOk(s, l))
  }

  /** The invariant of every reachable state. */
  ghost predicate Inv(s: State) {
    Placed(s) && LocksOk(s) && OnCpu(s, s.cur)
  }

  // ---------------------------------------------------------------- scheduling keeps it

  /** The state between the halves of schedule: nobody is on the CPU and woken threads are queued. */
  ghost predicate Pending(s: State) {
    && Placed(s) && (s.cur in s.threads ==> !s.threads[s.cur].status.Running?)
    && (forall t :: t in s.threads ==> PcOk(s, t))
    && (forall l :: l in s.locks ==> LockCore(s, l))
    && (forall l :: l in s.locks && s.locks[l].value == 1 && s.locks[l].waiters != [] ==>
          exists t :: t in s.ready && Woken(s, t, l))
  }

  /** Moves that no lock can see. */
  ghost predicate SamePlace(th: Thread, eh: Thread) {
    eh.depth == th.depth
    && (eh.pc == th.pc
        || ((th.pc.Client? || th.pc.Asleep?) && (eh.pc.Client? || eh.pc.Asleep?))
        || (th.pc.Down? && eh.pc == DownAgain(th.pc.l)))
  }

  ghost predicate SameCode(s: State, d: State) {
    && d.idle == s.idle
    && (forall l :: l in d.locks <==> l in s.locks)
    && (forall l :: l in s.locks ==> d.locks[l].(waiters := []) == s.locks[l].(waiters := []))
    && (forall t :: t in d.threads <==> t in s.threads)
    && forall t :: t in s.threads ==> SamePlace(s.threads[t], d.threads[t])
  }

  lemma SamePlaceOwns(th: Thread, eh: Thread, l: LockId)
    requires SamePlace(th, eh)
    ensures Owns(eh, l) == Owns(th, l) && IsHolder(eh, l) == IsHolder(th, l) && Repeats(eh, l) == Repeats(th, l)
  {
  }

  lemma SameCodePc(s: State, d: State, t: Tid)
    requires SameCode(s, d) && t in s.threads && PcOk(s, t)
    ensures PcOk(d, t)
  {
    hide Depth;
    assert SamePlace(s.threads[t], d.threads[t]);
  }

  lemma SameCodeLock(s: State, d: State, l: LockId)
    requires SameCode(s, d) && l in s.locks && LockCore(s, l)
    ensures LockCore(d, l)
  {
    hide Depth, Owns, IsHolder, Repeats;
    assert d.locks[l].(waiters := []) == s.locks[l].(waiters := []);
    forall t | t in s.threads
      ensures Owns(d.threads[t], l) == Owns(s.threads[t], l) && IsHolder(d.threads[t], l) == IsHolder(s.threads[t], l)
      ensures Repeats(d.threads[t], l) == Repeats(s.threads[t], l)
    {
      SamePlaceOwns(s.threads[t], d.threads[t], l);
    }
    assert Owners(d, l) == Owners(s, l) && Holders(d, l) == Holders(s, l);
  }

  /** Statuses, ticks and queues do not matter to the locks. */
  lemma SameCodeLocks(s: State, d: State)
    requires SameCode(s, d)
    requires forall t :: t in s.threads ==> PcOk(s, t)
    requires forall l :: l in s.locks ==> LockCore(s, l)
    ensures forall t :: t in d.threads ==> PcOk(d, t)
    ensures forall l :: l in d.locks ==> LockCore(d, l)
  {
    hide LockCore, PcOk, SamePlace;
    forall t | t in d.threads ensures PcOk(d, t) { SameCodePc(s, d, t); }
    forall l | l in d.locks ensures LockCore(d, l) { SameCodeLock(s, d, l); }
  }

  lemma SomewhereElse(s: State, t: Tid)
    requires EveryoneSomewhere(s)
    ensures forall u :: u in s.threads && u != t ==> u in s.ready || Parked(s, u) || Off(s, u) || OnCpu(s, u)
  {
  }

  lemma IdleOff(s: State)
    requires Placed(s) && !OnCpu(s, s.cur) && s.ready == []
    ensures Off(s, s.idle)
  {
  }

  /** A thread about to be woken: asleep, or just popped from the waiters of its semaphore. */
  ghost predicate Wakeable(s: State, t: Tid) {
    t in s.threads && t !in s.ready && (Off(s, t) || (s.threads[t].pc.DownAgain? && !Parked(s, t) && t != s.cur))
  }

  lemma UnlockPlaced(s: State, t: Tid)
    requires QueueOk(s) && WaitersOk(s) && IdleOk(s) && Wakeable(s, t)
    requires forall u :: u in s.threads && u != t ==> u in s.ready || Parked(s, u) || Off(s, u) || OnCpu(s, u)
    ensures Placed(Unlock(s, t)) && SameCode(s, Unlock(s, t))
    ensures t != s.cur ==> (OnCpu(Unlock(s, t), s.cur) <==> OnCpu(s, s.cur))
  {
    hide Depth, QueueOk, WaitersOk;
    var d := Unlock(s, t);
    UnlockQueue(s, t);
    UnlockWaiters(s, t);
    assert forall u :: u in d.ready <==> u == t || u in s.ready;
    forall u | u in s.threads && u != t ensures Parked(d, u) == Parked(s, u) && Off(d, u) == Off(s, u) { }
  }

  lemma UnlockQueue(s: State, t: Tid)
    requires QueueOk(s) && Wakeable(s, t) && WaitersOk(s)
    ensures QueueOk(Unlock(s, t))
  {
    hide Depth;
    var d := Unlock(s, t);
    assert forall u :: u in d.ready <==> u == t || u in s.ready;
    assert forall i :: 1 <= i < |d.ready| ==> d.ready[i] == s.ready[i - 1];
  }

  lemma UnlockWaiters(s: State, t: Tid)
    requires WaitersOk(s) && Wakeable(s, t)
    ensures WaitersOk(Unlock(s, t))
  {
    hide Depth, NoDup;
  }

  lemma ReadyKnown(s: State)
    requires QueueOk(s) && IdleOk(s)
    ensures CanSchedule(s)
  {
  }

  lemma DispatchKeeps(s: State)
    requires Pending(s)
    ensures CanSchedule(s) && Inv(Dispatch(s))
  {
    hide LockCore, PcOk, Depth, NoDup, QueueOk, WaitersOk, EveryoneSomewhere, IdleOk;
    ReadyKnown(s);
    var r := s;
    if s.ready == [] {
      IdleOff(s);
      SomewhereElse(s, s.idle);
      UnlockPlaced(s, s.idle);
      r := Unlock(s, s.idle);
    }
    var d := Dispatch(s);
    assert SameCode(s, d);
    SameCodeLocks(s, d);
    HeadRuns(r);
    forall l | l in d.locks ensures WakeOk(d, l) {
      if d.locks[l].value == 1 && d.locks[l].waiters != [] {
        var t :| t in s.ready && Woken(s, t, l);
        assert t in r.ready && Runnable(d, t);
        assert Woken(d, t, l);
      }
    }
  }

  /** Taking the head of the ready list puts it on the CPU and leaves every other thread in its place. */
  lemma HeadRuns(r: State)
    requires Placed(r) && r.ready != [] && !OnCpu(r, r.cur)
    ensures Placed(RunHead(r)) && OnCpu(RunHead(r), r.ready[0])
  {
    hide Depth, NoDup;
    var d := RunHead(r);
    HeadQueue(r);
    HeadWaiters(r);
    assert forall u :: u in r.ready <==> u == r.ready[0] || u in r.ready[1..];
    assert forall u :: Parked(d, u) == Parked(r, u);
  }

  lemma HeadQueue(r: State)
    requires QueueOk(r) && r.ready != []
    ensures QueueOk(RunHead(r)) && r.ready[0] !in r.ready[1..]
  {
    hide Depth;
    var d := RunHead(r);
    assert forall i :: 0 <= i < |d.ready| ==> d.ready[i] == r.ready[i + 1];
    assert forall u :: u in d.ready ==> u in r.ready;
    assert forall u :: Parked(d, u) == Parked(r, u);
  }

  lemma HeadWaiters(r: State)
    requires QueueOk(r) && WaitersOk(r) && r.ready != []
    ensures WaitersOk(RunHead(r))
  {
    hide Depth, NoDup;
    assert !Parked(r, r.ready[0]);
  }

  // ---------------------------------------------------------------- giving up the processor keeps it

  lemma WokenQueued(s: State, l: LockId)
    requires Inv(s) && l in s.locks && s.locks[l].value == 1 && s.locks[l].waiters != []
    ensures exists t :: Woken(s, t, l) && (t in s.ready || t == s.cur)
  {
    hide Placed, LockCore;
    assert WakeOk(s, l);
  }

  /** The idle thread sleeps in no other way than BLOCKED. */
  ghost predicate IdleRests(d: State) {
    d.idle in d.threads && d.threads[d.idle].pc.Asleep? ==> d.threads[d.idle].status.Blocked?
  }

  lemma RestStill(s: State, th: Thread)
    requires Placed(s) && s.cur in s.threads && (th.pc.Asleep? && s.cur == s.idle ==> th.status.Blocked?)
    ensures forall d: State :: d.threads == s.threads[s.cur := th] && d.idle == s.idle ==> IdleRests(d)
  {
    hide QueueOk, WaitersOk, EveryoneSomewhere;
  }

  /** The thread leaves the processor for a place where the rest of the state can find it. */
  ghost predicate Left(s: State, d: State) {
    && s.cur in s.threads && d.cur == s.cur && SameCode(s, d) && !d.threads[d.cur].status.Running?
    && QueueOk(d) && WaitersOk(d) && EveryoneSomewhere(d)
    && IdleRests(d)
    && (forall t :: t in s.ready ==> t in d.ready)
    && (s.threads[s.cur].pc.DownAgain? && s.threads[s.cur].pc.l in s.locks && s.locks[s.threads[s.cur].pc.l].value != 0
        ==> d.cur in d.ready)
    && (forall l :: l in d.locks && d.locks[l].value != 0 ==> d.locks[l].waiters == s.locks[l].waiters)
  }

  lemma LeftPending(s: State, d: State)
    requires Inv(s) && Left(s, d)
    ensures Pending(d)
  {
    hide LockCore, PcOk, Depth, NoDup, QueueOk, WaitersOk, EveryoneSomewhere, IdleOk, SamePlace;
    SameCodeLocks(s, d);
    IdleStill(s, d);
    forall l | l in d.locks && d.locks[l].value == 1 && d.locks[l].waiters != []
      ensures exists t :: t in d.ready && Woken(d, t, l)
    {
      assert s.locks[l].(waiters := []) == d.locks[l].(waiters := []);
      WokenQueued(s, l);
      var t :| Woken(s, t, l) && (t in s.ready || t == s.cur);
      SameWaiting(s.threads[t], d.threads[t]);
      assert Woken(d, t, l) && t in d.ready;
    }
  }

  lemma SameWaiting(th: Thread, eh: Thread)
    requires SamePlace(th, eh) && th.pc.DownAgain?
    ensures eh.pc == th.pc
  {
  }

  lemma IdleStill(s: State, d: State)
    requires Placed(s) && SameCode(s, d)
    requires IdleRests(d)
    ensures IdleOk(d)
  {
    hide Depth, QueueOk, WaitersOk, EveryoneSomewhere;
    assert SamePlace(s.threads[s.idle], d.threads[s.idle]);
  }

  lemma RequeueLeft(s: State)
    requires Inv(s) && Me(s).status.Running?
    ensures Left(s, Requeue(s))
  {
    hide LockCore, PcOk, WakeOk, Depth;
    var d := Requeue(s);
    AppendQueue(s, Me(s).(status := Ready, ticks := Me(s).priority));
  }

  /** The current thread goes to the back of the ready list. */
  lemma AppendQueue(s: State, th: Thread)
    requires Placed(s) && OnCpu(s, s.cur) && th.pc == Me(s).pc && !Sleeping(th.status) && !th.status.Running?
    requires th.depth == Me(s).depth
    ensures var d := Put(s, s.cur, th).(ready := s.ready + [s.cur]);
      QueueOk(d) && WaitersOk(d) && EveryoneSomewhere(d) && SameCode(s, d)
    ensures forall t :: t in s.ready ==> t in s.ready + [s.cur]
  {
    hide Depth, NoDup;
    var d := Put(s, s.cur, th).(ready := s.ready + [s.cur]);
    assert forall u :: Parked(d, u) == Parked(s, u);
    assert forall u :: u in d.ready <==> u in s.ready || u == s.cur;
    AppendNoDup(s.ready, s.cur);
  }

  lemma ScheduleKeeps(s: State)
    requires Pending(s)
    ensures CanSchedule(s) && Schedule(s) == Dispatch(s) && Inv(Schedule(s))
  {
    hide LockCore, PcOk, Depth, NoDup, WaitersOk, EveryoneSomewhere, IdleOk;
    DispatchKeeps(s);
  }

  lemma TickKeeps(s: State)
    requires Inv(s)
    ensures CanSchedule(s) && Inv(Tick(s))
  {
    hide LockCore, PcOk, Depth, NoDup, WaitersOk, EveryoneSomewhere, IdleOk, WakeOk;
    ReadyKnown(s);
    if Me(s).ticks == 0 {
      RequeueLeft(s);
      LeftPending(s, Requeue(s));
      DispatchKeeps(Requeue(s));
    } else {
      Countdown(s);
    }
  }

  lemma Countdown(s: State)
    requires Inv(s) && CanSchedule(s) && Me(s).ticks > 0
    ensures Inv(Tick(s))
  {
    hide LockCore, PcOk, Depth, NoDup, Placed;
    var d := Tick(s);
    SameCodeLocks(s, d);
    CountdownPlaced(s);
    forall l | l in d.locks ensures WakeOk(d, l) {
      assert WakeOk(s, l);
      if d.locks[l].value == 1 && d.locks[l].waiters != [] {
        var t :| Woken(s, t, l);
        assert Woken(d, t, l);
      }
    }
  }

  lemma CountdownPlaced(s: State)
    requires Placed(s) && OnCpu(s, s.cur) && Me(s).ticks > 0
    ensures Placed(Put(s, s.cur, Me(s).(ticks := Me(s).ticks - 1)))
    ensures OnCpu(Put(s, s.cur, Me(s).(ticks := Me(s).ticks - 1)), s.cur)
  {
    hide Depth, NoDup;
    var d := Put(s, s.cur, Me(s).(ticks := Me(s).ticks - 1));
    assert forall u :: Parked(d, u) == Parked(s, u);
  }

  lemma YieldKeeps(s: State)
    requires Inv(s) && Me(s).pc.Client?
    ensures CanSchedule(s) && Inv(Yield(s))
  {
    hide Inv, Pending;
    YieldPending(s);
    ScheduleKeeps(Queued(s));
  }

  function Queued(s: State): State
    requires s.cur in s.threads
  {
    Put(s, s.cur, Me(s).(status := Ready)).(ready := s.ready + [s.cur])
  }

  lemma YieldPending(s: State)
    requires Inv(s) && Me(s).pc.Client?
    ensures s.cur in s.threads && CanSchedule(s) && Pending(Queued(s))
  {
    hide LockCore, PcOk, Depth, NoDup, QueueOk, WaitersOk, EveryoneSomewhere, IdleOk, WakeOk;
    ReadyKnown(s);
    AppendQueue(s, Me(s).(status := Ready));
    RestStill(s, Me(s).(status := Ready));
    LeftPending(s, Queued(s));
  }

  lemma SleepKeeps(s: State, st: Status)
    requires Inv(s) && Me(s).pc.Client? && Sleeping(st) && (s.cur == s.idle ==> st.Blocked?)
    ensures CanSchedule(s) && Inv(Block(s, st, Asleep))
  {
    hide Inv, Pending;
    SleepPending(s, st);
    ScheduleKeeps(Put(s, s.cur, Me(s).(status := st, pc := Asleep)));
  }

  lemma SleepPending(s: State, st: Status)
    requires Inv(s) && Me(s).pc.Client? && Sleeping(st) && (s.cur == s.idle ==> st.Blocked?)
    ensures s.cur in s.threads && CanSchedule(s) && Pending(Put(s, s.cur, Me(s).(status := st, pc := Asleep)))
  {
    hide LockCore, PcOk, Depth, NoDup, IdleOk, WakeOk;
    ReadyKnown(s);
    var d := Put(s, s.cur, Me(s).(status := st, pc := Asleep));
    assert forall u :: Parked(d, u) == Parked(s, u);
    RestStill(s, Me(s).(status := st, pc := Asleep));
    LeftPending(s, d);
  }

  /** A thread that finds the value 0 joins the waiters of that semaphore and of no other. */
  lemma DownBlocksKeeps(s: State, l: LockId)
    requires Inv(s) && (Me(s).pc == Down(l) || Me(s).pc == DownAgain(l)) && l in s.locks && s.locks[l].value == 0
    ensures CanSchedule(s) && s.cur !in s.locks[l].waiters && Inv(SemaDown(s, l))
  {
    hide Inv, Pending;
    DownPending(s, l);
    ScheduleKeeps(Joined(s, l));
  }

  lemma DownPending(s: State, l: LockId)
    requires Inv(s) && (Me(s).pc == Down(l) || Me(s).pc == DownAgain(l)) && l in s.locks && s.locks[l].value == 0
    ensures s.cur in s.threads && CanSchedule(s) && s.cur !in s.locks[l].waiters && Pending(Joined(s, l))
  {
    hide LockCore, PcOk, Depth, IdleOk, WakeOk, NoDup, QueueOk, WaitersOk, EveryoneSomewhere;
    ReadyKnown(s);
    JoinWaiters(s, l);
    RestStill(s, Me(s).(status := Blocked, pc := DownAgain(l)));
    LeftPending(s, Joined(s, l));
  }

  function Joined(s: State, l: LockId): State
    requires s.cur in s.threads && l in s.locks
  {
    Put(WithLock(s, l, s.locks[l].(waiters := s.locks[l].waiters + [s.cur])), s.cur,
        Me(s).(status := Blocked, pc := DownAgain(l)))
  }

  lemma JoinWaiters(s: State, l: LockId)
    requires Placed(s) && OnCpu(s, s.cur) && (Me(s).pc == Down(l) || Me(s).pc == DownAgain(l)) && l in s.locks
    ensures s.cur !in s.locks[l].waiters
    ensures QueueOk(Joined(s, l)) && WaitersOk(Joined(s, l)) && EveryoneSomewhere(Joined(s, l))
    ensures SameCode(s, Joined(s, l))
  {
    hide Depth, IdleOk, QueueOk, WaitersOk, EveryoneSomewhere, NoDup;
    NotWaiting(s);
    JoinedWaiters(s, l);
    JoinedOthers(s, l);
  }

  lemma NotWaiting(s: State)
    requires WaitersOk(s) && OnCpu(s, s.cur)
    ensures forall l :: l in s.locks ==> s.cur !in s.locks[l].waiters
  {
  }

  lemma JoinedWaiters(s: State, l: LockId)
    requires WaitersOk(s) && OnCpu(s, s.cur) && l in s.locks
    requires forall m :: m in s.locks ==> s.cur !in s.locks[m].waiters
    ensures WaitersOk(Joined(s, l))
  {
    hide Depth;
    var w := s.locks[l].waiters;
    var d := Joined(s, l);
    assert d.locks[l].waiters == w + [s.cur];
    assert forall t :: t in w + [s.cur] <==> t in w || t == s.cur;
    assert forall i :: 0 <= i < |w| ==> w[i] in w;
  }

  lemma JoinedOthers(s: State, l: LockId)
    requires QueueOk(s) && EveryoneSomewhere(s) && OnCpu(s, s.cur) && l in s.locks
    ensures QueueOk(Joined(s, l)) && EveryoneSomewhere(Joined(s, l))
  {
    hide Depth, NoDup;
    var w := s.locks[l].waiters;
    var d := Joined(s, l);
    assert forall t :: t in w + [s.cur] <==> t in w || t == s.cur;
    assert forall u :: u != s.cur ==> Parked(d, u) == Parked(s, u);
    assert Parked(d, s.cur);
  }

  // ---------------------------------------------------------------- steps that keep the processor

  /** The current thread moves on in the code of lock l, whose waiters stay. */
  function Local(s: State, l: LockId, k: Lock, th: Thread): State {
    Put(WithLock(s, l, k), s.cur, th)
  }

  /** The program counters that belong to lock l, or to none. */
  predicate About(pc: Pc, l: LockId) {
    pc.Client? || pc.Asleep? || pc.l == l
  }

  lemma LocalPlaced(s: State, l: LockId, k: Lock, th: Thread)
    requires Placed(s) && OnCpu(s, s.cur) && l in s.locks && k.waiters == s.locks[l].waiters
    requires th.status.Running? && !th.pc.Asleep? && !th.pc.DownAgain?
    requires s.cur == s.idle ==> th.pc.Client? && th.depth == Me(s).depth
    ensures Placed(Local(s, l, k, th)) && OnCpu(Local(s, l, k, th), s.cur)
  {
    hide Depth, NoDup, QueueOk, WaitersOk;
    var d := Local(s, l, k, th);
    LocalQueues(s, l, k, th);
    assert forall u :: u != s.cur ==> Parked(d, u) == Parked(s, u) && Off(d, u) == Off(s, u);
  }

  lemma LocalQueues(s: State, l: LockId, k: Lock, th: Thread)
    requires QueueOk(s) && WaitersOk(s) && OnCpu(s, s.cur) && l in s.locks && k.waiters == s.locks[l].waiters
    requires th.status.Running? && !th.pc.Asleep? && !th.pc.DownAgain?
    ensures QueueOk(Local(s, l, k, th)) && WaitersOk(Local(s, l, k, th))
  {
    hide Depth, NoDup;
    var d := Local(s, l, k, th);
    NotWaiting(s);
    assert forall u :: Parked(d, u) == Parked(s, u);
  }

  lemma OthersOwners(s: State, l: LockId, k: Lock, th: Thread, m: LockId)
    requires s.cur in s.threads && m != l && About(Me(s).pc, l) && About(th.pc, l)
    requires Depth(th.depth, m) == Depth(Me(s).depth, m)
    ensures Owners(Local(s, l, k, th), m) == Owners(s, m) && Holders(Local(s, l, k, th), m) == Holders(s, m)
    ensures forall h :: Count(Local(s, l, k, th), m, h) == Count(s, m, h)
  {
    hide Depth;
  }

  /** How the owners and holders of l change when the current thread moves. */
  lemma OwnOwners(s: State, l: LockId, k: Lock, th: Thread)
    requires s.cur in s.threads
    ensures var d := Local(s, l, k, th);
      && Owners(d, l) == Owners(s, l) - {s.cur} + (if Owns(th, l) then {s.cur} else {})
      && Holders(d, l) == Holders(s, l) - {s.cur} + (if IsHolder(th, l) then {s.cur} else {})
  {
    hide Owns, IsHolder;
  }

  /** All of the invariant but the wakeups of l itself. */
  ghost predicate InvBut(s: State, l: LockId) {
    && Placed(s) && OnCpu(s, s.cur)
    && (forall t :: t in s.threads ==> PcOk(s, t))
    && (forall m :: m in s.locks ==> LockCore(s, m))
    && (forall m :: m in s.locks && m != l ==> WakeOk(s, m))
  }

  lemma LocalAlmost(s: State, l: LockId, k: Lock, th: Thread)
    requires Inv(s) && l in s.locks && k.waiters == s.locks[l].waiters
    requires th.status.Running? && !th.pc.Asleep? && !th.pc.DownAgain?
    requires s.cur == s.idle ==> th.pc.Client? && th.depth == Me(s).depth
    requires About(Me(s).pc, l) && About(th.pc, l)
    requires forall m :: m != l ==> Depth(th.depth, m) == Depth(Me(s).depth, m)
    requires PcOk(Local(s, l, k, th), s.cur) && LockCore(Local(s, l, k, th), l)
    ensures InvBut(Local(s, l, k, th), l)
  {
    hide Depth, NoDup, QueueOk, WaitersOk, EveryoneSomewhere, IdleOk, CoreOk, Owners, Holders, Count, OnCpu, PcOk;
    var d := Local(s, l, k, th);
    LocalPlaced(s, l, k, th);
    CurRuns(s);
    forall m | m in d.locks && m != l ensures LockCore(d, m) && WakeOk(d, m) {
      OthersOwners(s, l, k, th, m);
      assert LockCore(s, m) && WakeOk(s, m);
      if d.locks[m].value == 1 && d.locks[m].waiters != [] {
        var t :| Woken(s, t, m);
        assert Woken(d, t, m);
      }
    }
    forall t | t in d.threads ensures PcOk(d, t) { if t != s.cur { PcElsewhere(s, d, t); } }
  }

  lemma LocalKeeps(s: State, l: LockId, k: Lock, th: Thread)
    requires Inv(s) && l in s.locks && k.waiters == s.locks[l].waiters
    requires th.status.Running? && !th.pc.Asleep? && !th.pc.DownAgain?
    requires s.cur == s.idle ==> th.pc.Client? && th.depth == Me(s).depth
    requires About(Me(s).pc, l) && About(th.pc, l)
    requires forall m :: m != l ==> Depth(th.depth, m) == Depth(Me(s).depth, m)
    requires PcOk(Local(s, l, k, th), s.cur) && LockCore(Local(s, l, k, th), l)
    requires k.value == 1 && k.waiters != [] ==> exists t :: t in s.ready && Woken(s, t, l)
    ensures Inv(Local(s, l, k, th))
  {
    hide Depth, Placed, LockCore, OnCpu, PcOk;
    var d := Local(s, l, k, th);
    LocalAlmost(s, l, k, th);
    if k.value == 1 && k.waiters != [] {
      CurRuns(s);
      var t :| t in s.ready && Woken(s, t, l);
      assert Woken(d, t, l);
    }
  }

  lemma CurRuns(s: State)
    requires Placed(s) && OnCpu(s, s.cur)
    ensures s.cur in s.threads && s.cur !in s.ready && !Me(s).pc.Asleep?
  {
  }

  lemma PcElsewhere(s: State, d: State, t: Tid)
    requires t in s.threads && t in d.threads && d.threads[t] == s.threads[t] && PcOk(s, t)
    requires forall l :: l in s.locks ==> l in d.locks
    ensures PcOk(d, t)
  {
  }

  /** While a thread owns l it is the only owner, the value is 0, and the holder field names it or nobody. */
  lemma OwnerFacts(s: State, l: LockId)
    requires Inv(s) && l in s.locks && Owns(Me(s), l)
    ensures Owners(s, l) == {s.cur} && s.locks[l].value == 0
    ensures Holders(s, l) == (if IsHolder(Me(s), l) then {s.cur} else {})
    ensures s.locks[l].holder == (if IsHolder(Me(s), l) then Just(s.cur) else Nothing)
    ensures s.locks[l].repeats == (if IsHolder(Me(s), l) then Repeats(Me(s), l) else 0)
  {
    hide Owns, Repeats, Placed, PcOk;
    assert LockCore(s, l);
    assert s.cur in Owners(s, l);
    forall t | t in Holders(s, l) ensures t in Owners(s, l) {
      HolderOwns(s.threads[t], l);
    }
    if IsHolder(Me(s), l) { assert s.cur in Holders(s, l); }
  }

  lemma HolderOwns(th: Thread, l: LockId)
    requires IsHolder(th, l)
    ensures Owns(th, l)
  {
  }

  lemma NoOwnerNoHolder(th: Thread, l: LockId)
    requires !Owns(th, l)
    ensures !IsHolder(th, l)
  {
  }

  /** The thread owns l before and after: only the holder field and the count can change. */
  lemma StillOwner(s: State, l: LockId, k: Lock, th: Thread)
    requires Inv(s) && l in s.locks && Owns(Me(s), l) && Owns(th, l) && k.value == 0
    requires k.holder == if IsHolder(th, l) then Just(s.cur) else Nothing
    requires k.repeats == if IsHolder(th, l) then Repeats(th, l) else 0
    ensures LockCore(Local(s, l, k, th), l)
  {
    hide Owns, Repeats, IsHolder, Placed, PcOk, LocksOk;
    OwnerFacts(s, l);
    OwnOwners(s, l, k, th);
    var d := Local(s, l, k, th);
    assert d.locks[l] == k && d.threads[s.cur] == th;
  }

  /** The thread does not own l before or after, and the lock is not touched. */
  lemma StillOutside(s: State, l: LockId, th: Thread)
    requires Inv(s) && l in s.locks && !Owns(Me(s), l) && !Owns(th, l)
    ensures LockCore(Local(s, l, s.locks[l], th), l)
  {
    hide Owns, Repeats, Placed, PcOk;
    var d := Local(s, l, s.locks[l], th);
    assert LockCore(s, l);
    OwnOwners(s, l, s.locks[l], th);
    assert s.cur !in Owners(s, l);
    NoOwnerNoHolder(Me(s), l);
    NoOwnerNoHolder(th, l);
    assert s.cur !in Holders(s, l);
    assert d.locks[l] == s.locks[l];
  }

  /** Taking the semaphore: the value was 1, so nobody owned the lock, and now this thread does. */
  lemma BecomesOwner(s: State, l: LockId, th: Thread)
    requires Inv(s) && l in s.locks && s.locks[l].value != 0 && Owns(th, l) && !IsHolder(th, l)
    ensures s.locks[l].value == 1
    ensures LockCore(Local(s, l, s.locks[l].(value := s.locks[l].value - 1), th), l)
  {
    hide Owns, Repeats, Placed, PcOk, IsHolder;
    var k := s.locks[l].(value := s.locks[l].value - 1);
    var d := Local(s, l, k, th);
    assert LockCore(s, l);
    OwnOwners(s, l, k, th);
    forall t | t in Holders(s, l) ensures t in Owners(s, l) { HolderOwns(s.threads[t], l); }
    assert d.locks[l] == k;
  }

  lemma WakeQueued(s: State, l: LockId)
    requires Inv(s) && l in s.locks && Me(s).pc != DownAgain(l)
    requires s.locks[l].value == 1 && s.locks[l].waiters != []
    ensures exists t :: t in s.ready && Woken(s, t, l)
  {
    hide LockCore, Placed, PcOk;
    assert WakeOk(s, l);
    var t :| Woken(s, t, l);
    assert t in s.ready;
  }

  lemma PcKnown(s: State)
    requires Inv(s)
    ensures PcOk(s, s.cur) && CanSchedule(s) && s.cur in s.threads && Me(s).status.Running?
    ensures !Me(s).pc.Client? && !Me(s).pc.Asleep? ==> Me(s).pc.l in s.locks && s.cur != s.idle
  {
    hide LockCore, WakeOk, Depth, NoDup;
    ReadyKnown(s);
  }

  lemma AcquireKeeps(s: State, l: LockId)
    requires Inv(s) && Me(s).pc.Client? && s.cur != s.idle && l in s.locks
    ensures s.locks[l].holder == Just(s.cur) <==> Depth(Me(s).depth, l) > 0
    ensures Inv(Acquire(s, l))
  {
    hide LockCore, Placed, LocksOk, OnCpu;
    PcKnown(s);
    var k := s.locks[l];
    if Depth(Me(s).depth, l) > 0 {
      OwnerFacts(s, l);
      StillOwner(s, l, k, Me(s).(pc := Nest(l)));
      if k.value == 1 && k.waiters != [] { WakeQueued(s, l); }
      SameLock(s, l);
      LocalKeeps(s, l, k, Me(s).(pc := Nest(l)));
    } else {
      NotHolder(s, l);
      StillOutside(s, l, Me(s).(pc := Down(l)));
      if k.value == 1 && k.waiters != [] { WakeQueued(s, l); }
      SameLock(s, l);
      LocalKeeps(s, l, k, Me(s).(pc := Down(l)));
    }
  }

  lemma SameLock(s: State, l: LockId)
    requires l in s.locks
    ensures WithLock(s, l, s.locks[l]) == s
  {
    assert s.locks[l := s.locks[l]] == s.locks;
  }

  lemma NotHolder(s: State, l: LockId)
    requires Inv(s) && l in s.locks && !IsHolder(Me(s), l)
    ensures s.locks[l].holder != Just(s.cur)
  {
    hide Owns, Repeats, Placed, PcOk;
    assert LockCore(s, l);
    assert s.cur !in Holders(s, l);
  }

  lemma ReleaseKeeps(s: State, l: LockId)
    requires Inv(s) && Me(s).pc.Client? && l in s.locks && Depth(Me(s).depth, l) > 0
    ensures s.locks[l].holder == Just(s.cur) && s.locks[l].repeats == Depth(Me(s).depth, l)
    ensures Inv(Release(s, l))
  {
    hide LockCore, Placed, LocksOk, OnCpu;
    PcKnown(s);
    OwnerFacts(s, l);
    IdleNoDepth(s, l);
    var me := Me(s);
    var th := me.(pc := if s.locks[l].repeats > 1 then Unnest(l) else ClearCount(l),
                  depth := me.depth[l := Depth(me.depth, l) - 1]);
    StillOwner(s, l, s.locks[l], th);
    SameLock(s, l);
    LocalKeeps(s, l, s.locks[l], th);
  }

  lemma IdleNoDepth(s: State, l: LockId)
    requires Placed(s)
    ensures s.idle in s.threads && Depth(s.threads[s.idle].depth, l) == 0
  {
  }

  /** One statement of the lock code by the thread that owns the lock, short of raising the semaphore. */
  lemma OwnerStepKeeps(s: State)
    requires Inv(s)
    requires Me(s).pc.SetHolder? || Me(s).pc.SetCount? || Me(s).pc.Nest? || Me(s).pc.Unnest?
             || Me(s).pc.ClearCount? || Me(s).pc.ClearHolder?
    ensures Enabled(s, AProceed) && Inv(Proceed(s))
  {
    hide LockCore, Placed, LocksOk, OnCpu;
    PcKnown(s);
    var l := Me(s).pc.l;
    OwnerFacts(s, l);
    var d := Proceed(s);
    var k, th := d.locks[l], d.threads[s.cur];
    assert d == Local(s, l, k, th);
    StillOwner(s, l, k, th);
    LocalKeeps(s, l, k, th);
  }

  lemma TakeKeeps(s: State, l: LockId)
    requires Inv(s) && (Me(s).pc == Down(l) || Me(s).pc == DownAgain(l)) && l in s.locks && s.locks[l].value != 0
    ensures CanSchedule(s) && s.locks[l].value == 1 && Inv(SemaDown(s, l))
  {
    hide LockCore, Placed, LocksOk, OnCpu;
    PcKnown(s);
    var th := Me(s).(pc := SetHolder(l));
    BecomesOwner(s, l, th);
    LocalKeeps(s, l, s.locks[l].(value := s.locks[l].value - 1), th);
  }

  // ---------------------------------------------------------------- raising the semaphore

  /** Giving the semaphore back: the value was 0 and the caller its one owner; now nobody owns the lock. */
  lemma GivesUp(s: State, l: LockId)
    requires Inv(s) && l in s.locks && Me(s).pc == Up(l)
    ensures s.locks[l].value == 0
    ensures LockCore(Local(s, l, s.locks[l].(value := 1), Me(s).(pc := Client)), l)
  {
    hide Repeats, Placed, LocksOk;
    PcKnown(s);
    OwnerFacts(s, l);
    var k, th := s.locks[l].(value := 1), Me(s).(pc := Client);
    var d := Local(s, l, k, th);
    OwnOwners(s, l, k, th);
    assert d.locks[l] == k;
  }

  function Popped(s: State, l: LockId): State
    requires l in s.locks && s.locks[l].waiters != []
  {
    WithLock(s, l, s.locks[l].(waiters := s.locks[l].waiters[1..]))
  }

  /** The popped waiter is on no list any more; everybody else is where they were. */
  lemma PopPlaced(s: State, l: LockId)
    requires Placed(s) && OnCpu(s, s.cur) && l in s.locks && s.locks[l].waiters != []
    ensures var d, w := Popped(s, l), s.locks[l].waiters[0];
      && QueueOk(d) && WaitersOk(d) && IdleOk(d) && Wakeable(d, w) && d.threads[w].pc == DownAgain(l)
      && (forall u :: u in d.threads && u != w ==> u in d.ready || Parked(d, u) || Off(d, u) || OnCpu(d, u))
      && OnCpu(d, d.cur) && SameCode(s, d) && w != s.cur
  {
    hide Depth;
    var q := s.locks[l].waiters;
    var d, w := Popped(s, l), q[0];
    PopQueue(s, l);
    assert forall u :: u in q <==> u == w || u in q[1..];
    assert forall u :: u != w ==> Parked(d, u) == Parked(s, u);
  }

  lemma PopQueue(s: State, l: LockId)
    requires QueueOk(s) && WaitersOk(s) && l in s.locks && s.locks[l].waiters != []
    ensures var d, w := Popped(s, l), s.locks[l].waiters[0];
      WaitersOk(d) && QueueOk(d) && w !in d.locks[l].waiters && w !in d.ready && w in d.threads
      && d.threads[w].pc == DownAgain(l)
  {
    hide Depth;
    var q := s.locks[l].waiters;
    var d, w := Popped(s, l), q[0];
    assert w in q && Parked(s, w);
    assert forall u :: u in q[1..] ==> u in q;
    assert forall i :: 0 <= i < |q[1..]| ==> q[1..][i] == q[i + 1];
    assert forall u :: Parked(d, u) ==> Parked(s, u);
  }

  lemma UpKeeps(s: State, l: LockId)
    requires Inv(s) && l in s.locks && Me(s).pc == Up(l)
    ensures s.locks[l].value == 0
    ensures s.locks[l].waiters != [] ==> s.locks[l].waiters[0] in s.threads
    ensures Inv(SemaUp(s, l))
  {
    hide LockCore, Placed, OnCpu, LocksOk, WakeOk, Depth, SemaUp, Unlock;
    PcKnown(s);
    GivesUp(s, l);
    var k, th := s.locks[l].(value := 1), Me(s).(pc := Client);
    var m := Local(s, l, k, th);
    UpPc(s, l);
    LocalAlmost(s, l, k, th);
    if k.waiters == [] {
      QuietInv(m, l);
    } else {
      WakeWaiter(m, l);
    }
    SemaUpIs(s, l);
  }

  lemma UpPc(s: State, l: LockId)
    requires s.cur in s.threads && l in s.locks && Me(s).pc == Up(l) && PcOk(s, s.cur)
    ensures PcOk(Local(s, l, s.locks[l].(value := 1), Me(s).(pc := Client)), s.cur)
  {
  }

  lemma QuietInv(m: State, l: LockId)
    requires InvBut(m, l) && l in m.locks && m.locks[l].waiters == []
    ensures Inv(m)
  {
    hide LockCore, Placed, OnCpu, PcOk;
  }

  lemma SemaUpIs(s: State, l: LockId)
    requires s.cur in s.threads && l in s.locks && s.locks[l].value == 0
    requires s.locks[l].waiters != [] ==> s.locks[l].waiters[0] in s.threads
    ensures var m := Local(s, l, s.locks[l].(value := 1), Me(s).(pc := Client));
      SemaUp(s, l) == if s.locks[l].waiters == [] then m else Unlock(Popped(m, l), s.locks[l].waiters[0])
  {
    var k := s.locks[l].(value := 1);
    var m := Local(s, l, k, Me(s).(pc := Client));
    assert WithLock(Goto(s, Client), l, k) == m;
    if k.waiters != [] {
      assert WithLock(Goto(s, Client), l, k.(waiters := k.waiters[1..])) == Popped(m, l);
    }
  }

  lemma WakeWaiter(m: State, l: LockId)
    requires InvBut(m, l) && l in m.locks && m.locks[l].waiters != []
    ensures m.locks[l].waiters[0] in m.threads
    ensures Inv(Unlock(Popped(m, l), m.locks[l].waiters[0]))
  {
    hide LockCore, Placed, OnCpu, PcOk, QueueOk, WaitersOk, IdleOk, SameCode;
    PopPlaced(m, l);
    var p, w := Popped(m, l), m.locks[l].waiters[0];
    UnlockPlaced(p, w);
    SameCodeLocks(m, p);
    var d := Unlock(p, w);
    SameCodeLocks(p, d);
    forall j | j in d.locks ensures WakeOk(d, j) {
      if j == l {
        assert Woken(d, w, l);
      } else {
        assert WakeOk(m, j);
        if d.locks[j].value == 1 && d.locks[j].waiters != [] {
          var t :| Woken(m, t, j);
          assert Woken(d, t, j);
        }
      }
    }
  }

  // ---------------------------------------------------------------- threads come, wake and go

  lemma WakeKeeps(s: State, t: Tid)
    requires Inv(s) && Enabled(s, AWake(t))
    ensures t !in s.ready && Inv(Unlock(s, t))
  {
    hide LockCore, OnCpu, PcOk, QueueOk, WaitersOk, EveryoneSomewhere, IdleOk, SameCode;
    AsleepOff(s, t);
    SomewhereElse(s, t);
    UnlockPlaced(s, t);
    var d := Unlock(s, t);
    SameCodeLocks(s, d);
    forall l | l in d.locks ensures WakeOk(d, l) {
      assert WakeOk(s, l);
      if d.locks[l].value == 1 && d.locks[l].waiters != [] {
        var u :| Woken(s, u, l);
        assert Woken(d, u, l);
      }
    }
  }

  lemma AsleepOff(s: State, t: Tid)
    requires Placed(s) && OnCpu(s, s.cur) && t in s.threads && s.threads[t].pc.Asleep?
    ensures t !in s.ready && !Parked(s, t) && t != s.cur
  {
  }

  /** Nobody can see a thread without a part in any lock appear or disappear. */
  lemma StrangerLocks(s: State, d: State, t: Tid)
    requires (forall u :: u in s.threads ==> PcOk(s, u)) && (forall l :: l in s.locks ==> LockCore(s, l))
    requires d.locks == s.locks && (forall u :: u != t ==> (u in d.threads <==> u in s.threads))
    requires forall u :: u != t && u in s.threads ==> d.threads[u] == s.threads[u]
    requires t in s.threads ==> Outsider(s.threads[t])
    requires t in d.threads ==> Outsider(d.threads[t])
    ensures (forall u :: u in d.threads ==> PcOk(d, u)) && (forall l :: l in d.locks ==> LockCore(d, l))
  {
    hide Depth, Owns, IsHolder, Repeats, CoreOk, PcOk;
    forall u | u in d.threads ensures PcOk(d, u) {
      if u != t { PcElsewhere(s, d, u); } else { OutsiderPc(d, t); }
    }
    forall l | l in d.locks ensures LockCore(d, l) {
      if t in s.threads { OutsiderOwns(s.threads[t], l); }
      if t in d.threads { OutsiderOwns(d.threads[t], l); }
      assert LockCore(s, l);
      assert Owners(d, l) == Owners(s, l) && Holders(d, l) == Holders(s, l);
      CountStays(s, d, t, l);
    }
  }

  /** Outside the lock code and holding nothing. */
  ghost predicate Outsider(th: Thread) {
    (th.pc.Client? || th.pc.Asleep?) && forall l :: Depth(th.depth, l) == 0
  }

  lemma OutsiderPc(s: State, t: Tid)
    requires t in s.threads && Outsider(s.threads[t])
    ensures PcOk(s, t)
  {
  }

  lemma OutsiderOwns(th: Thread, l: LockId)
    requires Outsider(th)
    ensures !Owns(th, l) && !IsHolder(th, l) && Repeats(th, l) == 0
  {
  }

  lemma CountStays(s: State, d: State, t: Tid, l: LockId)
    requires l in s.locks && d.locks == s.locks
    requires forall u :: u != t ==> (u in d.threads <==> u in s.threads)
    requires forall u :: u != t && u in s.threads ==> d.threads[u] == s.threads[u]
    requires t in s.threads ==> Repeats(s.threads[t], l) == 0
    requires t in d.threads ==> Repeats(d.threads[t], l) == 0
    ensures Count(d, l, d.locks[l].holder) == Count(s, l, s.locks[l].holder)
  {
    hide Repeats;
  }

  lemma SpawnKeeps(s: State, t: Tid, priority: nat)
    requires Inv(s) && t !in s.threads
    ensures t !in s.ready && Inv(Spawn(s, t, priority))
  {
    hide LockCore, OnCpu, PcOk, QueueOk, WaitersOk, EveryoneSomewhere, IdleOk, Depth;
    var d := Spawn(s, t, priority);
    assert Outsider(d.threads[t]) by { NoDepth(t); }
    StrangerLocks(s, d, t);
    SpawnPlaced(s, t, priority);
    forall l | l in d.locks ensures WakeOk(d, l) {
      assert WakeOk(s, l);
      if d.locks[l].value == 1 && d.locks[l].waiters != [] {
        var u :| Woken(s, u, l);
        assert Woken(d, u, l);
      }
    }
  }

  lemma NoDepth(t: Tid)
    ensures forall l :: Depth(map[], l) == 0
  {
  }

  lemma SpawnPlaced(s: State, t: Tid, priority: nat)
    requires Placed(s) && OnCpu(s, s.cur) && t !in s.threads
    ensures t !in s.ready
    ensures Placed(Spawn(s, t, priority)) && OnCpu(Spawn(s, t, priority), s.cur)
  {
    hide Depth, NoDup, QueueOk, WaitersOk;
    var d := Spawn(s, t, priority);
    SpawnQueues(s, t, priority);
    assert forall u :: u in d.ready <==> u in s.ready || u == t;
    assert forall u :: u != t ==> Parked(d, u) == Parked(s, u) && Off(d, u) == Off(s, u);
  }

  lemma SpawnQueues(s: State, t: Tid, priority: nat)
    requires QueueOk(s) && WaitersOk(s) && t !in s.threads
    ensures t !in s.ready
    ensures QueueOk(Spawn(s, t, priority)) && WaitersOk(Spawn(s, t, priority))
  {
    hide Depth, NoDup;
    var d := Spawn(s, t, priority);
    assert forall u :: u in d.ready <==> u in s.ready || u == t;
    assert forall u :: Parked(d, u) == Parked(s, u);
    AppendNoDup(s.ready, t);
  }

  lemma AppendNoDup(q: seq<Tid>, t: Tid)
    requires NoDup(q) && t !in q
    ensures NoDup(q + [t])
  {
    forall i, j | 0 <= i < j < |q + [t]| ensures (q + [t])[i] != (q + [t])[j] {
      assert (q + [t])[i] == q[i] && q[i] in q;
    }
  }

  lemma FreeOutsider(th: Thread)
    requires (th.pc.Client? || th.pc.Asleep?) && forall l :: l in th.depth ==> th.depth[l] == 0
    ensures Outsider(th)
  {
  }

  /** A thread that is on no list and has no part in any lock can go. */
  lemma GonePlaced(s: State, t: Tid)
    requires Placed(s) && t in s.threads && t != s.idle && t !in s.ready
    requires (s.threads[t].pc.Client? || s.threads[t].pc.Asleep?)
    ensures Placed(Reap(s, t)) && (t != s.cur ==> (OnCpu(Reap(s, t), s.cur) <==> OnCpu(s, s.cur)))
  {
    hide Depth, NoDup;
    var d := Reap(s, t);
    assert forall u :: u != t ==> Parked(d, u) == Parked(s, u);
  }

  lemma ReapKeeps(s: State, t: Tid)
    requires Inv(s) && Enabled(s, AReap(t))
    ensures Inv(Reap(s, t))
  {
    hide LockCore, OnCpu, PcOk, QueueOk, WaitersOk, EveryoneSomewhere, IdleOk, Depth, Outsider;
    var d := Reap(s, t);
    AsleepOff(s, t);
    FreeOutsider(s.threads[t]);
    StrangerLocks(s, d, t);
    GonePlaced(s, t);
    forall l | l in d.locks ensures WakeOk(d, l) {
      assert WakeOk(s, l);
      if d.locks[l].value == 1 && d.locks[l].waiters != [] {
        var u :| Woken(s, u, l);
        assert Woken(d, u, l);
      }
    }
  }

  lemma ExitKeeps(s: State)
    requires Inv(s) && Enabled(s, AExit)
    ensures Inv(ExitSelf(s))
  {
    hide Inv, Pending;
    ExitPending(s);
    ScheduleKeeps(Reap(s, s.cur));
  }

  lemma ExitPending(s: State)
    requires Inv(s) && Enabled(s, AExit)
    ensures CanSchedule(Reap(s, s.cur)) && Pending(Reap(s, s.cur))
  {
    hide LockCore, PcOk, QueueOk, WaitersOk, EveryoneSomewhere, IdleOk, Depth, Outsider;
    var d := Reap(s, s.cur);
    FreeOutsider(s.threads[s.cur]);
    StrangerLocks(s, d, s.cur);
    GonePlaced(s, s.cur);
    forall l | l in d.locks && d.locks[l].value == 1 && d.locks[l].waiters != []
      ensures exists t :: t in d.ready && Woken(d, t, l)
    {
      WokenQueued(s, l);
      var t :| Woken(s, t, l) && (t in s.ready || t == s.cur);
      assert Woken(d, t, l);
    }
  }

  // ---------------------------------------------------------------- every run

  lemma ProceedKeeps(s: State)
    requires Inv(s) && Enabled(s, AProceed)
    ensures Inv(Proceed(s))
  {
    hide Inv, SemaDown, SemaUp;
    var l := Me(s).pc.l;
    match Me(s).pc
    case Down(_) => if s.locks[l].value == 0 { DownBlocksKeeps(s, l); } else { TakeKeeps(s, l); }
    case DownAgain(_) => if s.locks[l].value == 0 { DownBlocksKeeps(s, l); } else { TakeKeeps(s, l); }
    case Up(_) => UpKeeps(s, l);
    case _ => OwnerStepKeeps(s);
  }

  lemma StepKeeps(s: State, a: Action)
    requires Inv(s)
    ensures Inv(Step(s, a))
  {
    hide Inv, Proceed, Tick, Yield, Block, Unlock, Spawn, ExitSelf, Reap;
    if Enabled(s, a) {
      match a
      case ATick => TickKeeps(s);
      case AProceed => ProceedKeeps(s);
      case AAcquire(l) => AcquireKeeps(s, l);
      case ARelease(l) => ReleaseKeeps(s, l);
      case AYield => YieldKeeps(s);
      case ASleep(st) => SleepKeeps(s, st);
      case AWake(t) => WakeKeeps(s, t);
      case ASpawn(t, priority) => SpawnKeeps(s, t, priority);
      case AExit => ExitKeeps(s);
      case AReap(t) => ReapKeeps(s, t);
    }
  }

  lemma {:induction false} RunSafe(s: State, acts: seq<Action>)
    requires Inv(s)
    ensures Inv(Run(s, acts))
  {
    hide Inv;
    if acts != [] {
      RunSafe(s, acts[..|acts| - 1]);
      StepKeeps(Run(s, acts[..|acts| - 1]), acts[|acts| - 1]);
    }
  }

  function FreeLock(): Lock { Lock(1, [], Nothing, 0) }

  /** The main thread runs, the idle thread is queued behind the others created at boot, every lock is free. */
  predicate Boot(s: State) {
    && s.cur in s.threads && s.idle in s.threads && s.cur !in s.ready && s.threads[s.cur].status.Running?
    && (forall t :: t in s.threads && t != s.cur ==> t in s.ready)
    && (forall t :: t in s.ready ==> t in s.threads && s.threads[t].status.Ready?)
    && (forall i, j :: 0 <= i < j < |s.ready| ==> s.ready[i] != s.ready[j])
    && (forall t :: t in s.threads ==> s.threads[t].pc.Client? && s.threads[t].depth == map[])
    && (forall l :: l in s.locks ==> s.locks[l] == FreeLock())
  }

  lemma BootSafe(s: State)
    requires Boot(s)
    ensures Inv(s)
  {
    hide Depth;
    forall t | t in s.threads ensures Outsider(s.threads[t]) { NoDepth(t); }
    BootLocks(s);
    forall t | t in s.threads ensures PcOk(s, t) { OutsiderPc(s, t); }
  }

  lemma BootLocks(s: State)
    requires forall t :: t in s.threads ==> Outsider(s.threads[t])
    requires forall l :: l in s.locks ==> s.locks[l] == FreeLock()
    ensures LocksCoreOk(s)
  {
    hide Outsider, Owns, IsHolder, Repeats;
    forall l | l in s.locks ensures LockCore(s, l) {
      forall t | t in s.threads
        ensures !Owns(s.threads[t], l) && !IsHolder(s.threads[t], l)
      {
        OutsiderOwns(s.threads[t], l);
      }
      assert Owners(s, l) == {} && Holders(s, l) == {};
    }
  }

  ghost predicate LocksCoreOk(s: State) {
    forall l :: l in s.locks ==> LockCore(s, l)
  }

  /** The thread acquired l more often than it called its release. */
  predicate Inside(s: State, t: Tid, l: LockId) {
    t in s.threads && Depth(s.threads[t].depth, l) > 0
  }

  /** Whatever the interleaving, at most one thread is inside a lock, and its fields say who and how deep. */
  lemma MutualExclusion(s: State, acts: seq<Action>, l: LockId, t: Tid, u: Tid)
    requires Boot(s)
    requires Inside(Run(s, acts), t, l) && Inside(Run(s, acts), u, l)
    ensures t == u
    ensures var r := Run(s, acts); l in r.locks && r.locks[l].value == 0 && r.locks[l].holder == Just(t)
    ensures var r := Run(s, acts);
      r.locks[l].repeats == Depth(r.threads[t].depth, l) + if r.threads[t].pc == Unnest(l) then 1 else 0
  {
    hide Placed, OnCpu, Depth, WakeOk;
    BootSafe(s);
    RunSafe(s, acts);
    var r := Run(s, acts);
    assert PcOk(r, t);
    DepthHolds(r.threads[t], l);
    DepthHolds(r.threads[u], l);
    assert LockCore(r, l);
    assert t in Owners(r, l) && u in Owners(r, l) && t in Holders(r, l);
  }

  lemma DepthHolds(th: Thread, l: LockId)
    requires Depth(th.depth, l) > 0
    ensures Owns(th, l)
    ensures th.pc != SetHolder(l) && th.pc != Up(l) ==> IsHolder(th, l)
  {
  }

  /** A free semaphore with waiters: a thread already popped from them is runnable and will test the value. */
  lemma NoLostWakeup(s: State, acts: seq<Action>, l: LockId)
    requires Boot(s)
    requires var r := Run(s, acts); l in r.locks && r.locks[l].value == 1 && r.locks[l].waiters != []
    ensures var r := Run(s, acts); exists t :: Woken(r, t, l) && t !in r.locks[l].waiters
  {
    hide LockCore, PcOk, Depth;
    BootSafe(s);
    RunSafe(s, acts);
    var r := Run(s, acts);
    assert WakeOk(r, l);
    var t :| Woken(r, t, l);
    assert !Parked(r, t);
  }

  /** The checks of sema_down, sema_up, lock_release and schedule hold in every reachable state. */
  lemma ChecksHold(s: State, acts: seq<Action>, l: LockId)
    requires Boot(s) && l in Run(s, acts).locks
    ensures var r := Run(s, acts); r.cur in r.threads && r.cur !in r.ready && Me(r).status.Running?
    ensures var r := Run(s, acts); r.locks[l].value <= 1
    ensures var r := Run(s, acts); Me(r).pc == Up(l) ==> r.locks[l].value == 0
    ensures var r := Run(s, acts); Depth(Me(r).depth, l) > 0 && Me(r).pc.Client? ==> r.locks[l].holder == Just(r.cur)
  {
    hide Inv, Depth;
    BootSafe(s);
    RunSafe(s, acts);
    var r := Run(s, acts);
    ReadyKept(r);
    ValueBit(r, l);
    if Me(r).pc == Up(l) { OwnerFacts(r, l); }
    if Depth(Me(r).depth, l) > 0 && Me(r).pc.Client? { DepthHolds(Me(r), l); OwnerFacts(r, l); }
  }

  /** So do those of thread_unlock, when sema_up wakes the first waiter. */
  lemma WaiterCanWake(s: State, acts: seq<Action>, l: LockId)
    requires Boot(s) && l in Run(s, acts).locks && Run(s, acts).locks[l].waiters != []
    ensures var r := Run(s, acts); var w := r.locks[l].waiters[0];
      w in r.threads && r.threads[w].status.Blocked? && w !in r.ready && w != r.cur
  {
    hide LocksOk, QueueOk, WaitersOk, EveryoneSomewhere, IdleOk;
    BootSafe(s);
    RunSafe(s, acts);
    FrontWaiter(Run(s, acts), l);
  }

  lemma FrontWaiter(r: State, l: LockId)
    requires QueueOk(r) && WaitersOk(r) && OnCpu(r, r.cur) && l in r.locks && r.locks[l].waiters != []
    ensures var w := r.locks[l].waiters[0];
      w in r.threads && r.threads[w].status.Blocked? && w !in r.ready && w != r.cur
  {
    hide Depth, NoDup;
    assert r.locks[l].waiters[0] in r.locks[l].waiters;
    assert Parked(r, r.locks[l].waiters[0]);
  }

  lemma ValueBit(r: State, l: LockId)
    requires Inv(r) && l in r.locks
    ensures r.locks[l].value <= 1
  {
    hide Placed, PcOk, WakeOk, Owners, Holders, Count;
    assert LockCore(r, l);
  }

  /** Each thread's tag is on at most one list, at most once, and the running thread's on none. */
  ghost predicate OneList(r: State, t: Tid) {
    && NoDup(r.ready) && (t in r.ready ==> t != r.cur)
    && (forall l :: l in r.locks && t in r.locks[l].waiters ==>
          t !in r.ready && t != r.cur && NoDup(r.locks[l].waiters))
    && forall l, m :: l in r.locks && m in r.locks && t in r.locks[l].waiters && t in r.locks[m].waiters ==> l == m
  }

  lemma TagsApart(s: State, acts: seq<Action>, t: Tid)
    requires Boot(s)
    ensures OneList(Run(s, acts), t)
  {
    hide LocksOk, QueueOk, WaitersOk, EveryoneSomewhere, IdleOk, OneList;
    BootSafe(s);
    RunSafe(s, acts);
    PlacedApart(Run(s, acts), t);
  }

  lemma PlacedApart(r: State, t: Tid)
    requires QueueOk(r) && WaitersOk(r) && OnCpu(r, r.cur)
    ensures OneList(r, t)
  {
    hide Depth, NoDup;
    forall l | l in r.locks && t in r.locks[l].waiters
      ensures Parked(r, t) && NoDup(r.locks[l].waiters) && r.threads[t].pc == DownAgain(l)
    {
    }
  }

  /** Whenever the current thread leaves the processor to an empty list, the idle thread is BLOCKED and on no list. */
  lemma IdleWaits(s: State, st: Status)
    requires Inv(s) && Me(s).pc.Client? && Sleeping(st) && s.cur != s.idle && s.ready == []
    ensures var i := s.idle; i in s.threads && s.threads[i].status.Blocked? && !Parked(s, i)
    ensures var d := Block(s, st, Asleep); d.cur == s.idle && d.ready == [] && Me(d).status.Running? && Me(d).pc.Client?
  {
    hide LocksOk, Depth;
    ReadyKnown(s);
  }

  // ---------------------------------------------------------------- the time slices

  /** The state after n timer interrupts and nothing else. */
  function Ticks(s: State, n: nat): State
    decreases n
  {
    if n == 0 then s else Ticks(Step(s, ATick), n - 1)
  }

  function Slice(s: State, t: Tid): nat {
    if t in s.threads then s.threads[t].ticks + 1 else 0
  }

  /** The ticks a thread gets each time its slice is renewed. */
  function Allowance(s: State, t: Tid): nat {
    if t in s.threads then s.threads[t].priority + 1 else 0
  }

  /** The slices of the threads queued ahead of position k. */
  function Ahead(s: State, k: nat): nat
    requires k <= |s.ready|
  {
    if k == 0 then 0 else Ahead(s, k - 1) + Slice(s, s.ready[k - 1])
  }

  function Turn(s: State, k: nat): nat
    requires k < |s.ready|
  {
    Slice(s, s.cur) + Ahead(s, k)
  }

  lemma {:induction false} TicksAdd(s: State, m: nat, n: nat)
    ensures Ticks(s, m + n) == Ticks(Ticks(s, m), n)
    decreases m
  {
    if m > 0 { TicksAdd(Step(s, ATick), m - 1, n); }
  }

  lemma TickEnabled(s: State)
    requires Inv(s)
    ensures Enabled(s, ATick) && Step(s, ATick) == Tick(s) && Inv(Tick(s))
    ensures s.cur in s.threads && s.cur !in s.ready && Me(s).status.Running?
  {
    hide LocksOk, Depth, Tick;
    ReadyKnown(s);
    TickKeeps(s);
  }

  lemma {:induction false} SliceRuns(s: State, n: nat)
    requires Inv(s) && s.cur in s.threads && n <= Me(s).ticks
    ensures Ticks(s, n) == Put(s, s.cur, Me(s).(ticks := Me(s).ticks - n)) && Inv(Ticks(s, n))
    decreases n
  {
    hide Inv;
    if n == 0 {
      assert s.threads[s.cur := Me(s)] == s.threads;
    } else {
      TickEnabled(s);
      SliceRuns(Tick(s), n - 1);
      assert Put(Tick(s), s.cur, Me(s).(ticks := Me(s).ticks - n)) == Put(s, s.cur, Me(s).(ticks := Me(s).ticks - n));
    }
  }

  /** When the slice is over, the head of the list runs with the slice it has, and the others move up. */
  lemma NextTurn(s: State)
    requires Inv(s) && s.ready != [] && s.cur in s.threads
    ensures var d := Ticks(s, Me(s).ticks + 1); Inv(d) && d.cur == s.ready[0] && d.ready == s.ready[1..] + [s.cur]
    ensures var d := Ticks(s, Me(s).ticks + 1); forall t :: t in s.ready ==> Slice(d, t) == Slice(s, t)
    ensures var d := Ticks(s, Me(s).ticks + 1); Slice(d, s.cur) == Allowance(s, s.cur)
    ensures var d := Ticks(s, Me(s).ticks + 1);
      forall t :: t in s.threads ==> t in d.threads && Allowance(d, t) == Allowance(s, t)
  {
    hide Inv;
    var n := Me(s).ticks;
    SliceRuns(s, n);
    var z := Ticks(s, n);
    TicksAdd(s, n, 1);
    TickEnabled(z);
    assert Ticks(z, 1) == Ticks(Step(z, ATick), 0);
    assert Ticks(s, n + 1) == Tick(z);
    ReadyKept(s);
  }

  lemma ReadyKept(s: State)
    requires Inv(s)
    ensures s.cur in s.threads && s.cur !in s.ready && CanSchedule(s) && Me(s).status.Running?
  {
    hide LocksOk, Depth;
    ReadyKnown(s);
  }

  lemma {:induction false} AheadShift(s: State, d: State, k: nat)
    requires 0 < k <= |s.ready| && |d.ready| == |s.ready|
    requires (forall i :: 0 <= i < |s.ready| - 1 ==> d.ready[i] == s.ready[i + 1])
    requires forall t :: t in s.ready ==> Slice(d, t) == Slice(s, t)
    ensures Ahead(s, k) == Slice(s, s.ready[0]) + Ahead(d, k - 1)
    decreases k
  {
    hide Slice;
    if k > 1 { AheadShift(s, d, k - 1); assert d.ready[k - 2] == s.ready[k - 1]; }
  }

  /** With timer interrupts alone, the thread at position k first runs at exactly tick Turn(s, k). */
  lemma {:induction false} RoundRobin(s: State, k: nat)
    requires Inv(s) && k < |s.ready|
    ensures Ticks(s, Turn(s, k)).cur == s.ready[k]
    ensures forall n :: 0 <= n < Turn(s, k) ==> Ticks(s, n).cur != s.ready[k]
    decreases k
  {
    hide Inv;
    ReadyKept(s);
    var c := Me(s).ticks + 1;
    var d := Ticks(s, c);
    NextTurn(s);
    forall n | 0 <= n < c ensures Ticks(s, n).cur != s.ready[k] {
      SliceRuns(s, n);
      assert s.ready[k] in s.ready;
    }
    if k > 0 {
      RoundRobin(d, k - 1);
      LaterTurn(s, d, k);
    }
  }

  lemma LaterTurn(s: State, d: State, k: nat)
    requires 0 < k < |s.ready| && |d.ready| == |s.ready| && s.cur in s.threads && d == Ticks(s, Slice(s, s.cur))
    requires d.cur == s.ready[0] && (forall t :: t in s.ready ==> Slice(d, t) == Slice(s, t))
    requires forall i :: 0 <= i < |s.ready| - 1 ==> d.ready[i] == s.ready[i + 1]
    requires Ticks(d, Turn(d, k - 1)).cur == s.ready[k]
    requires forall n :: 0 <= n < Turn(d, k - 1) ==> Ticks(d, n).cur != s.ready[k]
    ensures Ticks(s, Turn(s, k)).cur == s.ready[k]
    ensures forall n :: Slice(s, s.cur) <= n < Turn(s, k) ==> Ticks(s, n).cur != s.ready[k]
  {
    hide Slice;
    var c := Slice(s, s.cur);
    AheadShift(s, d, k);
    assert Turn(s, k) == c + Turn(d, k - 1);
    TicksAdd(s, c, Turn(d, k - 1));
    forall n | c <= n < Turn(s, k) ensures Ticks(s, n).cur != s.ready[k] {
      TicksAdd(s, c, n - c);
    }
  }


  // ---------------------------------------------------------------- a whole round

  /** The running thread and then the queue. */
  function Order(s: State): seq<Tid> { [s.cur] + s.ready }

  /** The slices of the first k threads in that order. */
  function Slices(s: State, k: nat): nat
    requires k <= |Order(s)|
  {
    if k == 0 then 0 else Slices(s, k - 1) + Slice(s, Order(s)[k - 1])
  }

  /** After k turns the order has moved on by k, and those that had their turn have a full slice again. */
  ghost predicate Turned(s: State, d: State, k: nat)
    requires k <= |Order(s)|
  {
    && Order(d) == Order(s)[k..] + Order(s)[..k]
    && (forall j :: 0 <= j < k ==> Slice(d, Order(s)[j]) == Allowance(s, Order(s)[j]))
    && (forall j :: k <= j < |Order(s)| ==> Slice(d, Order(s)[j]) == Slice(s, Order(s)[j]))
    && (forall j :: 0 <= j < |Order(s)| ==>
          Order(s)[j] in d.threads && Allowance(d, Order(s)[j]) == Allowance(s, Order(s)[j]))
  }

  lemma {:induction false} TurnsTaken(s: State, k: nat)
    requires Inv(s) && s.ready != [] && k <= |Order(s)|
    ensures Inv(Ticks(s, Slices(s, k))) && Turned(s, Ticks(s, Slices(s, k)), k)
    decreases k
  {
    hide Inv, Turned;
    if k == 0 {
      NoTurns(s);
    } else {
      TurnsTaken(s, k - 1);
      var c := Ticks(s, Slices(s, k - 1));
      CurTurned(s, c, k - 1);
      OrderApart(s);
      NextTurn(c);
      OneTurn(s, c, Ticks(c, Me(c).ticks + 1), k - 1);
      TicksAdd(s, Slices(s, k - 1), Me(c).ticks + 1);
    }
  }

  lemma NoTurns(s: State)
    requires Inv(s)
    ensures Turned(s, s, 0)
  {
    hide LocksOk, Depth;
    assert Order(s)[0..] + Order(s)[..0] == Order(s);
    forall j | 0 <= j < |Order(s)| ensures Order(s)[j] in s.threads { assert j > 0 ==> Order(s)[j] in s.ready; }
  }

  lemma CurTurned(s: State, c: State, k: nat)
    requires k < |Order(s)| && s.ready != [] && Turned(s, c, k)
    ensures c.cur == Order(s)[k] && c.cur in c.threads && c.ready != [] && Me(c).ticks + 1 == Slice(s, Order(s)[k])
  {
    assert Order(c)[0] == Order(s)[k];
    assert |Order(c)| == |Order(s)|;
  }

  lemma OrderApart(s: State)
    requires Inv(s)
    ensures NoDup(Order(s)) && CanSchedule(s)
  {
    hide LocksOk, Depth;
    ReadyKnown(s);
    forall i, j | 0 <= i < j < |Order(s)| ensures Order(s)[i] != Order(s)[j] {
      assert Order(s)[j] == s.ready[j - 1] && s.ready[j - 1] in s.ready;
      assert i > 0 ==> Order(s)[i] == s.ready[i - 1];
    }
  }

  /** One turn rotates the order by one. */
  lemma Rotated(q: seq<Tid>, o: seq<Tid>, k: nat)
    requires k < |q| && o == q[k..] + q[..k]
    ensures o[0] == q[k] && o[1..] + [o[0]] == q[k + 1..] + q[..k + 1]
    ensures forall j :: 0 <= j < |q| && j != k ==> q[j] in o[1..]
  {
    assert q[..k] + [q[k]] == q[..k + 1];
    assert o[1..] == q[k + 1..] + q[..k];
    forall j | 0 <= j < |q| && j != k ensures q[j] in o[1..] {
      if j > k { assert q[k + 1..][j - k - 1] == q[j]; } else { assert q[..k][j] == q[j]; }
    }
  }

  lemma OneTurn(s: State, c: State, d: State, k: nat)
    requires k < |Order(s)| && s.ready != [] && Turned(s, c, k) && NoDup(Order(s))
    requires c.ready != [] && d.cur == c.ready[0] && d.ready == c.ready[1..] + [c.cur] && c.cur == Order(s)[k]
    requires forall t :: t in c.ready ==> Slice(d, t) == Slice(c, t)
    requires Slice(d, c.cur) == Allowance(c, c.cur)
    requires forall t :: t in c.threads ==> t in d.threads && Allowance(d, t) == Allowance(c, t)
    ensures Turned(s, d, k + 1)
  {
    hide Slice, Allowance, NoDup;
    var q := Order(s);
    Rotated(q, Order(c), k);
    assert Order(c)[1..] == c.ready && Order(d) == c.ready + [c.cur];
  }

  /**
   A whole round: after as many ticks as all slices together the same thread runs, the queue is in the same order,
   and everyone has a full slice, so every later round gives each thread exactly priority + 1 ticks.
   */
  lemma FullRound(s: State)
    requires Inv(s) && s.ready != []
    ensures var d := Ticks(s, Slices(s, |Order(s)|));
      && Inv(d) && d.cur == s.cur && d.ready == s.ready
      && forall t :: t == s.cur || t in s.ready ==> Slice(d, t) == Allowance(d, t) == Allowance(s, t)
  {
    hide Inv;
    var q := Order(s);
    TurnsTaken(s, |q|);
    var d := Ticks(s, Slices(s, |q|));
    assert q[|q|..] + q[..|q|] == q;
    assert Order(d)[0] == d.cur && Order(d)[1..] == d.ready && q[0] == s.cur && q[1..] == s.ready;
    forall t | t == s.cur || t in s.ready ensures Slice(d, t) == Allowance(d, t) == Allowance(s, t) {
      var j :| 0 <= j < |q| && q[j] == t;
    }
  }

  // ---------------------------------------------------------------- handing over a semaphore

  /** The first waiter runs next when the thread that raised the semaphore yields, and the others keep their order. */
  lemma HandOver(s: State, l: LockId)
    requires Inv(s) && l in s.locks && Me(s).pc == Up(l) && s.locks[l].waiters != []
    ensures var u := SemaUp(s, l);
      && CanSchedule(u) && u.cur in u.threads && Me(u).pc.Client? && u.locks[l].waiters == s.locks[l].waiters[1..]
      && Yield(u).cur == s.locks[l].waiters[0] && Me(Yield(u)).pc == DownAgain(l) && Yield(u).locks[l].value == 1
  {
    hide LocksOk, NoDup, Depth;
    UpKeeps(s, l);
    var u := SemaUp(s, l);
    ReadyKept(u);
    FrontWaiter(s, l);
    assert s.locks[l].waiters[0] in s.locks[l].waiters;
  }
}
