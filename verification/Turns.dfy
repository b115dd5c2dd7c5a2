/**
 The queues of the scheduler over whole runs: who runs next, who keeps which slice, in which order a semaphore serves
 the threads that wait for it, and how the depth of a lock counts the calls of its users.
 */
module Turns {
  import opened Common
  import opened Sched

  // ---------------------------------------------------------------- what can move a thread

  /** The current thread is about to find the semaphore of l taken. */
  predicate FindsTaken(s: State, l: LockId) {
    s.cur in s.threads && (Me(s).pc == Down(l) || Me(s).pc == DownAgain(l)) && l in s.locks && s.locks[l].value == 0
  }

  /** The current thread is about to raise the semaphore of l, for which others wait. */
  predicate Raises(s: State, l: LockId) {
    s.cur in s.threads && Me(s).pc == Up(l) && l in s.locks && s.locks[l].waiters != []
  }

  /** The call ends the turn of the current thread, which is then on no list that can run. */
  predicate Leaves(s: State, a: Action) {
    || a.ASleep?
    || a.AExit?
    || (a.AProceed? && s.cur in s.threads && (Me(s).pc.Down? || Me(s).pc.DownAgain?) && FindsTaken(s, Me(s).pc.l))
  }

  /** The call sends the current thread to the back of the ready list. */
  predicate GoesBack(s: State, a: Action) {
    a.AYield? || (a.ATick? && s.cur in s.threads && Me(s).ticks == 0)
  }

  /** The thread that the call makes ready again. */
  function Awakened(s: State, a: Action): seq<Tid> {
    if a.AWake? then [a.t]
    else if a.AProceed? && s.cur in s.threads && Me(s).pc.Up? && Raises(s, Me(s).pc.l)
    then [s.locks[Me(s).pc.l].waiters[0]]
    else []
  }

  // ---------------------------------------------------------------- the halves of schedule

  lemma ScheduleOrder(p: State)
    requires CanSchedule(p)
    ensures Schedule(p).locks == p.locks
    ensures Order(Schedule(p)) ==
      if p.cur in p.threads && Me(p).status.Running? then p.ready + [p.cur]
      else if p.ready == [] then [p.idle] else p.ready
  {
  }

  lemma ScheduleSlices(p: State, t: Tid)
    requires CanSchedule(p) && t in p.threads
    ensures var d := Schedule(p); t in d.threads && d.threads[t].priority == p.threads[t].priority
    ensures var d := Schedule(p);
      d.threads[t].ticks == if t == p.cur && Me(p).status.Running? then p.threads[t].priority else p.threads[t].ticks
  {
  }

  lemma ScheduleThreads(p: State, t: Tid)
    requires CanSchedule(p)
    ensures t in Schedule(p).threads <==> t in p.threads
  {
  }

  // ---------------------------------------------------------------- the ready list

  /**
   Who runs and in which order the others follow, after any one call: a thread that blocks or ends gives way to the
   queue, or to the idle thread; one whose slice is over or that yields goes last; one that is woken goes next; a new
   one goes last.
   */
  lemma OrderStep(s: State, a: Action)
    requires Inv(s) && Enabled(s, a)
    ensures Order(Step(s, a)) ==
      if Leaves(s, a) then if s.ready == [] then [s.idle] else s.ready
      else if GoesBack(s, a) then s.ready + [s.cur]
      else if a.ASpawn? then Order(s) + [a.t]
      else [s.cur] + Awakened(s, a) + s.ready
  {
    hide Inv, Schedule;
    ReadyKept(s);
    match a
    case ATick => if Me(s).ticks == 0 { ScheduleOrder(s); }
    case AYield => ScheduleOrder(Queued(s));
    case ASleep(st) => ScheduleOrder(Put(s, s.cur, Me(s).(status := st, pc := Asleep)));
    case AExit => ScheduleOrder(s.(threads := s.threads - {s.cur}));
    case AProceed => ProceedOrder(s);
    case _ =>
  }

  lemma ProceedOrder(s: State)
    requires Inv(s) && Enabled(s, AProceed)
    ensures Order(Proceed(s)) ==
      if Leaves(s, AProceed) then if s.ready == [] then [s.idle] else s.ready
      else [s.cur] + Awakened(s, AProceed) + s.ready
  {
    hide Inv, Schedule;
    var l := Me(s).pc.l;
    if FindsTaken(s, l) {
      DownPending(s, l);
      ScheduleOrder(Joined(s, l));
    } else if Me(s).pc.Up? {
      UpKeeps(s, l);
    }
  }

  // ---------------------------------------------------------------- the slices

  /** Any one call: priorities stay, and so do slices, but for the one a tick counts down or renews. */
  lemma SliceStep(s: State, a: Action, t: Tid)
    requires Inv(s) && Enabled(s, a) && t in Step(s, a).threads
    ensures t !in s.threads ==> a.ASpawn? && a.t == t
    ensures a.ASpawn? && a.t == t ==>
      var th := Step(s, a).threads[t]; th.priority == th.ticks == a.priority
    ensures t in s.threads ==> Step(s, a).threads[t].priority == s.threads[t].priority
    ensures t in s.threads && a.ATick? && t == s.cur ==>
      Step(s, a).threads[t].ticks == if s.threads[t].ticks == 0 then s.threads[t].priority else s.threads[t].ticks - 1
    ensures t in s.threads && !(a.ATick? && t == s.cur) ==> Step(s, a).threads[t].ticks == s.threads[t].ticks
  {
    hide Inv, Schedule;
    ReadyKept(s);
    var p := match a
      case AYield => Queued(s)
      case ASleep(st) => Put(s, s.cur, Me(s).(status := st, pc := Asleep))
      case AExit => s.(threads := s.threads - {s.cur})
      case _ => s;
    ScheduleThreads(p, t);
    if t in p.threads { ScheduleSlices(p, t); }
    if a.AProceed? { ProceedSlices(s, t); }
  }

  lemma ProceedSlices(s: State, t: Tid)
    requires Inv(s) && Enabled(s, AProceed) && t in Proceed(s).threads
    ensures t in s.threads && Proceed(s).threads[t].priority == s.threads[t].priority
    ensures Proceed(s).threads[t].ticks == s.threads[t].ticks
  {
    hide Inv, Schedule;
    var l := Me(s).pc.l;
    if FindsTaken(s, l) {
      DownPending(s, l);
      ScheduleThreads(Joined(s, l), t);
      ScheduleSlices(Joined(s, l), t);
    } else if Me(s).pc.Up? {
      UpKeeps(s, l);
    }
  }

  // ---------------------------------------------------------------- the statuses

  lemma ScheduleStatus(p: State, t: Tid)
    requires CanSchedule(p) && t in p.threads
    ensures var d := Schedule(p);
      t in d.threads && d.cur in d.threads && (t == d.cur ==> d.threads[t].status.Running?)
    ensures var d := Schedule(p);
      t != d.cur ==>
        d.threads[t].status == if t == p.cur && p.threads[t].status.Running? then Ready else p.threads[t].status
  {
  }

  /**
   Any one call: the thread on the processor is RUNNING; one that left it is READY if it went to the back of the list
   and has its reason for sleeping otherwise; one that was woken is RUNNING already in the list; all others are as they
   were.
   */
  lemma StatusStep(s: State, a: Action, t: Tid)
    requires Inv(s) && Enabled(s, a) && t in s.threads && t in Step(s, a).threads
    ensures var d := Step(s, a);
      d.threads[t].status ==
        if t == d.cur || t in Awakened(s, a) then Running
        else if t == s.cur then
          match a
          case ASleep(st) => st
          case AProceed => Blocked
          case _ => Ready
        else s.threads[t].status
  {
    hide Inv, Schedule;
    ReadyKept(s);
    StepKeeps(s, a);
    ReadyKept(Step(s, a));
    match a
    case ATick => if Me(s).ticks == 0 { ScheduleStatus(s, t); }
    case AYield => ScheduleStatus(Queued(s), t);
    case ASleep(st) => ScheduleStatus(Put(s, s.cur, Me(s).(status := st, pc := Asleep)), t);
    case AExit =>
      ScheduleThreads(s.(threads := s.threads - {s.cur}), t);
      ScheduleStatus(s.(threads := s.threads - {s.cur}), t);
    case AProceed => ProceedStatus(s, t);
    case _ =>
  }

  lemma ProceedStatus(s: State, t: Tid)
    requires Inv(s) && Enabled(s, AProceed) && t in s.threads && Me(s).status.Running?
    ensures var d := Proceed(s); t in d.threads && (t == d.cur ==> d.threads[t].status.Running?)
    ensures var d := Proceed(s);
      t != d.cur ==>
        d.threads[t].status ==
          if t in Awakened(s, AProceed) then Running else if t == s.cur then Blocked else s.threads[t].status
  {
    hide Inv, Schedule;
    var l := Me(s).pc.l;
    if FindsTaken(s, l) {
      DownPending(s, l);
      ScheduleStatus(Joined(s, l), t);
    } else if Me(s).pc.Up? {
      UpKeeps(s, l);
    }
  }

  // ---------------------------------------------------------------- the threads themselves

  /** The thread has not moved in its code, or has just left its sleep for the ready list or the processor. */
  predicate SameCodeAs(th: Thread, eh: Thread, woken: bool) {
    && eh.depth == th.depth
    && (eh.pc == th.pc || (th.pc.Asleep? && eh.pc.Client? && woken))
  }

  lemma ScheduleCode(p: State, t: Tid)
    requires CanSchedule(p) && t in p.threads
    ensures var d := Schedule(p); t in d.threads && SameCodeAs(p.threads[t], d.threads[t], t == d.cur)
  {
  }

  /** A call moves no other thread in its code and changes no other depth; a sleeper that is woken leaves its sleep. */
  lemma CodeStep(s: State, a: Action, t: Tid)
    requires Inv(s) && Enabled(s, a) && t in s.threads && t != s.cur && t in Step(s, a).threads
    ensures var d := Step(s, a);
      SameCodeAs(s.threads[t], d.threads[t], t in Awakened(s, a) || t == d.cur)
    ensures t in Awakened(s, a) ==> !Step(s, a).threads[t].pc.Asleep?
  {
    hide Inv, Schedule, Depth;
    ReadyKept(s);
    match a
    case ATick => if Me(s).ticks == 0 { ScheduleCode(s, t); }
    case AYield => ScheduleCode(Queued(s), t);
    case ASleep(st) => ScheduleCode(Put(s, s.cur, Me(s).(status := st, pc := Asleep)), t);
    case AExit => ScheduleCode(s.(threads := s.threads - {s.cur}), t);
    case AProceed => ProceedCode(s, t);
    case _ =>
  }

  lemma ProceedCode(s: State, t: Tid)
    requires Inv(s) && Enabled(s, AProceed) && t in s.threads && t != s.cur
    ensures var d := Proceed(s);
      t in d.threads && SameCodeAs(s.threads[t], d.threads[t], t in Awakened(s, AProceed) || t == d.cur)
    ensures t in Awakened(s, AProceed) ==> !Proceed(s).threads[t].pc.Asleep?
  {
    hide Inv, Schedule, SemaUp, Depth;
    var l := Me(s).pc.l;
    if FindsTaken(s, l) {
      DownPending(s, l);
      ScheduleCode(Joined(s, l), t);
    } else if Me(s).pc.Up? {
      UpKeeps(s, l);
      RaisedCode(s, l, t);
    }
  }

  lemma RaisedCode(s: State, l: LockId, t: Tid)
    requires s.cur in s.threads && l in s.locks && t in s.threads && t != s.cur
    requires s.locks[l].waiters != [] ==> s.locks[l].waiters[0] in s.threads
    ensures var d, w := SemaUp(s, l), s.locks[l].waiters != [] && t == s.locks[l].waiters[0];
      t in d.threads && SameCodeAs(s.threads[t], d.threads[t], w) && (w ==> !d.threads[t].pc.Asleep?)
  {
  }

  /** Who is there after a call: spawn adds one thread, exit and reap take one away. */
  lemma ThreadsStep(s: State, a: Action, t: Tid)
    requires Inv(s) && Enabled(s, a)
    ensures t in Step(s, a).threads <==>
      if a.ASpawn? && t == a.t then true
      else t in s.threads && !(a.AExit? && t == s.cur) && !(a.AReap? && t == a.t)
  {
    hide Inv, Schedule;
    ReadyKept(s);
    match a
    case ATick => ScheduleThreads(s, t);
    case AYield => ScheduleThreads(Queued(s), t);
    case ASleep(st) => ScheduleThreads(Put(s, s.cur, Me(s).(status := st, pc := Asleep)), t);
    case AExit => ScheduleThreads(s.(threads := s.threads - {s.cur}), t);
    case AProceed => ProceedThreads(s, t);
    case _ =>
  }

  lemma ProceedThreads(s: State, t: Tid)
    requires Inv(s) && Enabled(s, AProceed)
    ensures t in Proceed(s).threads <==> t in s.threads
  {
    hide Inv, Schedule;
    var l := Me(s).pc.l;
    if FindsTaken(s, l) {
      DownPending(s, l);
      ScheduleThreads(Joined(s, l), t);
    } else if Me(s).pc.Up? {
      UpKeeps(s, l);
    }
  }

  // ---------------------------------------------------------------- the queue of a semaphore

  /** Any one call: only a thread that finds the value 0 joins, at the end; only a raise takes, from the front. */
  lemma WaitersStep(s: State, a: Action, l: LockId)
    requires Inv(s) && Enabled(s, a) && l in s.locks
    ensures l in Step(s, a).locks
    ensures Step(s, a).locks[l].waiters ==
      if a.AProceed? && FindsTaken(s, l) then s.locks[l].waiters + [s.cur]
      else if a.AProceed? && Raises(s, l) then s.locks[l].waiters[1..]
      else s.locks[l].waiters
  {
    hide Inv, Schedule;
    ReadyKept(s);
    match a
    case ATick => ScheduleOrder(s);
    case AYield => ScheduleOrder(Queued(s));
    case ASleep(st) => ScheduleOrder(Put(s, s.cur, Me(s).(status := st, pc := Asleep)));
    case AExit => ScheduleOrder(s.(threads := s.threads - {s.cur}));
    case AProceed => ProceedWaiters(s, l);
    case _ =>
  }

  lemma ProceedWaiters(s: State, l: LockId)
    requires Inv(s) && Enabled(s, AProceed) && l in s.locks
    ensures l in Proceed(s).locks
    ensures Proceed(s).locks[l].waiters ==
      if FindsTaken(s, l) then s.locks[l].waiters + [s.cur]
      else if Raises(s, l) then s.locks[l].waiters[1..]
      else s.locks[l].waiters
  {
    hide Inv, Schedule;
    var m := Me(s).pc.l;
    if FindsTaken(s, m) {
      DownPending(s, m);
      ScheduleOrder(Joined(s, m));
    } else if Me(s).pc.Up? {
      UpKeeps(s, m);
    }
  }

  /** The threads that found the semaphore of l taken in a run, in the order in which they did. */
  ghost function Arrivals(s: State, acts: seq<Action>, l: LockId): seq<Tid> {
    if acts == [] then []
    else
      var r, a := Run(s, acts[..|acts| - 1]), acts[|acts| - 1];
      Arrivals(s, acts[..|acts| - 1], l)
        + if Enabled(r, a) && a.AProceed? && FindsTaken(r, l) then [r.cur] else []
  }

  /** How often in a run the semaphore of l was raised while threads waited. */
  ghost function Served(s: State, acts: seq<Action>, l: LockId): nat {
    if acts == [] then 0
    else
      var r, a := Run(s, acts[..|acts| - 1]), acts[|acts| - 1];
      Served(s, acts[..|acts| - 1], l) + if Enabled(r, a) && a.AProceed? && Raises(r, l) then 1 else 0
  }

  /** First come, first served: the waiters after any run are those of before and the arrivals, less one a raise. */
  lemma {:induction false} FirstComeFirstServed(s: State, acts: seq<Action>, l: LockId)
    requires Inv(s) && l in s.locks
    ensures l in Run(s, acts).locks && Served(s, acts, l) <= |s.locks[l].waiters + Arrivals(s, acts, l)|
    ensures Run(s, acts).locks[l].waiters == (s.locks[l].waiters + Arrivals(s, acts, l))[Served(s, acts, l)..]
    decreases |acts|
  {
    hide Inv, Enabled, Step;
    if acts != [] {
      var before := acts[..|acts| - 1];
      var r, a := Run(s, before), acts[|acts| - 1];
      FirstComeFirstServed(s, before, l);
      RunSafe(s, before);
      if Enabled(r, a) { WaitersStep(r, a, l); } else { Idles(r, a); }
      QueueStep(s.locks[l].waiters, Arrivals(s, before, l), Served(s, before, l), r.cur);
    }
  }

  lemma QueueStep(w: seq<Tid>, arrived: seq<Tid>, n: nat, t: Tid)
    requires n <= |w + arrived|
    ensures w + (arrived + []) == w + arrived
    ensures (w + arrived)[n..] + [t] == (w + (arrived + [t]))[n..]
    ensures n < |w + arrived| ==> (w + arrived)[n..][1..] == (w + arrived)[n + 1..]
  {
  }

  lemma Idles(s: State, a: Action)
    requires !Enabled(s, a)
    ensures Step(s, a) == s
  {
  }

  /** A waiter with k others before it waits, blocked, through k raises, and the next raise puts it next to run. */
  lemma WaitsItsTurn(s: State, acts: seq<Action>, l: LockId, k: nat)
    requires Inv(s) && l in s.locks && k < |s.locks[l].waiters| && Served(s, acts, l) <= k
    ensures var t, r := s.locks[l].waiters[k], Run(s, acts);
      && l in r.locks && t in r.locks[l].waiters && t in r.threads && r.threads[t].status.Blocked? && t != r.cur
      && r.locks[l].waiters[0] == s.locks[l].waiters[Served(s, acts, l)]
    ensures var t, r := s.locks[l].waiters[k], Run(s, acts);
      Served(s, acts, l) == k && Enabled(r, AProceed) && Raises(r, l) ==>
        Order(Step(r, AProceed)) == [r.cur, t] + r.ready
  {
    hide Inv, Enabled, Step, Raises, Run, Served, Arrivals, Order;
    FirstComeFirstServed(s, acts, l);
    RunSafe(s, acts);
    var t, r, n := s.locks[l].waiters[k], Run(s, acts), Served(s, acts, l);
    assert r.locks[l].waiters[k - n] == t;
    WaiterBlocked(r, l, t);
    if Enabled(r, AProceed) && Raises(r, l) { FirstServed(r, l); }
  }

  lemma FirstServed(r: State, l: LockId)
    requires Inv(r) && Enabled(r, AProceed) && Raises(r, l)
    ensures Order(Step(r, AProceed)) == [r.cur, r.locks[l].waiters[0]] + r.ready
  {
    hide Inv, Enabled, Step;
    OrderStep(r, AProceed);
    assert [r.cur] + [r.locks[l].waiters[0]] == [r.cur, r.locks[l].waiters[0]];
  }

  lemma WaiterBlocked(r: State, l: LockId, t: Tid)
    requires Inv(r) && l in r.locks && t in r.locks[l].waiters
    ensures t in r.threads && r.threads[t].status.Blocked? && t != r.cur
  {
    hide LocksOk, QueueOk, EveryoneSomewhere, IdleOk;
  }

  // ---------------------------------------------------------------- what depth counts

  function DepthOf(s: State, t: Tid, l: LockId): nat {
    if t in s.threads then Depth(s.threads[t].depth, l) else 0
  }

  /** The thread has called lock_acquire on l and is not back yet. */
  predicate Acquiring(s: State, t: Tid, l: LockId) {
    && t in s.threads
    && var pc := s.threads[t].pc;
       pc == Down(l) || pc == DownAgain(l) || pc == SetHolder(l) || pc == SetCount(l) || pc == Nest(l)
  }

  /** The acquires of l under way or done by t and not yet released. */
  function Held(s: State, t: Tid, l: LockId): nat {
    DepthOf(s, t, l) + if Acquiring(s, t, l) then 1 else 0
  }

  ghost function Calls(s: State, acts: seq<Action>, t: Tid, a: Action): nat {
    if acts == [] then 0
    else
      var r := Run(s, acts[..|acts| - 1]);
      Calls(s, acts[..|acts| - 1], t, a) + if Enabled(r, a) && acts[|acts| - 1] == a && r.cur == t then 1 else 0
  }

  /** Any run: the calls of lock_acquire by a thread on a lock are its calls of lock_release and what it still holds. */
  lemma {:induction false} CallsBalance(s: State, acts: seq<Action>, t: Tid, l: LockId)
    requires Inv(s)
    ensures Calls(s, acts, t, AAcquire(l)) + Held(s, t, l) == Calls(s, acts, t, ARelease(l)) + Held(Run(s, acts), t, l)
    decreases |acts|
  {
    hide Inv, Enabled, Step, Held;
    if acts != [] {
      var before := acts[..|acts| - 1];
      var r, a := Run(s, before), acts[|acts| - 1];
      CallsBalance(s, before, t, l);
      RunSafe(s, before);
      if Enabled(r, a) { HeldStep(r, a, t, l); } else { Idles(r, a); }
    }
  }

  lemma ScheduleHeld(p: State, t: Tid, l: LockId)
    requires CanSchedule(p)
    ensures Held(Schedule(p), t, l) == Held(p, t, l)
  {
  }

  lemma HeldStep(s: State, a: Action, t: Tid, l: LockId)
    requires Inv(s) && Enabled(s, a)
    ensures Held(Step(s, a), t, l) + (if a == ARelease(l) && t == s.cur then 1 else 0)
      == Held(s, t, l) + if a == AAcquire(l) && t == s.cur then 1 else 0
  {
    hide Inv, Schedule;
    ReadyKept(s);
    match a
    case ATick => ScheduleHeld(s, t, l);
    case AYield => ScheduleHeld(Queued(s), t, l);
    case ASleep(st) => ScheduleHeld(Put(s, s.cur, Me(s).(status := st, pc := Asleep)), t, l);
    case AExit => ScheduleHeld(s.(threads := s.threads - {s.cur}), t, l);
    case AProceed => ProceedHeld(s, t, l);
    case _ =>
  }

  lemma ProceedHeld(s: State, t: Tid, l: LockId)
    requires Inv(s) && Enabled(s, AProceed)
    ensures Held(Proceed(s), t, l) == Held(s, t, l)
  {
    hide Inv, Schedule, Held, SemaUp;
    var m := Me(s).pc.l;
    if FindsTaken(s, m) {
      DownPending(s, m);
      ScheduleHeld(Joined(s, m), t, l);
      JoinedHeld(s, m, t, l);
    } else if Me(s).pc.Up? {
      UpKeeps(s, m);
      RaisedHeld(s, m, t, l);
    } else {
      OwnHeld(s, t, l);
    }
  }

  lemma JoinedHeld(s: State, m: LockId, t: Tid, l: LockId)
    requires FindsTaken(s, m)
    ensures Held(Joined(s, m), t, l) == Held(s, t, l)
  {
  }

  lemma RaisedHeld(s: State, m: LockId, t: Tid, l: LockId)
    requires s.cur in s.threads && Me(s).pc == Up(m) && m in s.locks
    ensures Held(SemaUp(s, m), t, l) == Held(s, t, l)
  {
    hide Depth;
  }

  lemma OwnHeld(s: State, t: Tid, l: LockId)
    requires Enabled(s, AProceed) && !FindsTaken(s, Me(s).pc.l) && !Me(s).pc.Up?
    ensures Held(Proceed(s), t, l) == Held(s, t, l)
  {
    hide Schedule, Block;
    if t == s.cur { OwnDepth(s, l); }
  }

  lemma OtherDepth(depth: map<LockId, nat>, m: LockId, l: LockId)
    ensures Depth(depth[m := Depth(depth, m) + 1], l) == Depth(depth, l) + if l == m then 1 else 0
  {
  }

  lemma OwnDepth(s: State, l: LockId)
    requires Enabled(s, AProceed) && !FindsTaken(s, Me(s).pc.l) && !Me(s).pc.Up?
    ensures Held(Proceed(s), s.cur, l) == Held(s, s.cur, l)
  {
    hide Schedule, Block;
    var m := Me(s).pc.l;
    match Me(s).pc
    case SetCount(_) => OtherDepth(Me(s).depth, m, l);
    case Nest(_) => OtherDepth(Me(s).depth, m, l);
    case _ =>
  }

  // ---------------------------------------------------------------- a lock nobody else wants

  lemma RunMore(s: State, acts: seq<Action>, a: Action)
    ensures Run(s, acts + [a]) == Step(Run(s, acts), a)
  {
    assert (acts + [a])[..|acts|] == acts;
  }

  lemma RunFour(s: State, a: Action, b: Action, c: Action, d: Action)
    ensures Run(s, [a, b, c, d]) == Step(Step(Step(Step(s, a), b), c), d)
  {
    hide Step;
    RunMore(s, [], a);
    RunMore(s, [a], b);
    RunMore(s, [a, b], c);
    RunMore(s, [a, b, c], d);
    assert Run(s, []) == s;
    assert [] + [a] == [a] && [a] + [b] == [a, b] && [a, b] + [c] == [a, b, c] && [a, b, c] + [d] == [a, b, c, d];
  }

  /** The thread is back in its own code with the lock to itself. */
  function Locked(s: State, l: LockId, n: nat): State
    requires s.cur in s.threads && l in s.locks
  {
    Put(WithLock(s, l, Lock(0, s.locks[l].waiters, Just(s.cur), 1)), s.cur, Me(s).(depth := Me(s).depth[l := n]))
  }

  /**
   A free lock that nobody waits for: acquire and its three statements take it, and from there release and its three
   statements give it back, leaving the state as it was.
   */
  lemma TakeAndGive(s: State, l: LockId)
    requires Inv(s) && s.cur in s.threads && Me(s).pc.Client? && s.cur != s.idle && l in s.locks
    requires s.locks[l] == FreeLock() && l in Me(s).depth && Me(s).depth[l] == 0
    ensures Run(s, [AAcquire(l), AProceed, AProceed, AProceed]) == Locked(s, l, 1)
    ensures Run(Locked(s, l, 1), [ARelease(l), AProceed, AProceed, AProceed]) == s
  {
    hide Inv, Run;
    ReadyKept(s);
    var th, k := Me(s), s.locks[l];
    RunFour(s, AAcquire(l), AProceed, AProceed, AProceed);
    TakesLock(s, l);
    var d := Locked(s, l, 1);
    RunFour(d, ARelease(l), AProceed, AProceed, AProceed);
    GivesLock(s, d, l);
  }

  /** Between two statements of lock code: the lock and the thread's place and depth. */
  function At(s: State, l: LockId, k: Lock, pc: Pc, n: nat): State
    requires s.cur in s.threads
  {
    Put(WithLock(s, l, k), s.cur, Me(s).(pc := pc, depth := Me(s).depth[l := n]))
  }

  lemma TakesLock(s: State, l: LockId)
    requires CanSchedule(s) && s.cur in s.threads && Me(s).pc.Client? && s.cur != s.idle && l in s.locks
    requires s.locks[l] == FreeLock() && l in Me(s).depth && Me(s).depth[l] == 0
    ensures Step(Step(Step(Step(s, AAcquire(l)), AProceed), AProceed), AProceed) == Locked(s, l, 1)
  {
    assert Me(s).depth[l := 0] == Me(s).depth && s.locks[l := FreeLock()] == s.locks;
    var s1 := Step(s, AAcquire(l));
    assert s1 == At(s, l, FreeLock(), Down(l), 0);
    var s2 := Step(s1, AProceed);
    assert s2 == At(s, l, Lock(0, [], Nothing, 0), SetHolder(l), 0);
    var s3 := Step(s2, AProceed);
    assert s3 == At(s, l, Lock(0, [], Just(s.cur), 0), SetCount(l), 0);
    assert Step(s3, AProceed) == At(s, l, Lock(0, [], Just(s.cur), 1), Client, 1);
  }

  lemma GivesLock(s: State, d: State, l: LockId)
    requires CanSchedule(s) && s.cur in s.threads && Me(s).pc.Client? && s.cur != s.idle && l in s.locks
    requires s.locks[l] == FreeLock() && l in Me(s).depth && Me(s).depth[l] == 0 && d == Locked(s, l, 1)
    ensures Step(Step(Step(Step(d, ARelease(l)), AProceed), AProceed), AProceed) == s
  {
    ReleaseBegins(s, d, l);
    var d2 := At(s, l, Lock(0, [], Just(s.cur), 0), ClearHolder(l), 0);
    var d3 := Step(d2, AProceed);
    assert d3 == At(s, l, Lock(0, [], Nothing, 0), Up(l), 0);
    assert Step(d3, AProceed) == At(s, l, FreeLock(), Client, 0);
    assert Me(s).depth[l := 0] == Me(s).depth && s.locks[l := FreeLock()] == s.locks;
    assert s.threads[s.cur := Me(s)] == s.threads;
  }

  lemma ReleaseBegins(s: State, d: State, l: LockId)
    requires CanSchedule(s) && s.cur in s.threads && Me(s).pc.Client? && l in s.locks
    requires s.locks[l] == FreeLock() && d == Locked(s, l, 1)
    ensures Step(Step(d, ARelease(l)), AProceed) == At(s, l, Lock(0, [], Just(s.cur), 0), ClearHolder(l), 0)
  {
    var d1 := Step(d, ARelease(l));
    assert Me(d).depth[l := 0] == Me(s).depth[l := 0];
    assert d == At(s, l, Lock(0, [], Just(s.cur), 1), Client, 1);
    assert d1 == At(s, l, Lock(0, [], Just(s.cur), 1), ClearCount(l), 0);
  }
}
