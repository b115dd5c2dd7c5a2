/**
 The scheduler and the locks as the kernel keeps them: one set of variables updated in place. Each method
 is one section that runs with interrupts off, and does to the variables what Sched says of the state.
 The assertions in the bodies are the ones the kernel makes.
 */
module Cpu {
  import opened Common
  import opened Sched
  import Turns

  /** What schedule relies on: the running thread is on no list, and the idle thread sleeps if nobody is ready. */
  ghost predicate MaySchedule(s: State) {
    && CanSchedule(s)
    && (s.cur in s.threads && Me(s).status.Running? ==> s.cur !in s.ready)
    && (s.ready == [] && !(s.cur in s.threads && Me(s).status.Running?) ==> s.threads[s.idle].status.Blocked?)
  }

  lemma PendingMay(s: State)
    requires Pending(s)
    ensures MaySchedule(s)
  {
    hide LockCore, PcOk, Depth, NoDup;
    if s.ready == [] { IdleOff(s); }
  }

  class Kernel {
    var threads: map<Tid, Thread>
    var cur: Tid
    var ready: seq<Tid>
    var idle: Tid
    var locks: map<LockId, Lock>

    function S(): State
      reads this
    {
      State(threads, cur, ready, idle, locks)
    }

    constructor (s: State)
      requires Boot(s)
      ensures S() == s && Inv(S())
    {
      threads, cur, ready, idle, locks := s.threads, s.cur, s.ready, s.idle, s.locks;
      new;
      BootSafe(s);
    }

    method ThreadUnlock(t: Tid)
      requires t in threads && Sleeping(threads[t].status) && t !in ready
      modifies this`threads, this`ready
      ensures S() == Unlock(old(S()), t)
    {
      assert threads[t].status != Ready;
      ready := [t] + ready;
      var th := threads[t];
      threads := threads[t := th.(status := Running, pc := if th.pc.Asleep? then Client else th.pc)];
    }

    method Reschedule()
      requires MaySchedule(S())
      modifies this`threads, this`ready, this`cur
      ensures S() == Schedule(old(S()))
    {
      if cur in threads && threads[cur].status.Running? {
        assert cur !in ready;
        ready := ready + [cur];
        threads := threads[cur := threads[cur].(status := Ready, ticks := threads[cur].priority)];
      }
      assert S() == Requeue(old(S()));
      if ready == [] { ThreadUnlock(idle); }
      var next := ready[0];
      ready := ready[1..];
      threads := threads[next := threads[next].(status := Running)];
      cur := next;
    }

    /** intr_timer_handler. */
    method TimerTick()
      requires Inv(S())
      modifies this`threads, this`ready, this`cur
      ensures CanSchedule(old(S())) && old(cur) in old(threads) && S() == Tick(old(S())) && Inv(S())
    {
      TickEnabled(S());
      MayTick(S());
      if threads[cur].ticks == 0 {
        Reschedule();
      } else {
        threads := threads[cur := threads[cur].(ticks := threads[cur].ticks - 1)];
      }
    }

    method ThreadBlock(st: Status)
      requires Inv(S()) && Me(S()).pc.Client? && (cur == idle ==> st.Blocked?) && Sleeping(st)
      modifies this`threads, this`ready, this`cur
      ensures CanSchedule(old(S())) && old(cur) in old(threads) && S() == Block(old(S()), st, Asleep) && Inv(S())
    {
      SleepPending(S(), st);
      SleepKeeps(S(), st);
      threads := threads[cur := threads[cur].(status := st, pc := Asleep)];
      PendingMay(S());
      Reschedule();
    }

    method ThreadYield()
      requires Inv(S()) && Me(S()).pc.Client?
      modifies this`threads, this`ready, this`cur
      ensures CanSchedule(old(S())) && old(cur) in old(threads) && S() == Yield(old(S())) && Inv(S())
    {
      hide Inv, Pending, MaySchedule, Schedule;
      PcKnown(S());
      YieldPending(S());
      YieldKeeps(S());
      ready := ready + [cur];
      threads := threads[cur := threads[cur].(status := Ready)];
      PendingMay(S());
      Reschedule();
    }

    /** The loop of sema_down from where interrupts go off to where the thread has the value or blocks. */
    method SemaDownPass(l: LockId)
      requires Inv(S()) && l in locks && (Me(S()).pc == Down(l) || Me(S()).pc == DownAgain(l))
      modifies this
      ensures CanSchedule(old(S())) && S() == SemaDown(old(S()), l) && Inv(S())
      ensures l in locks && (old(locks)[l].value == 0 ==> locks[l].waiters == old(locks)[l].waiters + [old(cur)])
      ensures forall m :: m in old(locks) && m != l ==> m in locks && locks[m] == old(locks)[m]
    {
      hide Inv, Pending, Schedule, MaySchedule;
      PcKnown(S());
      if locks[l].value == 0 {
        Turns.ScheduleOrder(Joined(S(), l));
        DownPending(S(), l);
        DownBlocksKeeps(S(), l);
        if cur !in locks[l].waiters {
          locks := locks[l := locks[l].(waiters := locks[l].waiters + [cur])];
          threads := threads[cur := threads[cur].(status := Blocked, pc := DownAgain(l))];
          PendingMay(S());
          Reschedule();
        }
      } else {
        TakeKeeps(S(), l);
        locks := locks[l := locks[l].(value := locks[l].value - 1)];
        assert locks[l].value == 0;
        threads := threads[cur := threads[cur].(pc := SetHolder(l))];
      }
    }

    method SemaRaise(l: LockId)
      requires Inv(S()) && l in locks && Me(S()).pc == Up(l)
      modifies this
      ensures S() == SemaUp(old(S()), l) && Inv(S())
    {
      hide Inv;
      PcKnown(S());
      UpKeeps(S(), l);
      if locks[l].waiters != [] { UpWaiter(S(), l); }
      assert locks[l].value == 0;
      threads := threads[cur := threads[cur].(pc := Client)];
      if locks[l].waiters != [] {
        var w := locks[l].waiters[0];
        locks := locks[l := locks[l].(waiters := locks[l].waiters[1..])];
        ThreadUnlock(w);
      }
      locks := locks[l := locks[l].(value := locks[l].value + 1)];
    }

    /** lock_acquire up to its test of the holder. */
    method LockAcquire(l: LockId)
      requires Inv(S()) && Me(S()).pc.Client? && cur != idle && l in locks
      modifies this`threads
      ensures S() == Acquire(old(S()), l) && Inv(S())
      ensures Me(S()).pc == if Depth(Me(S()).depth, l) > 0 then Nest(l) else Down(l)
    {
      hide Inv;
      PcKnown(S());
      AcquireKeeps(S(), l);
      threads := threads[cur := threads[cur].(pc := if locks[l].holder != Just(cur) then Down(l) else Nest(l))];
    }

    /** lock_release up to its test of the count. */
    method LockRelease(l: LockId)
      requires Inv(S()) && Me(S()).pc.Client? && l in locks && Depth(Me(S()).depth, l) > 0
      modifies this`threads
      ensures S() == Release(old(S()), l) && Inv(S())
      ensures Me(S()).pc == if old(Depth(Me(S()).depth, l)) > 1 then Unnest(l) else ClearCount(l)
    {
      hide Inv;
      PcKnown(S());
      ReleaseKeeps(S(), l);
      assert locks[l].holder == Just(cur);
      var me := threads[cur];
      threads := threads[cur := me.(pc := if locks[l].repeats > 1 then Unnest(l) else ClearCount(l),
                                    depth := me.depth[l := Depth(me.depth, l) - 1])];
    }

    /** The next statement of lock_acquire or lock_release by the thread that owns the lock. */
    method LockStatement()
      requires Inv(S())
      requires var pc := Me(S()).pc;
        pc.SetHolder? || pc.SetCount? || pc.Nest? || pc.Unnest? || pc.ClearCount? || pc.ClearHolder?
      modifies this`threads, this`locks
      ensures Enabled(old(S()), AProceed) && S() == Proceed(old(S())) && Inv(S())
    {
      hide Inv;
      PcKnown(S());
      OwnerStepKeeps(S());
      var me := threads[cur];
      var l := me.pc.l;
      var k := locks[l];
      match me.pc {
        case SetHolder(_) =>
          locks := locks[l := k.(holder := Just(cur))];
          me := me.(pc := SetCount(l));
        case SetCount(_) =>
          locks := locks[l := k.(repeats := 1)];
          me := me.(pc := Client, depth := me.depth[l := Depth(me.depth, l) + 1]);
        case Nest(_) =>
          locks := locks[l := k.(repeats := k.repeats + 1)];
          me := me.(pc := Client, depth := me.depth[l := Depth(me.depth, l) + 1]);
        case Unnest(_) =>
          UnnestCounts(S(), l);
          locks := locks[l := k.(repeats := k.repeats - 1)];
          me := me.(pc := Client);
        case ClearCount(_) =>
          locks := locks[l := k.(repeats := 0)];
          me := me.(pc := ClearHolder(l));
        case ClearHolder(_) =>
          locks := locks[l := k.(holder := Nothing)];
          me := me.(pc := Up(l));
      }
      threads := threads[cur := me];
    }

    method ThreadStart(t: Tid, priority: nat)
      requires Inv(S()) && t !in threads
      modifies this`threads, this`ready
      ensures S() == Spawn(old(S()), t, priority) && Inv(S())
    {
      SpawnKeeps(S(), t, priority);
      threads := threads[t := Thread(Ready, priority, priority, Client, map[])];
      assert t !in ready;
      ready := ready + [t];
    }

    /** thread_exit of the running thread, which goes on to schedule without a record of its own. */
    method ThreadExit()
      requires Inv(S()) && Enabled(S(), AExit)
      modifies this`threads, this`ready, this`cur
      ensures S() == ExitSelf(old(S())) && Inv(S())
    {
      ExitKeeps(S());
      ExitPending(S());
      threads := threads - {cur};
      PendingMay(S());
      Reschedule();
    }
  }

  lemma MayTick(s: State)
    requires Inv(s)
    ensures MaySchedule(s)
  {
    hide LocksOk;
    TickEnabled(s);
  }

  lemma UpWaiter(s: State, l: LockId)
    requires Inv(s) && l in s.locks && s.locks[l].waiters != []
    ensures var w := s.locks[l].waiters[0];
      w in s.threads && s.threads[w].status.Blocked? && w !in s.ready && w != s.cur
  {
    hide LocksOk, QueueOk, WaitersOk, EveryoneSomewhere, IdleOk;
    FrontWaiter(s, l);
  }

  lemma UnnestCounts(s: State, l: LockId)
    requires Inv(s) && l in s.locks && Me(s).pc == Unnest(l)
    ensures s.locks[l].repeats > 0
  {
    hide Placed, LocksOk;
    PcKnown(s);
    OwnerFacts(s, l);
  }
}
