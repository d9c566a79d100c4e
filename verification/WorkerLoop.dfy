/**
 The supervisor that claims jobs and runs them in child processes
 (quant/queue/worker_loop.py), against an environment that acts at any moment.
 */
module WorkerLoop {
  import opened QueueWorld
  import opened RunOrder
  import opened LoopSteps

  class Loop {
    const maxConcurrent: int
    const jobTimeout: int
    var world: World
    var active: Active
    var running: bool
    var script: seq<Event>

    constructor (maxConcurrent: int, jobTimeout: int, world: World, script: seq<Event>)
      ensures this.maxConcurrent == maxConcurrent && this.jobTimeout == jobTimeout
      ensures this.world == world && this.script == script && active == map[] && !running
    {
      this.maxConcurrent, this.jobTimeout := maxConcurrent, jobTimeout;
      this.world, this.script := world, script;
      active, running := map[], false;
    }

    /** The environment takes any number of its events. */
    method Interfere(ghost loose: set<int>)
      requires Inv(world, active, loose)
      modifies this`world, this`script
      ensures Inv(world, active, loose) && Tame(old(world), world)
      ensures old(script) == [] ==> world == old(world) && script == []
    {
      hide Inv, Tame;
      var n :| 0 <= n <= |script|;
      TameRefl(world);
      for i := 0 to n
        invariant i + |script| == |old(script)|
        invariant Inv(world, active, loose) && Tame(old(world), world)
        invariant n == 0 ==> world == old(world) && script == old(script)
      {
        EventKeeps(world, script[0], active, loose);
        TameTransitive(old(world), world, Apply(world, script[0]));
        world := Apply(world, script[0]);
        script := script[1..];
      }
    }

    /** One exited child. */
    method ReapOne(q: int)
      requires Inv(world, active, {}) && q in active
      requires active[q].pid in world.children && world.children[active[q].pid].phase.Exited?
      modifies this`world, this`script, this`active
      ensures Inv(world, active, {}) && active == old(active) - {q}
      ensures Evolves(old(world), world) && EndsKept(old(world), world)
      ensures ChildrenStep(old(world), world) && Settled(world, q) && Marked(old(world), world, q)
      ensures forall id | id in old(world).jobs && id != q :: RowTame(old(world), world, id)
      ensures old(script) == [] ==> script == [] && q in old(world).jobs && world == CrashMarked(old(world), q)
    {
      hide Inv, Tame, Evolves, EndsKept, NoProcess, RowTame, ChildrenStep, Marked, CrashMarked;
      ghost var before := world;
      var entry := active[q];
      ActiveRow(world, active, q);
      ActiveHaveChildren(world, active, {});
      ExitedAlone(world, active, {}, q);
      PopKeeps(world, active, q);
      active := active - {q};
      TameRefl(world);
      var code := world.children[entry.pid].phase.code;
      if code != 0 {
        Interfere({q});
        TameRows(before, world);
        NoProcessStays(before, world, q);
        StillIn(before, world, q);
        var latest := world.jobs[q];
        if latest.status.Running? {
          ghost var read := world;
          Interfere({q});
          TameTransitive(before, read, world);
          TameRows(read, world);
          NoProcessStays(read, world, q);
          TameEvolves(before, world);
          StillIn(read, world, q);
          NotOver(read, world, q);
          ghost var beforeEnd := world;
          TameRows(before, beforeEnd);
          EndKeeps(world, active, q, Failed);
          EndEvolves(world, q, Failed);
          world := SetStatus(world, q, Failed);
          EvolvesTransitive(before, beforeEnd, world);
          SamePhases(beforeEnd, world, q);
          TameKeys(before, beforeEnd);
          OtherRows(before, beforeEnd, q, Failed);
          SameChildren(before, beforeEnd, q, Failed);
          WasRunning(before, read, q);
          CrashIsMarked(before, beforeEnd, q);
          assert Settled(world, q);
          return;
        }
      }
      TameEvolves(before, world);
      TameKeys(before, world);
      TameRows(before, world);
      NoCrashToMark(before, world, q);
      SettleKeeps(world, active, q);
    }

    /**
     `_reap_children`. Every child that had exited when the step began is gone, and a job
     it left RUNNING has failed, unless a cancel request came first. A crash fails the row
     only if it still runs on a second reading, so it never replaces an ended row.
     */
    method ReapChildren()
      requires Inv(world, active, {})
      modifies this`world, this`script, this`active
      ensures Inv(world, active, {})
      ensures Evolves(old(world), world) && EndsKept(old(world), world) && ChildrenStep(old(world), world)
      ensures active.Keys <= old(active).Keys && forall q | q in active :: active[q] == old(active)[q]
      ensures forall q | q in old(active) && q !in active :: Settled(world, q)
      ensures forall q | q in old(active) && HasExited(old(world), old(active), q) ::
                q !in active && Marked(old(world), world, q)
      ensures old(script) == [] ==> script == [] && ReapedQuietly(old(world), old(active), world, active)
    {
      hide Inv, Tame, Evolves, EndsKept, Settled, ChildrenStep, Marked, RowTame, CrashMarked, HasExited, ReapedQuietly, ReapingQuietly, ReapSoFar;
      ghost var start, held := world, active;
      ExitedHaveNone(start, held);
      Interfere({});
      ghost var polled := world;
      TameEvolves(start, polled);
      TameKeys(start, polled);
      TameRows(start, polled);
      ActiveHaveChildren(world, active, {});
      var finished: set<int> := set q: int | q in active && world.children[active[q].pid].phase.Exited?;
      ReapStart(start, polled, held, finished);
      while finished != {}
        invariant Inv(world, active, {})
        invariant Evolves(start, world) && EndsKept(start, world) && ChildrenStep(start, world)
        invariant finished <= active.Keys <= held.Keys
        invariant forall q | q in active :: active[q] == held[q]
        invariant ReapSoFar(start, held, world, active, finished)
        invariant old(script) == [] ==> script == [] && ReapingQuietly(start, held, world, active, finished)
        decreases |finished|
      {
        Nonempty(finished);
        var q :| q in finished;
        ghost var before, was, todo := world, active, finished;
        finished := finished - {q};
        ReapReady(start, held, before, was, todo, q);
        ReapOne(q);
        EvolvesTransitive(start, before, world);
        ReapStep(start, before, world, held, was, todo, q);
        if old(script) == [] {
          ReapQuietly(start, held, before, was, todo, q);
        }
      }
      ReapEnd(start, held, world, active);
    }

    /** `_stop_child`: ask, wait, then kill. The child may still write or exit in the meantime. */
    method StopChild(pid: nat, ghost q: int)
      requires Inv(world, active, {q}) && OwnProcess(world, q, pid)
      modifies this`world, this`script
      ensures Inv(world, active, {q}) && NoProcess(world, q)
      ensures Tame(old(world), world)
      ensures old(script) == [] ==> script == [] && Undisturbed(old(world), world, q)
    {
      hide Inv, Tame, NoProcess;
      ghost var before := world;
      Interfere({q});
      OwnProcessStays(before, world, q, pid);
      if Alive(world, pid) {
        ghost var waited := world;
        KillKeeps(world, active, {q}, pid, -15);
        world := SetPhase(world, pid, Exited(-15, world.children[pid].phase.Wrote?));
        TameTransitive(before, waited, world);
        OwnProcessStays(waited, world, q, pid);
      }
      OwnProcessGone(world, q, pid);
    }

    /**
     One requested row: its child is stopped first, so that nothing lands on top of the
     cancel. CANCELLED is written in the world `over`, whatever the row says there: it has
     ended exactly when the child wrote it before it was gone.
     */
    method CancelOne(q: int) returns (ghost over: World)
      requires Inv(world, active, {}) && q in world.jobs
      requires Requested(world.jobs[q].status)
      modifies this`world, this`script, this`active
      ensures Inv(world, active, {}) && active == old(active) - {q}
      ensures Evolves(old(world), world) && ChildrenStep(old(world), world)
      ensures Settled(world, q) && q in world.jobs && world.jobs[q].status.Cancelled?
      ensures forall id | id in old(world).jobs && id != q :: RowTame(old(world), world, id)
      ensures Tame(old(world), over) && q in over.jobs && NoProcess(over, q) && world == SetStatus(over, q, Cancelled)
      ensures Requested(over.jobs[q].status)
      ensures if old(world).jobs[q].status.CancelRequested?
              then Terminal(over.jobs[q].status) <==> WroteMeanwhile(old(world), over, q)
              else over.jobs[q].status == old(world).jobs[q].status
      ensures old(script) == [] ==> script == [] && Undisturbed(old(world), world, q)
    {
      hide Inv, Tame, NoProcess, Evolves, RowTame, ChildrenStep, WroteMeanwhile;
      ghost var before := world;
      TameRefl(world);
      if q in active {
        var entry := active[q];
        PopKeeps(world, active, q);
        active := active - {q};
        StopChild(entry.pid, q);
      } else {
        NoProcessUnlessActive(world, active, q);
        LooseKeeps(world, active, q);
      }
      ghost var stopped := world;
      Interfere({q});
      NoProcessStays(stopped, world, q);
      TameTransitive(before, stopped, world);
      ghost var settled := world;
      TameRows(before, settled);
      over := settled;
      StillRequested(before, settled, q);
      TameEvolves(before, settled);
      EndKeeps(world, active, q, Cancelled);
      EndEvolves(world, q, Cancelled);
      world := SetStatus(world, q, Cancelled);
      EvolvesTransitive(before, settled, world);
      SamePhases(settled, world, q);
      OtherRows(before, settled, q, Cancelled);
      SameChildren(before, settled, q, Cancelled);
    }

    /**
     `_enforce_cancels`: every row `listed` as CANCEL_REQUESTED ends CANCELLED, whether or
     not it has a child. It is not read again: in `over[j]`, where the `j`th of them is
     written, it has ended exactly when its child wrote it after the listing.
     */
    method EnforceCancels() returns (ghost listed: World, ghost over: seq<World>)
      requires Inv(world, active, {})
      modifies this`world, this`script, this`active
      ensures Inv(world, active, {})
      ensures Evolves(old(world), world) && EndsKept(old(world), world)
      ensures ChildrenStep(old(world), world) && Tame(old(world), listed)
      ensures active.Keys <= old(active).Keys && forall q | q in active :: active[q] == old(active)[q]
      ensures forall q | q in old(active) && q !in active ::
                Settled(world, q) && q in listed.jobs && listed.jobs[q].status.CancelRequested?
      ensures |over| == |ListByStatus(listed, CancelRequested)|
      ensures CancelRun(listed, ListByStatus(listed, CancelRequested), over, world)
      ensures forall j | 0 <= j < |over| :: CancelWritten(listed, over[j], world, ListByStatus(listed, CancelRequested)[j].id)
      ensures forall id | id in listed.jobs && listed.jobs[id].status.CancelRequested? ::
                id in world.jobs && world.jobs[id].status.Cancelled?
      ensures forall id | id in old(world).jobs && old(world).jobs[id].status.CancelRequested? ::
                id in world.jobs && Terminal(world.jobs[id].status)
      ensures old(script) == [] ==> script == [] && listed == old(world) && SameFor(old(world), world, active)
    {
      hide Inv, Tame, Evolves, EndsKept, Settled, RowTame, ListByStatus, DistinctJobs, OrderOk, ChildrenStep, CancelWritten, CancelsSoFar;
      hide WroteMeanwhile, SameFor, CancelRun, NoProcess;
      ghost var start := world;
      Interfere({});
      TameEvolves(start, world);
      listed := world;
      TameRows(start, listed);
      TameRefl(listed);
      TameEvolves(listed, listed);
      TameRows(listed, listed);
      var rows := ListByStatus(world, CancelRequested);
      RowsAreOrdered(world, active);
      ListExact(world, CancelRequested);
      over := [];
      CancelsStart(listed, rows);
      SameForRefl(listed, active);
      for i := 0 to |rows|
        invariant Inv(world, active, {}) && |over| == i
        invariant Evolves(listed, world) && EndsKept(listed, world)
        invariant ChildrenStep(listed, world)
        invariant active.Keys <= old(active).Keys && forall q | q in active :: active[q] == old(active)[q]
        invariant forall q | q in old(active) && q !in active ::
                    Settled(world, q) && q in listed.jobs && listed.jobs[q].status.CancelRequested?
        invariant CancelsSoFar(listed, world, rows, over)
        invariant old(script) == [] ==> script == [] && SameFor(listed, world, active)
      {
        ghost var before, held := world, active;
        NextRequested(listed, world, rows, over);
        ghost var o := CancelOne(rows[i].id);
        SettledAll(before, world, old(active), held);
        CancelsStep(listed, before, o, world, rows, over);
        SameForLess(listed, before, world, held, rows[i].id);
        over := over + [o];
        EndsAdvance(listed, before, world, rows, i);
        EvolvesTransitive(listed, before, world);
        ChildrenStepTransitive(listed, before, world);
      }
      CancelsEnd(listed, world, rows, over);
      AllCancelled(listed, world, rows);
      AllSettled(start, listed, world, rows);
      EvolvesTransitive(start, listed, world);
      ChildrenStepTransitive(start, listed, world);
    }

    /** One active job's deadline, against the time read when the step began. */
    method TimeoutOne(q: int, now: int)
      requires Inv(world, active, {}) && q in active && now <= world.clock
      modifies this`world, this`script, this`active
      ensures Inv(world, active, {}) && Evolves(old(world), world)
      ensures ChildrenStep(old(world), world)
      ensures forall id | id in old(world).jobs && id != q :: RowTame(old(world), world, id)
      ensures q in active ==>
                && active == old(active) && EndsKept(old(world), world)
                && InTime(world, active, q, now, jobTimeout)
      ensures q !in active ==>
                && active == old(active) - {q} && Settled(world, q)
                && q in world.jobs && world.jobs[q].status.Failed?
                && now - old(active)[q].start >= jobTimeout
      ensures old(script) == [] ==> script == [] && Undisturbed(old(world), world, q) && world.clock == old(world).clock
      ensures old(script) == [] ==> (q in active <==> InTime(old(world), old(active), q, now, jobTimeout))
      ensures old(script) == [] && q in active ==> world == old(world)
      ensures old(script) == [] && q !in active ==> q in old(world).jobs && world.jobs == SetStatus(old(world), q, Failed).jobs
    {
      hide Inv, Tame, NoProcess, Evolves, RowTame, EndsKept;
      ghost var before := world;
      Interfere({});
      ActiveHaveChildren(world, active, {});
      TameEvolves(before, world);
      TameRows(before, world);
      TameKeys(before, world);
      var entry := active[q];
      if world.children[entry.pid].phase.Exited? || now - entry.start < jobTimeout {
        return;
      }
      ghost var late := world;
      KillKeeps(world, active, {}, entry.pid, -9);
      world := SetPhase(world, entry.pid, Exited(-9, world.children[entry.pid].phase.Wrote?));
      ghost var killed := world;
      ExitedAlone(world, active, {}, q);
      Interfere({});
      NoProcessStays(killed, world, q);
      TameTransitive(before, late, killed);
      TameTransitive(before, killed, world);
      ActiveHaveChildren(world, active, {});
      ghost var dead := world;
      TameRows(before, dead);
      TameEvolves(before, dead);
      PopKeeps(world, active, q);
      EndKeeps(world, active - {q}, q, Failed);
      EndEvolves(world, q, Failed);
      world := SetStatus(world, q, Failed);
      active := active - {q};
      EvolvesTransitive(before, dead, world);
      SamePhases(dead, world, q);
      OtherRows(before, dead, q, Failed);
      SameChildren(before, dead, q, Failed);
    }

    /**
     `_enforce_timeouts`. It writes without a second reading, so an ended row changes when
     its process outlived its own write past the deadline. With no interference, exactly
     the overdue jobs are failed, ended or not, and no other row changes.
     */
    method EnforceTimeouts()
      requires Inv(world, active, {})
      modifies this`world, this`script, this`active
      ensures Inv(world, active, {}) && Evolves(old(world), world) && ChildrenStep(old(world), world)
      ensures active.Keys <= old(active).Keys && forall q | q in active :: active[q] == old(active)[q]
      ensures forall q | q in old(active) && q !in active ::
                Settled(world, q) && q in world.jobs && world.jobs[q].status.Failed?
      ensures forall q | q in active :: InTime(world, active, q, old(world).clock, jobTimeout)
      ensures forall id | id in old(world).jobs && Terminal(old(world).jobs[id].status) ::
                id in world.jobs
                && (world.jobs[id] == old(world).jobs[id] || Overrun(world, old(active), active, id, jobTimeout))
      ensures old(script) == [] ==>
                script == [] && SameFor(old(world), world, active) && TimedQuietly(old(world), old(active), world, active, {}, jobTimeout)
    {
      hide Inv, Tame, Evolves, EndsKept, Settled, RowTame, InTime, Overrun, ChildrenStep, SameFor, TimedQuietly, TimeoutsSoFar;
      ghost var start, first := world, active;
      ActiveHaveChildren(start, first, {});
      Interfere({});
      TameEvolves(start, world);
      TameRows(start, world);
      var now := world.clock;
      ClockForward(start, world);
      TimeoutsStart(start, world, first, now, jobTimeout);
      SameForRefl(start, first);
      TimedStart(start, first, jobTimeout);
      var left: set<int> := active.Keys;
      while left != {}
        invariant Inv(world, active, {}) && Evolves(start, world) && ChildrenStep(start, world)
        invariant start.clock <= now <= world.clock
        invariant left <= active.Keys <= first.Keys
        invariant forall q | q in active :: active[q] == first[q]
        invariant TimeoutsSoFar(start, first, world, active, left, now, jobTimeout)
        invariant old(script) == [] ==>
                    && script == [] && now == start.clock && SameFor(start, world, active)
                    && TimedQuietly(start, first, world, active, left, jobTimeout)
        decreases |left|
      {
        Nonempty(left);
        var q :| q in left;
        ghost var before, held, todo := world, active, left;
        left := left - {q};
        TimeoutOne(q, now);
        TimeoutsStep(start, first, before, held, todo, world, active, q, now, jobTimeout);
        ClockForward(before, world);
        EvolvesTransitive(start, before, world);
        ChildrenStepTransitive(start, before, world);
        if old(script) == [] {
          TimeQuietly(start, first, before, held, world, active, todo, q, jobTimeout);
        }
      }
      TimeoutsEnd(start, first, world, active, now, jobTimeout);
    }

    /**
     `_try_claim_and_spawn`, with `claim_next` inside: the claim is one step, and `at` is the
     world it was made in. No queued job should have run before the claimed one.
     */
    method TryClaimAndSpawn() returns (claimed: bool, ghost at: World)
      requires Inv(world, active, {})
      modifies this`world, this`script, this`active
      ensures Inv(world, active, {}) && Evolves(old(world), world) && EndsKept(old(world), world)
      ensures Tame(old(world), at) && Evolves(at, world)
      ensures !claimed ==>
                && world == at && active == old(active)
                && forall id | id in world.jobs :: !world.jobs[id].status.Queued?
      ensures claimed ==>
                exists q :: q !in old(active) && active.Keys == old(active).Keys + {q} && NextInLine(at, q)
                            && Started(old(world), world, active, q)
                            && (old(script) == [] ==> ClaimsQuietly(old(world), old(active), world, active, q))
      ensures forall q | q in old(active) :: q in active && active[q] == old(active)[q]
      ensures forall pid | pid in old(world).children :: pid in world.children && world.children[pid].qid == old(world).children[pid].qid
      ensures old(script) == [] ==>
                && script == []
                && forall pid | pid in old(world).children :: pid in world.children && world.children[pid] == old(world).children[pid]
    {
      hide Inv, Tame, Evolves, EndsKept, ListByStatus, InRunOrder, OrderOk, NoProcess, WroteMeanwhile;
      Interfere({});
      at := world;
      TameEvolves(old(world), world);
      var rows := InRunOrder(ListByStatus(world, Queued));
      RowsAreOrdered(world, active);
      HeadIsNext(world, Queued);
      ChildrenLast(old(world), at);
      TameRefl(at);
      TameEvolves(at, at);
      if rows == [] {
        return false, at;
      }
      var q := rows[0].id;
      ClaimKeeps(world, active, q);
      world := SetStatus(world, q, Running);
      ghost var claim := world;
      EvolvesTransitive(old(world), at, claim);
      NextPidFree(world, active, {q});
      Interfere({q});
      TameEvolves(claim, world);
      NoProcessStays(claim, world, q);
      StillCalledFor(claim, world, q);
      NextPidFree(world, active, {q});
      ghost var started := world;
      EvolvesTransitive(old(world), claim, started);
      SpawnKeeps(world, active, q);
      var pid := world.nextPid;
      world := Spawned(world, q);
      active := active[q := Entry(pid, world.clock)];
      EvolvesTransitive(old(world), started, world);
      EvolvesTransitive(at, claim, started);
      EvolvesTransitive(at, started, world);
      ClockForward(old(world), world);
      ChildrenLast(old(world), started);
      assert Started(old(world), world, active, q);
      claimed := true;
    }

    /** The last part of a tick that began at `start`: claims until the capacity is full or nothing waits. */
    method FillCapacity(ghost start: World, ghost held: Active)
      requires Inv(world, active, {}) && Evolves(start, world) && TickDone(start, held, world, active, jobTimeout)
      requires forall q | q in held :: q in start.jobs && !start.jobs[q].status.Queued?
      modifies this`world, this`script, this`active
      ensures Inv(world, active, {}) && Evolves(start, world) && TickDone(start, held, world, active, jobTimeout)
      ensures |old(active)| <= maxConcurrent ==> |active| <= maxConcurrent
      ensures running ==> |active| >= maxConcurrent || forall id | id in world.jobs :: !world.jobs[id].status.Queued?
      ensures old(script) == [] && AllAlive(old(world), old(active)) ==> script == [] && AllAlive(world, active)
    {
      hide Inv, Tame, Evolves, EndsKept, TickDone, NextInLine, AllAlive, Started;
      while running && |active| < maxConcurrent
        invariant Inv(world, active, {}) && Evolves(start, world)
        invariant |old(active)| <= maxConcurrent ==> |active| <= maxConcurrent
        invariant TickDone(start, held, world, active, jobTimeout)
        invariant old(script) == [] && AllAlive(old(world), old(active)) ==> script == [] && AllAlive(world, active)
        decreases maxConcurrent - |active|
      {
        ghost var before, was := world, active;
        var claimed, at := TryClaimAndSpawn();
        TameEvolves(before, at);
        EvolvesTransitive(start, before, at);
        EvolvesTransitive(start, before, world);
        NewcomerIsNew(start, at, held);
        ClaimKeepsTick(start, held, before, was, at, world, active, claimed, jobTimeout);
        ClaimKeepsAlive(before, was, world, active, claimed);
        if !claimed {
          break;
        }
      }
    }

    /** `tick`: reap, honour cancels, enforce timeouts, fill capacity. */
    method Tick()
      requires Inv(world, active, {})
      modifies this`world, this`script, this`active
      ensures Inv(world, active, {}) && Evolves(old(world), world)
      ensures |old(active)| <= maxConcurrent ==> |active| <= maxConcurrent
      ensures running ==> |active| >= maxConcurrent || forall id | id in world.jobs :: !world.jobs[id].status.Queued?
      ensures TickDone(old(world), old(active), world, active, jobTimeout)
      ensures old(script) == [] ==> script == [] && AllAlive(world, active)
    {
      hide Inv, Tame, Evolves, EndsKept, Settled, InTime, Overrun, TickDone, ChildrenStep, Marked, HasExited;
      hide ReapedQuietly, CancelWritten, CancelRun, TimedQuietly, SameFor, AllAlive;
      ghost var start, held := world, active;
      ActiveHaveChildren(world, active, {});
      ReapChildren();
      ghost var reaped, left := world, active;
      ActiveHaveChildren(reaped, left, {});
      ghost var listed, over := EnforceCancels();
      ghost var cancelled, kept := world, active;
      EvolvesTransitive(start, reaped, cancelled);
      EnforceTimeouts();
      EvolvesTransitive(start, cancelled, world);
      FewerActive(active, held);
      ExitedGone(start, held, reaped, left, active);
      DroppedEnded(held, reaped, left, cancelled, kept, listed, world, active);
      TickTimedOut(start, held, reaped, cancelled, kept, world, active, jobTimeout);
      if old(script) == [] {
        QuietAlive(start, held, reaped, left, cancelled, kept, world, active);
      }
      FillCapacity(start, held);
    }

    /**
     `recover_stale`, before the loop owns any child: every row left RUNNING by a loop that
     died is failed.
     */
    method RecoverStale() returns (recovered: nat)
      requires active == map[] && Inv(world, active, RunningJobs(world)) && NoneAlive(world)
      modifies this`world, this`script
      ensures Inv(world, active, {}) && Evolves(old(world), world) && EndsKept(old(world), world)
      ensures forall id | id in old(world).jobs && old(world).jobs[id].status.Running? ::
                id in world.jobs && world.jobs[id].status.Failed?
      ensures recovered == |RunningJobs(old(world))|
      ensures old(script) == [] ==> script == [] && RecoveredQuietly(old(world), world, {})
    {
      hide Inv, RecoveredQuietly, Tame, Evolves, EndsKept, RowTame, ListByStatus, DistinctJobs, OrderOk, NoneAlive, RunningJobs;
      ghost var start := world;
      InvOrder(world, active, RunningJobs(world));
      ListExact(world, Running);
      var rows := ListByStatus(world, Running);
      RunningListed(world, rows);
      TameRefl(start);
      TameEvolves(start, start);
      IdsCounted(rows, 0);
      QuietFromStart(start, rows);
      for i := 0 to |rows|
        invariant Inv(world, active, IdsFrom(rows, i)) && NoneAlive(world)
        invariant Evolves(start, world) && EndsKept(start, world)
        invariant old(script) == [] ==> script == [] && RecoveredQuietly(start, world, IdsFrom(rows, i))
        invariant forall j | 0 <= j < i :: rows[j].id in world.jobs && world.jobs[rows[j].id].status.Failed?
        invariant forall j | i <= j < |rows| :: rows[j].id in world.jobs && Stale(world.jobs[rows[j].id].status)
      {
        ghost var before := world;
        Interfere(IdsFrom(rows, i));
        ghost var read := world;
        TameEvolves(before, read);
        TameRows(before, read);
        EvolvesTransitive(start, before, read);
        TameKeys(before, read);
        NoneAliveStays(before, read);
        StaleStays(before, read, rows, i);
        RecoverOne(read, rows, i);
        if old(script) == [] {
          RecoverQuietly(start, read, rows, i);
        }
        world := SetStatus(world, rows[i].id, Failed);
        EvolvesTransitive(start, read, world);
        StaleAdvance(read, world, rows, i);
      }
      assert IdsFrom(rows, |rows|) == {};
      AllRecovered(start, world, rows);
      return |rows|;
    }

    /**
     A run of the loop: recovery, then ticks until it is stopped. `trace` is the world and
     the active jobs after recovery, with none active yet, and after every tick.
     */
    method Run(ticks: nat) returns (ghost trace: seq<(World, Active)>)
      requires active == map[] && Inv(world, active, RunningJobs(world)) && NoneAlive(world) && maxConcurrent >= 0
      modifies this`world, this`script, this`active, this`running
      ensures Inv(world, active, {}) && Evolves(old(world), world)
      ensures |active| <= maxConcurrent
      ensures |trace| == ticks + 1 && trace[ticks] == (world, active) && IsTrace(trace, maxConcurrent, jobTimeout)
      ensures Recovered(old(world), trace[0].0) && trace[0].1 == map[]
    {
      hide Inv, Tame, Evolves, EndsKept, NoneAlive, RunningJobs, TickDone, TickOf, Recovered;
      running := true;
      ghost var start := world;
      var _ := RecoverStale();
      trace := [(world, active)];
      ghost var first := world;
      RecoveredIs(start, first);
      for k := 0 to ticks
        invariant Inv(world, active, {}) && Evolves(start, world) && |active| <= maxConcurrent && running
        invariant |trace| == k + 1 && trace[k] == (world, active) && IsTrace(trace, maxConcurrent, jobTimeout)
        invariant trace[0] == (first, map[])
      {
        ghost var before, held := world, active;
        Tick();
        EvolvesTransitive(start, before, world);
        assert TickOf(before, held, world, active, maxConcurrent, jobTimeout) by {
          TickIs(before, held, world, active, maxConcurrent, jobTimeout);
        }
        trace := trace + [(world, active)];
      }
      running := false;
    }
  }

  /**
   The timeout step can replace a COMPLETED row by FAILED: a process that has written its
   row and is still exiting when the deadline passes is killed like any other.
   */
  method TimeoutCanReplaceCompleted() returns (before: World, after: World)
    ensures Inv(before, map[1 := Entry(0, 0)], {})
    ensures 1 in before.jobs && before.jobs[1].status.Completed?
    ensures 1 in after.jobs && after.jobs[1].status.Failed?
  {
    before := World(map[1 := Row(Completed, 1, 50)], [1], map[0 := Child(1, Wrote)], 1, 100);
    var loop := new Loop(1, 60, before, []);
    loop.active := map[1 := Entry(0, 0)];
    loop.EnforceTimeouts();
    after := loop.world;
    assert !InTime(before, map[1 := Entry(0, 0)], 1, 100, 60);
  }

  /**
   The cancel step can replace a COMPLETED row by CANCELLED: the row was listed as
   CANCEL_REQUESTED, and its child wrote before it was stopped.
   */
  method CancelCanReplaceCompleted() returns (listed: World, before: World, after: World)
    ensures Inv(listed, map[1 := Entry(0, 0)], {})
    ensures Job(1, listed.jobs[1]) in ListByStatus(listed, CancelRequested)
    ensures before == Apply(listed, Write(0, true))
    ensures 1 in before.jobs && before.jobs[1].status.Completed?
    ensures 1 in after.jobs && after.jobs[1].status.Cancelled?
  {
    listed := World(map[1 := Row(CancelRequested, 1, 50)], [1], map[0 := Child(1, Working)], 1, 100);
    before := Apply(listed, Write(0, true));
    ListExact(listed, CancelRequested);
    WriteKeeps(listed, 0, true, map[1 := Entry(0, 0)], {});
    var loop := new Loop(1, 60, before, []);
    loop.active := map[1 := Entry(0, 0)];
    ghost var over := loop.CancelOne(1);
    after := loop.world;
  }

  // ── progress over ticks ────────────────────────────────────────────────

  /** A job that was active and is not any more never is again, and stays ended. */
  lemma {:induction false} GoneForGood(trace: seq<(World, Active)>, maxConcurrent: int, timeout: int, k: nat, j: nat, q: int)
    requires IsTrace(trace, maxConcurrent, timeout) && k <= j < |trace|
    requires q in trace[k].0.jobs && Terminal(trace[k].0.jobs[q].status) && q !in trace[k].1
    ensures q in trace[j].0.jobs && Terminal(trace[j].0.jobs[q].status) && q !in trace[j].1
    decreases j - k
  {
    hide *;
    if k < j {
      TickAt(trace, maxConcurrent, timeout, k);
      TickKeepsGone(trace[k].0, trace[k].1, trace[k + 1].0, trace[k + 1].1, maxConcurrent, timeout, q);
      GoneForGood(trace, maxConcurrent, timeout, k + 1, j, q);
    }
  }

  lemma TickKeepsGone(w: World, held: Active, w': World, active: Active, maxConcurrent: int, timeout: int, q: int)
    requires TickOf(w, held, w', active, maxConcurrent, timeout)
    requires q in w.jobs && Terminal(w.jobs[q].status) && q !in held
    ensures q in w'.jobs && Terminal(w'.jobs[q].status) && q !in active
  {
    hide Inv, NotOvertaken;
    assert RowEvolves(w.jobs[q], w'.jobs[q]);
    assert q in active ==> Newcomer(w, w', active, q);
  }

  /** The tick from `k`, as a fact of its own. */
  lemma TickAt(trace: seq<(World, Active)>, maxConcurrent: int, timeout: int, k: nat)
    requires IsTrace(trace, maxConcurrent, timeout) && k + 1 < |trace|
    ensures TickOf(trace[k].0, trace[k].1, trace[k + 1].0, trace[k + 1].1, maxConcurrent, timeout)
  {
    hide TickOf;
  }

  /** A job that has exited is gone after a tick, and one that is gone has ended. */
  lemma TickDrops(w: World, held: Active, w': World, active: Active, maxConcurrent: int, timeout: int, q: int)
    requires TickOf(w, held, w', active, maxConcurrent, timeout) && q in held
    ensures HasExited(w, held, q) ==> q !in active
    ensures q !in active ==> q in w'.jobs && Terminal(w'.jobs[q].status)
    ensures q in active && w.clock - held[q].start >= timeout ==> HasExited(w', active, q)
  {
    hide Inv, Evolves, Newcomer;
    assert q in active ==> InTime(w', active, q, w.clock, timeout);
  }

  /** A child that has exited by one tick boundary is gone by the next, and its job has ended. */
  lemma ExitedLeaves(trace: seq<(World, Active)>, maxConcurrent: int, timeout: int, k: nat, j: nat, q: int)
    requires IsTrace(trace, maxConcurrent, timeout) && k < j < |trace|
    requires q in trace[k].1 && HasExited(trace[k].0, trace[k].1, q)
    ensures q !in trace[j].1 && q in trace[j].0.jobs && Terminal(trace[j].0.jobs[q].status)
  {
    hide *;
    TickAt(trace, maxConcurrent, timeout, k);
    TickDrops(trace[k].0, trace[k].1, trace[k + 1].0, trace[k + 1].1, maxConcurrent, timeout, q);
    GoneForGood(trace, maxConcurrent, timeout, k + 1, j, q);
  }

  /**
   A job whose time is up at a tick boundary has ended and left two ticks later: the first
   ends it, unless its child exits by itself during that tick, and then the second drops it.
   */
  lemma OverdueLeaves(trace: seq<(World, Active)>, maxConcurrent: int, timeout: int, k: nat, j: nat, q: int)
    requires IsTrace(trace, maxConcurrent, timeout) && k + 2 <= j < |trace|
    requires q in trace[k].1 && trace[k].0.clock - trace[k].1[q].start >= timeout
    ensures q !in trace[j].1 && q in trace[j].0.jobs && Terminal(trace[j].0.jobs[q].status)
  {
    hide *;
    TickAt(trace, maxConcurrent, timeout, k);
    TickDrops(trace[k].0, trace[k].1, trace[k + 1].0, trace[k + 1].1, maxConcurrent, timeout, q);
    if q in trace[k + 1].1 {
      ExitedLeaves(trace, maxConcurrent, timeout, k + 1, j, q);
    } else {
      GoneForGood(trace, maxConcurrent, timeout, k + 1, j, q);
    }
  }

  /** A waiting job's row has not changed, and a job that neither waits nor is active is never claimed. */
  lemma TickWaits(w: World, held: Active, w': World, active: Active, maxConcurrent: int, timeout: int, q: int)
    requires TickOf(w, held, w', active, maxConcurrent, timeout) && q in w.jobs
    ensures q in w'.jobs && (w'.jobs[q].status.Queued? ==> w'.jobs[q] == w.jobs[q])
    ensures w.jobs[q].status.Queued? ==> q !in held
    ensures !w.jobs[q].status.Queued? && q !in held ==> q !in active
    ensures q in active && q !in held ==> NotOvertaken(w, w', w.jobs[q])
  {
    hide NotOvertaken;
    assert RowEvolves(w.jobs[q], w'.jobs[q]) && JobOk(w, held, {}, q);
    assert q in active && q !in held ==> Newcomer(w, w', active, q);
  }

  lemma {:induction false} WaitedSince(trace: seq<(World, Active)>, maxConcurrent: int, timeout: int, k: nat, j: nat, id: int)
    requires IsTrace(trace, maxConcurrent, timeout) && k <= j < |trace| && id in trace[k].0.jobs
    ensures id in trace[j].0.jobs
    ensures trace[j].0.jobs[id].status.Queued? ==> trace[j].0.jobs[id] == trace[k].0.jobs[id]
    decreases j - k
  {
    hide *;
    if k < j {
      TickAt(trace, maxConcurrent, timeout, k);
      TickWaits(trace[k].0, trace[k].1, trace[k + 1].0, trace[k + 1].1, maxConcurrent, timeout, id);
      WaitedSince(trace, maxConcurrent, timeout, k + 1, j, id);
    }
  }

  lemma {:induction false} NeverClaimed(trace: seq<(World, Active)>, maxConcurrent: int, timeout: int, k: nat, j: nat, q: int)
    requires IsTrace(trace, maxConcurrent, timeout) && k <= j < |trace|
    requires q in trace[k].0.jobs && !trace[k].0.jobs[q].status.Queued? && q !in trace[k].1
    ensures q !in trace[j].1
    decreases j - k
  {
    hide *;
    if k < j {
      TickAt(trace, maxConcurrent, timeout, k);
      TickWaits(trace[k].0, trace[k].1, trace[k + 1].0, trace[k + 1].1, maxConcurrent, timeout, q);
      NotBackInLine(trace[k].0, trace[k].1, trace[k + 1].0, trace[k + 1].1, maxConcurrent, timeout, q);
      NeverClaimed(trace, maxConcurrent, timeout, k + 1, j, q);
    }
  }

  lemma NotBackInLine(w: World, held: Active, w': World, active: Active, maxConcurrent: int, timeout: int, q: int)
    requires TickOf(w, held, w', active, maxConcurrent, timeout) && q in w.jobs && !w.jobs[q].status.Queued?
    ensures q in w'.jobs && !w'.jobs[q].status.Queued?
  {
    assert RowEvolves(w.jobs[q], w'.jobs[q]);
  }

  /**
   No overtaking, over any number of ticks: of two jobs that wait together, the one that
   should run first is not still waiting when the other is active.
   */
  lemma {:induction false} NoOvertaking(trace: seq<(World, Active)>, maxConcurrent: int, timeout: int, k: nat, j: nat, first: int, second: int)
    requires IsTrace(trace, maxConcurrent, timeout) && k <= j < |trace|
    requires first in trace[k].0.jobs && second in trace[k].0.jobs && !InTurn(trace[k].0.jobs[second], trace[k].0.jobs[first])
    requires trace[k].0.jobs[first].status.Queued? && trace[k].0.jobs[second].status.Queued?
    requires second in trace[j].1 && second !in trace[k].1
    ensures first in trace[j].0.jobs && !trace[j].0.jobs[first].status.Queued?
    decreases j - k
  {
    hide *;
    WaitedSince(trace, maxConcurrent, timeout, k, j, first);
    if k < j {
      var w, held, w', active := trace[k].0, trace[k].1, trace[k + 1].0, trace[k + 1].1;
      TickAt(trace, maxConcurrent, timeout, k);
      TickWaits(w, held, w', active, maxConcurrent, timeout, first);
      TickWaits(w, held, w', active, maxConcurrent, timeout, second);
      if !w'.jobs[first].status.Queued? {
        StillOutOfLine(trace, maxConcurrent, timeout, k + 1, j, first);
      } else if second in active {
        Overtaken(w, w', first, w.jobs[second]);
      } else if w'.jobs[second].status.Queued? {
        NoOvertaking(trace, maxConcurrent, timeout, k + 1, j, first, second);
      } else {
        NeverClaimed(trace, maxConcurrent, timeout, k + 1, j, second);
      }
    }
  }

  lemma Overtaken(w: World, w': World, id: int, row: Row)
    requires id in w.jobs && id in w'.jobs && NotOvertaken(w, w', row) && !InTurn(row, w.jobs[id]) && w.jobs[id].status.Queued?
    ensures !w'.jobs[id].status.Queued?
  {
    hide InTurn;
  }

  lemma {:induction false} StillOutOfLine(trace: seq<(World, Active)>, maxConcurrent: int, timeout: int, k: nat, j: nat, id: int)
    requires IsTrace(trace, maxConcurrent, timeout) && k <= j < |trace|
    requires id in trace[k].0.jobs && !trace[k].0.jobs[id].status.Queued?
    ensures id in trace[j].0.jobs && !trace[j].0.jobs[id].status.Queued?
    decreases j - k
  {
    hide *;
    if k < j {
      TickAt(trace, maxConcurrent, timeout, k);
      NotBackInLine(trace[k].0, trace[k].1, trace[k + 1].0, trace[k + 1].1, maxConcurrent, timeout, id);
      StillOutOfLine(trace, maxConcurrent, timeout, k + 1, j, id);
    }
  }
}
