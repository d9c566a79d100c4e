/**
 What each step of the worker loop does to the queue, and why it keeps the invariant.
 */
module LoopSteps {
  import opened QueueWorld
  import opened RunOrder

  /** What any stretch of a run does to the rows and processes there were. */
  ghost predicate Evolves(w: World, w': World) {
    && w.clock <= w'.clock
    && (forall id | id in w.jobs :: id in w'.jobs && RowEvolves(w.jobs[id], w'.jobs[id]))
    && (forall pid | pid in w.children ::
          && pid in w'.children && w'.children[pid].qid == w.children[pid].qid
          && PhaseStep(w.children[pid].phase, w'.children[pid].phase))
  }

  /** An ended job stays ended, a cancelled one cancelled, and a requested cancel is only ever settled. */
  ghost predicate RowEvolves(before: Row, after: Row) {
    && after.priority == before.priority
    && (Terminal(before.status) ==> Terminal(after.status))
    && (before.status.Cancelled? ==> after == before)
    && (before.status.CancelRequested? ==> after.status.CancelRequested? || Terminal(after.status))
    && (!before.status.Queued? ==> !after.status.Queued?)
    && (after.status.Queued? ==> after == before)
    && (after.status.Running? ==> after == before || before.status.Queued?)
  }

  /** No ended job's row is touched. */
  ghost predicate EndsKept(w: World, w': World) {
    forall id | id in w.jobs && Terminal(w.jobs[id].status) :: id in w'.jobs && w'.jobs[id] == w.jobs[id]
  }

  lemma EvolvesTransitive(a: World, b: World, c: World)
    requires Evolves(a, b) && Evolves(b, c)
    ensures Evolves(a, c)
    ensures EndsKept(a, b) && EndsKept(b, c) ==> EndsKept(a, c)
  {
    forall id | id in a.jobs
      ensures id in c.jobs && RowEvolves(a.jobs[id], c.jobs[id])
    {
      assert RowEvolves(a.jobs[id], b.jobs[id]) && RowEvolves(b.jobs[id], c.jobs[id]);
    }
    forall pid | pid in a.children
      ensures pid in c.children && PhaseStep(a.children[pid].phase, c.children[pid].phase)
    {
      assert PhaseStep(b.children[pid].phase, c.children[pid].phase);
    }
  }

  lemma TameEvolves(w: World, w': World)
    requires Tame(w, w')
    ensures Evolves(w, w') && EndsKept(w, w')
  {
    hide WroteMeanwhile;
    forall id | id in w.jobs
      ensures id in w'.jobs && RowEvolves(w.jobs[id], w'.jobs[id])
      ensures Terminal(w.jobs[id].status) ==> w'.jobs[id] == w.jobs[id]
    {
      assert RowStep(w.jobs[id], w'.jobs[id], WroteMeanwhile(w, w', id));
    }
  }

  // ── the loop's own steps keep the invariant ────────────────────────────

  ghost predicate NoProcess(w: World, q: int) {
    forall pid | Alive(w, pid) :: w.children[pid].qid != q
  }

  lemma NoProcessStays(w: World, w': World, q: int)
    requires NoProcess(w, q) && Tame(w, w')
    ensures NoProcess(w', q)
  {
    forall pid | Alive(w', pid)
      ensures w'.children[pid].qid != q
    {
      assert PhaseStep(w.children[pid].phase, w'.children[pid].phase);
      assert Alive(w, pid);
    }
  }

  lemma ExitedStays(w: World, w': World, pid: nat)
    requires Evolves(w, w') && pid in w.children && w.children[pid].phase.Exited?
    ensures w'.children[pid].phase == w.children[pid].phase
  {
    assert PhaseStep(w.children[pid].phase, w'.children[pid].phase);
  }

  /** A job whose handle shows an exited process has no process at all. */
  lemma ExitedAlone(w: World, active: Active, loose: set<int>, q: int)
    requires Inv(w, active, loose) && q in active && q !in loose && !Alive(w, active[q].pid)
    ensures NoProcess(w, q)
  {
    forall pid | Alive(w, pid)
      ensures w.children[pid].qid != q
    {
      assert ChildOk(w, active, loose, pid);
    }
  }

  lemma ExitedHaveNone(w: World, active: Active)
    requires Inv(w, active, {})
    ensures forall q | q in active && HasExited(w, active, q) :: NoProcess(w, q)
    ensures forall q | q in active :: q in w.jobs && !w.jobs[q].status.Queued?
  {
    forall q | q in active && HasExited(w, active, q)
      ensures NoProcess(w, q)
    {
      ExitedAlone(w, active, {}, q);
    }
    forall q | q in active
      ensures q in w.jobs && !w.jobs[q].status.Queued?
    {
      assert EntryOk(w, active, q);
      assert JobOk(w, active, {}, q);
    }
  }

  lemma NoProcessUnlessActive(w: World, active: Active, q: int)
    requires Inv(w, active, {}) && q !in active
    ensures NoProcess(w, q)
  {
    forall pid | Alive(w, pid)
      ensures w.children[pid].qid != q
    {
      assert ChildOk(w, active, {}, pid);
    }
  }

  /** The loop is done with the job: it has no process, and neither waits nor runs. */
  ghost predicate Settled(w: World, q: int) {
    NoProcess(w, q) && q in w.jobs && !w.jobs[q].status.Running? && !w.jobs[q].status.Queued?
  }

  lemma SettledStays(w: World, w': World, q: int)
    requires Settled(w, q) && Evolves(w, w') && ChildrenStep(w, w')
    ensures Settled(w', q)
  {
    assert RowEvolves(w.jobs[q], w'.jobs[q]);
    forall pid | Alive(w', pid)
      ensures w'.children[pid].qid != q
    {
      assert PhaseStep(w.children[pid].phase, w'.children[pid].phase);
      assert Alive(w, pid);
    }
  }

  lemma SettledAll(w: World, w': World, before: Active, after: Active)
    requires Evolves(w, w') && ChildrenStep(w, w')
    requires forall q | q in before && q !in after :: Settled(w, q)
    ensures forall q | q in before && q !in after :: Settled(w', q)
  {
    forall q | q in before && q !in after
      ensures Settled(w', q)
    {
      SettledStays(w, w', q);
    }
  }

  lemma ActiveHaveChildren(w: World, active: Active, loose: set<int>)
    requires Inv(w, active, loose)
    ensures forall q | q in active ::
              && q in w.jobs && active[q].pid in w.children && w.children[active[q].pid].qid == q
              && !w.jobs[q].status.Queued? && !w.jobs[q].status.Cancelled?
  {
    forall q | q in active
      ensures q in w.jobs && active[q].pid in w.children && w.children[active[q].pid].qid == q
              && !w.jobs[q].status.Queued? && !w.jobs[q].status.Cancelled?
    {
      assert EntryOk(w, active, q);
      assert JobOk(w, active, loose, q);
    }
  }

  /** What the phase of an active job's process says of its row. */
  lemma ActiveRow(w: World, active: Active, q: int)
    requires Inv(w, active, {}) && q in active
    ensures q in w.jobs && active[q].pid in w.children
    ensures w.children[active[q].pid].phase.Exited? && w.children[active[q].pid].phase.code == 0 ==> Terminal(w.jobs[q].status)
  {
    assert EntryOk(w, active, q) && ChildOk(w, active, {}, active[q].pid);
  }

  lemma Nonempty(s: set<int>)
    ensures s == {} || exists q :: q in s
  {
    if forall q :: q !in s {
      assert s == {};
    }
  }

  lemma PopKeeps(w: World, active: Active, q: int)
    requires Inv(w, active, {}) && q in active
    ensures Inv(w, active - {q}, {q})
    ensures q in w.jobs && active[q].pid in w.children && w.children[active[q].pid].qid == q
    ensures forall pid | Alive(w, pid) && w.children[pid].qid == q :: pid == active[q].pid
  {
    var active' := active - {q};
    assert EntryOk(w, active, q);
    forall id | id in w.jobs
      ensures JobOk(w, active', {q}, id)
    {
      assert JobOk(w, active, {}, id);
    }
    forall a | a in active'
      ensures EntryOk(w, active', a)
    {
      assert EntryOk(w, active, a);
    }
    forall pid | pid in w.children
      ensures ChildOk(w, active', {q}, pid)
      ensures Alive(w, pid) && w.children[pid].qid == q ==> pid == active[q].pid
    {
      assert ChildOk(w, active, {}, pid);
    }
  }

  /** A job with no process, and not running, needs no more attention. */
  lemma SettleKeeps(w: World, active: Active, q: int)
    requires Inv(w, active, {q}) && NoProcess(w, q)
    requires q in w.jobs ==> !w.jobs[q].status.Running?
    ensures Inv(w, active, {})
  {
    forall id | id in w.jobs
      ensures JobOk(w, active, {}, id)
    {
      assert JobOk(w, active, {q}, id);
    }
    forall pid | pid in w.children
      ensures ChildOk(w, active, {}, pid)
    {
      assert ChildOk(w, active, {q}, pid);
      assert Alive(w, pid) ==> w.children[pid].qid != q;
    }
  }

  lemma NotWorkingWithout(w: World, q: int)
    requires NoProcess(w, q)
    ensures !HasWorking(w, q)
  {
    forall pid | pid in w.children && w.children[pid].qid == q
      ensures !w.children[pid].phase.Working?
    {
      assert !Alive(w, pid);
    }
  }

  /** The loop ends a job that has no process left. */
  lemma EndKeeps(w: World, active: Active, q: int, s: Status)
    requires Inv(w, active, {q}) && NoProcess(w, q) && q in w.jobs && Terminal(s) && q !in active
    ensures Inv(SetStatus(w, q, s), active, {})
  {
    NotWorkingWithout(w, q);
    SetStatusKeeps(w, q, s, active, {q});
    assert NoProcess(SetStatus(w, q, s), q) by {
      assert forall pid :: Alive(SetStatus(w, q, s), pid) <==> Alive(w, pid);
    }
    SettleKeeps(SetStatus(w, q, s), active, q);
  }

  lemma EndEvolves(w: World, q: int, s: Status)
    requires q in w.jobs && Terminal(s) && !w.jobs[q].status.Cancelled?
    ensures Evolves(w, SetStatus(w, q, s))
    ensures !Terminal(w.jobs[q].status) ==> EndsKept(w, SetStatus(w, q, s))
  {
  }


  /** What one tick guarantees of the worlds around it. */
  ghost predicate TickOf(w: World, held: Active, w': World, active: Active, maxConcurrent: int, timeout: int) {
    && Inv(w, held, {}) && Inv(w', active, {}) && Evolves(w, w') && TickDone(w, held, w', active, timeout)
    && (|active| >= maxConcurrent || forall id | id in w'.jobs :: !w'.jobs[id].status.Queued?)
  }

  lemma TickIs(w: World, held: Active, w': World, active: Active, maxConcurrent: int, timeout: int)
    requires Inv(w, held, {}) && Inv(w', active, {}) && Evolves(w, w') && TickDone(w, held, w', active, timeout)
    requires |active| >= maxConcurrent || forall id | id in w'.jobs :: !w'.jobs[id].status.Queued?
    ensures TickOf(w, held, w', active, maxConcurrent, timeout)
  {
  }

  ghost predicate IsTrace(trace: seq<(World, Active)>, maxConcurrent: int, timeout: int) {
    forall k | 0 <= k < |trace| - 1 ::
      TickOf(trace[k].0, trace[k].1, trace[k + 1].0, trace[k + 1].1, maxConcurrent, timeout)
  }

  /** What recovery leaves: every row that was RUNNING has failed, and no row that had ended is touched. */
  ghost predicate Recovered(start: World, w: World) {
    && Evolves(start, w) && EndsKept(start, w)
    && forall id | id in start.jobs && start.jobs[id].status.Running? :: id in w.jobs && w.jobs[id].status.Failed?
  }

  lemma RecoveredIs(start: World, w: World)
    requires Evolves(start, w) && EndsKept(start, w)
    requires forall id | id in start.jobs && start.jobs[id].status.Running? :: id in w.jobs && w.jobs[id].status.Failed?
    ensures Recovered(start, w)
  {
  }

  /** With no interference, exactly the RUNNING rows outside `left` have been failed. */
  ghost predicate RecoveredQuietly(start: World, w: World, left: set<int>) {
    && w.clock == start.clock && w.jobs.Keys == start.jobs.Keys
    && forall id | id in start.jobs ::
         w.jobs[id] == if start.jobs[id].status.Running? && id !in left
                       then start.jobs[id].(status := Failed, since := start.clock) else start.jobs[id]
  }

  lemma QuietFromStart(start: World, rows: seq<Job>)
    requires forall j: Job :: j in rows <==> j.id in start.jobs && start.jobs[j.id] == j.row && j.row.status == Running
    ensures RecoveredQuietly(start, start, IdsFrom(rows, 0))
  {
    RunningListed(start, rows);
  }

  lemma RecoverQuietly(start: World, w: World, rows: seq<Job>, i: nat)
    requires i < |rows| && DistinctJobs(rows) && RecoveredQuietly(start, w, IdsFrom(rows, i))
    requires rows[i].id in start.jobs && start.jobs[rows[i].id].status.Running?
    ensures rows[i].id in w.jobs && RecoveredQuietly(start, SetStatus(w, rows[i].id, Failed), IdsFrom(rows, i + 1))
  {
    assert IdsFrom(rows, i) == IdsFrom(rows, i + 1) + {rows[i].id};
  }

  lemma {:induction false} IdsCounted(rows: seq<Job>, i: nat)
    requires i <= |rows| && DistinctJobs(rows)
    ensures |IdsFrom(rows, i)| == |rows| - i
    decreases |rows| - i
  {
    if i < |rows| {
      IdsCounted(rows, i + 1);
      assert IdsFrom(rows, i) == IdsFrom(rows, i + 1) + {rows[i].id};
    }
  }

  ghost predicate NoneAlive(w: World) {
    forall pid | pid in w.children :: w.children[pid].phase.Exited?
  }

  ghost function RunningJobs(w: World): set<int> {
    set id | id in w.jobs && w.jobs[id].status.Running?
  }

  ghost function IdsFrom(rows: seq<Job>, i: nat): set<int>
    requires i <= |rows|
  {
    set j | i <= j < |rows| :: rows[j].id
  }

  /** What a row left RUNNING can become before recovery comes to it. */
  predicate Stale(s: Status) {
    s.Running? || s.CancelRequested?
  }

  lemma InvOrder(w: World, active: Active, loose: set<int>)
    requires Inv(w, active, loose)
    ensures OrderOk(w)
  {
  }

  lemma RunningListed(w: World, rows: seq<Job>)
    requires forall j: Job :: j in rows <==> j.id in w.jobs && w.jobs[j.id] == j.row && j.row.status == Running
    ensures IdsFrom(rows, 0) == RunningJobs(w)
    ensures forall j | 0 <= j < |rows| :: rows[j].id in w.jobs && w.jobs[rows[j].id].status.Running?
  {
    forall id | id in RunningJobs(w)
      ensures id in IdsFrom(rows, 0)
    {
      assert Job(id, w.jobs[id]) in rows;
    }
    assert forall j | 0 <= j < |rows| :: rows[j] in rows;
  }

  lemma AllRecovered(w: World, w': World, rows: seq<Job>)
    requires forall j: Job :: j in rows <==> j.id in w.jobs && w.jobs[j.id] == j.row && j.row.status == Running
    requires forall j | 0 <= j < |rows| :: rows[j].id in w'.jobs && w'.jobs[rows[j].id].status.Failed?
    ensures forall id | id in w.jobs && w.jobs[id].status.Running? :: id in w'.jobs && w'.jobs[id].status.Failed?
  {
    forall id | id in w.jobs && w.jobs[id].status.Running?
      ensures id in w'.jobs && w'.jobs[id].status.Failed?
    {
      assert Job(id, w.jobs[id]) in rows;
    }
  }

  lemma NoneAliveStays(w: World, w': World)
    requires NoneAlive(w) && Evolves(w, w') && w'.children.Keys == w.children.Keys
    ensures NoneAlive(w')
  {
    forall pid | pid in w'.children
      ensures w'.children[pid].phase.Exited?
    {
      assert PhaseStep(w.children[pid].phase, w'.children[pid].phase);
    }
  }

  lemma StaleStays(w: World, w': World, rows: seq<Job>, i: nat)
    requires i <= |rows| && NoneAlive(w)
    requires forall id | id in w.jobs :: RowTame(w, w', id)
    requires forall j | 0 <= j < i :: rows[j].id in w.jobs && w.jobs[rows[j].id].status.Failed?
    requires forall j | i <= j < |rows| :: rows[j].id in w.jobs && Stale(w.jobs[rows[j].id].status)
    ensures forall j | 0 <= j < i :: rows[j].id in w'.jobs && w'.jobs[rows[j].id].status.Failed?
    ensures forall j | i <= j < |rows| :: rows[j].id in w'.jobs && Stale(w'.jobs[rows[j].id].status)
  {
    forall j | 0 <= j < |rows|
      ensures rows[j].id in w'.jobs
      ensures if j < i then w'.jobs[rows[j].id].status.Failed? else Stale(w'.jobs[rows[j].id].status)
    {
      assert RowTame(w, w', rows[j].id);
      assert !WroteMeanwhile(w, w', rows[j].id);
    }
  }

  lemma RecoverOne(w: World, rows: seq<Job>, i: nat)
    requires i < |rows| && DistinctJobs(rows) && NoneAlive(w) && rows[i].id in w.jobs
    requires Inv(w, map[], IdsFrom(rows, i)) && Stale(w.jobs[rows[i].id].status)
    ensures var w' := SetStatus(w, rows[i].id, Failed);
            && Inv(w', map[], IdsFrom(rows, i + 1)) && NoneAlive(w')
            && Evolves(w, w') && EndsKept(w, w')
  {
    var q := rows[i].id;
    var w' := SetStatus(w, q, Failed);
    var loose, rest := IdsFrom(rows, i), IdsFrom(rows, i + 1);
    assert loose == rest + {q};
    SetStatusKeeps(w, q, Failed, map[], loose);
    forall id | id in w'.jobs
      ensures JobOk(w', map[], rest, id)
    {
      assert JobOk(w', map[], loose, id);
    }
    forall pid | pid in w'.children
      ensures ChildOk(w', map[], rest, pid)
    {
      assert ChildOk(w', map[], loose, pid);
    }
  }

  lemma StaleAdvance(w: World, w': World, rows: seq<Job>, i: nat)
    requires i < |rows| && DistinctJobs(rows) && rows[i].id in w.jobs
    requires w' == SetStatus(w, rows[i].id, Failed)
    requires forall j | 0 <= j < i :: rows[j].id in w.jobs && w.jobs[rows[j].id].status.Failed?
    requires forall j | i <= j < |rows| :: rows[j].id in w.jobs && Stale(w.jobs[rows[j].id].status)
    ensures forall j | 0 <= j <= i :: rows[j].id in w'.jobs && w'.jobs[rows[j].id].status.Failed?
    ensures forall j | i < j < |rows| :: rows[j].id in w'.jobs && Stale(w'.jobs[rows[j].id].status)
  {
    assert forall j | 0 <= j < |rows| && j != i :: rows[j].id != rows[i].id;
  }

  lemma FewerActive(a: Active, b: Active)
    requires a.Keys <= b.Keys
    ensures |a| <= |b|
  {
    assert b.Keys == a.Keys + (b.Keys - a.Keys);
    assert |a| == |a.Keys| && |b| == |b.Keys|;
  }

  /** The job was failed for running past its deadline. */
  ghost predicate TimedOut(w: World, before: Active, id: int, timeout: int) {
    id in before && id in w.jobs && w.jobs[id].status.Failed? && w.clock - before[id].start >= timeout
  }

  /**
   What a tick from `start` has done once cancels and timeouts are enforced.
   - Every requested cancel is settled.
   - A job still active is within its time, or its child has exited since the tick began.
   - A job whose child had exited when the tick began is not active, and one that is no
     longer active has ended.
   - A job that is newly active waited when the tick began, has a process of its own, was
     started during the tick, and has overtaken no job that waited all along.
   - A row that had ended is as it was, or its job had run past its deadline.
   */
  ghost predicate TickDone(start: World, held: Active, w: World, active: Active, timeout: int) {
    && (forall id | id in start.jobs && start.jobs[id].status.CancelRequested? :: id in w.jobs && Terminal(w.jobs[id].status))
    && (forall q | q in active && q in held :: active[q] == held[q] && InTime(w, active, q, start.clock, timeout))
    && (forall q | q in held && HasExited(start, held, q) :: q !in active)
    && (forall q | q in held && q !in active :: q in w.jobs && Terminal(w.jobs[q].status))
    && (forall q | q in active && q !in held :: Newcomer(start, w, active, q))
    && (forall id | id in start.jobs && Terminal(start.jobs[id].status) ::
          id in w.jobs && (w.jobs[id] == start.jobs[id] || TimedOut(w, held, id, timeout)))
  }

  ghost predicate Newcomer(start: World, w: World, active: Active, q: int)
    requires q in active
  {
    && (q in start.jobs ==> start.jobs[q].status.Queued? && NotOvertaken(start, w, start.jobs[q]))
    && start.clock <= active[q].start <= w.clock
    && active[q].pid !in start.children && active[q].pid in w.children && w.children[active[q].pid].qid == q
  }

  /** No job that waits in both worlds should have run before the row. */
  ghost predicate NotOvertaken(w: World, w': World, row: Row) {
    forall id | id in w.jobs && w.jobs[id].status.Queued? && id in w'.jobs && w'.jobs[id].status.Queued? :: InTurn(row, w.jobs[id])
  }

  lemma NotOvertakenLater(start: World, w: World, w': World, row: Row)
    requires NotOvertaken(start, w, row) && Evolves(start, w) && Evolves(w, w')
    ensures NotOvertaken(start, w', row)
  {
    hide InTurn;
    assert forall id | id in w.jobs && id in w'.jobs :: RowEvolves(w.jobs[id], w'.jobs[id]);
  }

  lemma ClaimedInTurn(start: World, at: World, w': World, q: int)
    requires Evolves(start, at) && Evolves(at, w') && NextInLine(at, q) && q in start.jobs
    ensures start.jobs[q].status.Queued? && NotOvertaken(start, w', start.jobs[q])
  {
    hide InTurn;
    assert RowEvolves(start.jobs[q], at.jobs[q]);
    forall id | id in start.jobs && id in w'.jobs && w'.jobs[id].status.Queued?
      ensures at.jobs[id].status.Queued? && at.jobs[id] == start.jobs[id]
    {
      assert RowEvolves(start.jobs[id], at.jobs[id]) && RowEvolves(at.jobs[id], w'.jobs[id]);
    }
  }

  /** Every active job's process is alive. */
  ghost predicate AllAlive(w: World, active: Active) {
    forall q | q in active :: Alive(w, active[q].pid)
  }

  lemma ExitedGone(start: World, held: Active, reaped: World, left: Active, active: Active)
    requires active.Keys <= left.Keys
    requires forall q | q in held && HasExited(start, held, q) :: q !in left
    ensures forall q | q in held && HasExited(start, held, q) :: q !in active
  {
  }

  lemma DroppedEnded(held: Active, reaped: World, left: Active, cancelled: World, kept: Active,
                     listed: World, w: World, active: Active)
    requires Evolves(reaped, cancelled) && Evolves(cancelled, w)
    requires active.Keys <= kept.Keys <= left.Keys <= held.Keys
    requires forall q | q in held && q !in left :: Settled(reaped, q)
    requires forall id | id in reaped.jobs && reaped.jobs[id].status.CancelRequested? ::
               id in cancelled.jobs && Terminal(cancelled.jobs[id].status)
    requires forall q | q in left && q !in kept :: q in listed.jobs && listed.jobs[q].status.CancelRequested?
    requires forall id | id in listed.jobs && listed.jobs[id].status.CancelRequested? ::
               id in cancelled.jobs && cancelled.jobs[id].status.Cancelled?
    requires forall q | q in kept && q !in active :: q in w.jobs && w.jobs[q].status.Failed?
    ensures forall q | q in held && q !in active :: q in w.jobs && Terminal(w.jobs[q].status)
  {
    hide NoProcess, WroteMeanwhile;
    forall q | q in held && q !in active
      ensures q in w.jobs && Terminal(w.jobs[q].status)
    {
      if q !in left {
        assert Settled(reaped, q);
        assert RowEvolves(reaped.jobs[q], cancelled.jobs[q]) && RowEvolves(cancelled.jobs[q], w.jobs[q]);
      } else if q !in kept {
        assert RowEvolves(cancelled.jobs[q], w.jobs[q]);
      }
    }
  }

  lemma QuietAlive(start: World, held: Active, reaped: World, left: Active, cancelled: World, kept: Active, w: World, active: Active)
    requires ReapedQuietly(start, held, reaped, left)
    requires SameFor(reaped, cancelled, kept) && SameFor(cancelled, w, active)
    requires active.Keys <= kept.Keys <= left.Keys <= held.Keys
    requires forall q | q in left :: left[q] == held[q]
    requires forall q | q in kept :: kept[q] == left[q]
    requires forall q | q in active :: active[q] == kept[q]
    requires forall q | q in left :: left[q].pid in reaped.children && reaped.children[left[q].pid].qid == q
    ensures AllAlive(w, active)
  {
    forall q | q in active
      ensures Alive(w, active[q].pid)
    {
      assert !HasExited(start, held, q);
      assert cancelled.children[active[q].pid] == reaped.children[active[q].pid];
    }
  }

  lemma TickTimedOut(start: World, held: Active, reaped: World, cancelled: World, kept: Active, w: World, after: Active, timeout: int)
    requires Evolves(start, reaped) && EndsKept(start, reaped) && Evolves(reaped, cancelled) && EndsKept(reaped, cancelled)
    requires Evolves(cancelled, w)
    requires kept.Keys <= held.Keys && forall q | q in kept :: kept[q] == held[q]
    requires after.Keys <= kept.Keys && forall q | q in after :: after[q] == kept[q]
    requires forall id | id in reaped.jobs && reaped.jobs[id].status.CancelRequested? ::
               id in cancelled.jobs && Terminal(cancelled.jobs[id].status)
    requires forall q | q in after :: InTime(w, after, q, cancelled.clock, timeout)
    requires forall id | id in cancelled.jobs && Terminal(cancelled.jobs[id].status) ::
               id in w.jobs && (w.jobs[id] == cancelled.jobs[id] || Overrun(w, kept, after, id, timeout))
    requires forall q | q in held && HasExited(start, held, q) :: q !in after
    requires forall q | q in held && q !in after :: q in w.jobs && Terminal(w.jobs[q].status)
    ensures TickDone(start, held, w, after, timeout)
  {
    forall id | id in start.jobs && start.jobs[id].status.CancelRequested?
      ensures id in w.jobs && Terminal(w.jobs[id].status)
    {
      assert RowEvolves(start.jobs[id], reaped.jobs[id]) && RowEvolves(reaped.jobs[id], cancelled.jobs[id]);
      assert RowEvolves(cancelled.jobs[id], w.jobs[id]);
    }
  }

  /** One more claim, or none, and the tick has still done the same. */
  lemma ClaimKeepsTick(start: World, held: Active, w: World, was: Active, at: World, w': World, after: Active,
                       claimed: bool, timeout: int)
    requires TickDone(start, held, w, was, timeout) && Evolves(start, w) && Evolves(start, at) && Evolves(w, w') && EndsKept(w, w')
    requires Evolves(at, w')
    requires forall q | q in was :: q in after && after[q] == was[q]
    requires forall q | NextInLine(at, q) :: q !in held
    requires !claimed ==> after == was
    requires claimed ==>
               exists q :: q !in was && after.Keys == was.Keys + {q} && NextInLine(at, q) && Started(w, w', after, q)
    ensures TickDone(start, held, w', after, timeout)
  {
    forall id | id in start.jobs && (start.jobs[id].status.CancelRequested? || (id in held && id !in was))
      ensures id in w.jobs ==> id in w'.jobs && RowEvolves(w.jobs[id], w'.jobs[id])
    {
    }
    InTimeStays(w, w', was, was, start.clock, timeout);
    hide NotOvertaken;
    forall q | q in after && q in held
      ensures after[q] == held[q] && InTime(w', after, q, start.clock, timeout)
    {
      assert InTime(w', was, q, start.clock, timeout);
    }
    forall q | q in after && q !in held
      ensures Newcomer(start, w', after, q)
    {
      if q in was {
        assert Newcomer(start, w, was, q);
        if q in start.jobs {
          NotOvertakenLater(start, w, w', start.jobs[q]);
        }
      } else {
        assert NextInLine(at, q) && Started(w, w', after, q);
        if q in start.jobs {
          ClaimedInTurn(start, at, w', q);
        }
        ChildrenLast(start, w);
      }
    }
  }

  lemma ClaimKeepsAlive(w: World, was: Active, w': World, after: Active, claimed: bool)
    requires forall q | q in was :: q in after && after[q] == was[q]
    requires !claimed ==> after == was
    requires claimed ==> exists q :: q !in was && after.Keys == was.Keys + {q} && Started(w, w', after, q)
    ensures AllAlive(w, was)
            && (forall pid | pid in w.children :: pid in w'.children && w'.children[pid] == w.children[pid])
            ==> AllAlive(w', after)
  {
  }

  /** A job that waits now was not active before. */
  lemma NewcomerIsNew(start: World, w: World, held: Active)
    requires Evolves(start, w)
    requires forall q | q in held :: q in start.jobs && !start.jobs[q].status.Queued?
    ensures forall q | NextInLine(w, q) :: q !in held
  {
    forall q | NextInLine(w, q)
      ensures q !in held
    {
      assert q in start.jobs ==> RowEvolves(start.jobs[q], w.jobs[q]);
    }
  }

  // ── what the invariant says of processes ───────────────────────────────

  ghost function LiveProcesses(w: World): set<nat> {
    set pid | pid in w.children && Alive(w, pid)
  }

  /** There are never more live children than active jobs. */
  lemma LiveChildrenBounded(w: World, active: Active)
    requires Inv(w, active, {})
    ensures |LiveProcesses(w)| <= |active|
  {
    forall pid | pid in LiveProcesses(w)
      ensures w.children[pid].qid in active.Keys
    {
      assert ChildOk(w, active, {}, pid);
    }
    OnePerJob(w, LiveProcesses(w), active.Keys);
  }

  lemma {:induction false} OnePerJob(w: World, pids: set<nat>, ids: set<int>)
    requires OneEach(w) && forall pid | pid in pids :: Alive(w, pid) && w.children[pid].qid in ids
    ensures |pids| <= |ids|
  {
    if pids != {} {
      var pid :| pid in pids;
      OnePerJob(w, pids - {pid}, ids - {w.children[pid].qid});
    }
  }

  /** The job's child has exited, or its time is not up. */
  ghost predicate InTime(w: World, active: Active, q: int, now: int, timeout: int)
    requires q in active
  {
    || (active[q].pid in w.children && w.children[active[q].pid].phase.Exited?)
    || now - active[q].start < timeout
  }

  /**
   With no interference, exactly the overdue jobs outside `left` have been failed and
   dropped, and no other row has changed.
   */
  ghost predicate TimedQuietly(start: World, held: Active, w: World, active: Active, left: set<int>, timeout: int) {
    && w.clock == start.clock && w.jobs.Keys == start.jobs.Keys
    && (forall q | q in held :: q in active <==> q in left || InTime(start, held, q, start.clock, timeout))
    && forall id | id in start.jobs ::
         w.jobs[id] == if id in held && id !in left && !InTime(start, held, id, start.clock, timeout)
                       then start.jobs[id].(status := Failed, since := start.clock) else start.jobs[id]
  }

  lemma TimedStart(start: World, held: Active, timeout: int)
    ensures TimedQuietly(start, held, start, held, held.Keys, timeout)
  {
  }

  /** What the step has done, with the jobs of `left` still to come. */
  ghost predicate TimeoutsSoFar(start: World, first: Active, w: World, active: Active, left: set<int>, now: int, timeout: int) {
    && (forall q | q in first && q !in active :: Settled(w, q) && q in w.jobs && w.jobs[q].status.Failed?)
    && (forall q | q in active && q !in left :: InTime(w, active, q, now, timeout))
    && forall id | id in start.jobs && Terminal(start.jobs[id].status) ::
         id in w.jobs && (w.jobs[id] == start.jobs[id] || Overrun(w, first, active, id, timeout))
  }

  lemma TimeoutsStart(start: World, w: World, first: Active, now: int, timeout: int)
    requires EndsKept(start, w)
    ensures TimeoutsSoFar(start, first, w, first, first.Keys, now, timeout)
  {
    EndsOrOverrun(start, w, first, timeout);
  }

  lemma TimeoutsStep(start: World, first: Active, w: World, held: Active, todo: set<int>, w': World, active: Active,
                     q: int, now: int, timeout: int)
    requires TimeoutsSoFar(start, first, w, held, todo, now, timeout)
    requires Evolves(w, w') && ChildrenStep(w, w') && now <= w.clock
    requires held.Keys <= first.Keys && (forall p | p in held :: held[p] == first[p]) && q in todo && todo <= held.Keys
    requires forall id | id in w.jobs && id != q :: RowTame(w, w', id)
    requires q in active ==> active == held && EndsKept(w, w') && InTime(w', active, q, now, timeout)
    requires q !in active ==>
               && active == held - {q} && Settled(w', q) && q in w'.jobs && w'.jobs[q].status.Failed?
               && now - held[q].start >= timeout
    ensures TimeoutsSoFar(start, first, w', active, todo - {q}, now, timeout)
  {
    hide RowTame, ChildrenStep, Settled;
    SettledAll(w, w', first, held);
    FailedStay(w, w', first, held, q);
    InTimeStays(w, w', held, active, now, timeout);
    OverrunsAdvance(start, w, w', first, held, active, q, now, timeout);
    hide InTime, Overrun, Evolves, EndsKept;
  }

  lemma TimeoutsEnd(start: World, first: Active, w: World, active: Active, now: int, timeout: int)
    requires TimeoutsSoFar(start, first, w, active, {}, now, timeout) && start.clock <= now
    ensures forall q | q in first && q !in active :: Settled(w, q) && q in w.jobs && w.jobs[q].status.Failed?
    ensures forall q | q in active :: InTime(w, active, q, start.clock, timeout)
    ensures forall id | id in start.jobs && Terminal(start.jobs[id].status) ::
              id in w.jobs && (w.jobs[id] == start.jobs[id] || Overrun(w, first, active, id, timeout))
  {
    hide Settled, Overrun;
    StillInTime(w, active, start.clock, now, timeout);
  }

  lemma TimeQuietly(start: World, held: Active, w: World, was: Active, w': World, active: Active, todo: set<int>, q: int, timeout: int)
    requires TimedQuietly(start, held, w, was, todo, timeout) && SameFor(start, w, was)
    requires was.Keys <= held.Keys && (forall p | p in was :: was[p] == held[p])
    requires q in todo && todo <= was.Keys
    requires forall p | p in held :: held[p].pid in start.children && start.children[held[p].pid].qid == p
    requires Undisturbed(w, w', q) && w'.clock == w.clock
    requires q in active <==> InTime(w, was, q, start.clock, timeout)
    requires q in active ==> w' == w && active == was
    requires q !in active ==> active == was - {q} && q in w.jobs && w'.jobs == SetStatus(w, q, Failed).jobs
    ensures SameFor(start, w', active) && TimedQuietly(start, held, w', active, todo - {q}, timeout)
  {
    assert start.children[held[q].pid].qid == q;
    assert InTime(w, was, q, start.clock, timeout) <==> InTime(start, held, q, start.clock, timeout);
    hide InTime;
  }

  /** The loop has just failed the job for running past its deadline. */
  ghost predicate Overrun(w: World, before: Active, after: Active, id: int, timeout: int) {
    && id in before && id !in after && id in w.jobs && w.jobs[id].status.Failed?
    && w.clock - before[id].start >= timeout
  }

  /** Only job `q`'s processes have changed. */
  ghost predicate Undisturbed(w: World, w': World, q: int) {
    forall pid | pid in w.children && w.children[pid].qid != q :: pid in w'.children && w'.children[pid] == w.children[pid]
  }

  lemma ClockForward(w: World, w': World)
    requires Evolves(w, w')
    ensures w.clock <= w'.clock
  {
  }

  lemma EndsOrOverrun(w: World, w': World, active: Active, timeout: int)
    requires EndsKept(w, w')
    ensures forall id | id in w.jobs && Terminal(w.jobs[id].status) ::
              id in w'.jobs && (w'.jobs[id] == w.jobs[id] || Overrun(w', active, active, id, timeout))
  {
  }

  lemma InTimeStays(w: World, w': World, before: Active, after: Active, now: int, timeout: int)
    requires Evolves(w, w') && after.Keys <= before.Keys && forall q | q in after :: after[q] == before[q]
    ensures forall q | q in after && InTime(w, before, q, now, timeout) :: InTime(w', after, q, now, timeout)
  {
    forall q | q in after && InTime(w, before, q, now, timeout)
      ensures InTime(w', after, q, now, timeout)
    {
      if after[q].pid in w.children && w.children[after[q].pid].phase.Exited? {
        ExitedStays(w, w', after[q].pid);
      }
    }
  }

  lemma FailedStay(w: World, w': World, first: Active, held: Active, q: int)
    requires q in held && forall id | id in w.jobs && id != q :: RowTame(w, w', id)
    requires forall id | id in first && id !in held :: id in w.jobs && w.jobs[id].status.Failed?
    ensures forall id | id in first && id !in held :: id in w'.jobs && w'.jobs[id].status.Failed?
  {
    hide WroteMeanwhile;
    forall id | id in first && id !in held
      ensures id in w'.jobs && w'.jobs[id].status.Failed?
    {
      assert RowTame(w, w', id);
    }
  }

  lemma StillInTime(w: World, active: Active, earlier: int, now: int, timeout: int)
    requires earlier <= now && forall q | q in active :: InTime(w, active, q, now, timeout)
    ensures forall q | q in active :: InTime(w, active, q, earlier, timeout)
  {
  }

  lemma OverrunsAdvance(start: World, w: World, w': World, first: Active, before: Active, after: Active,
                        q: int, now: int, timeout: int)
    requires Evolves(w, w') && now <= w.clock
    requires after.Keys <= before.Keys <= first.Keys
    requires q in first && (q !in after ==> q in w'.jobs && w'.jobs[q].status.Failed? && now - first[q].start >= timeout)
    requires q in after ==> EndsKept(w, w')
    requires forall id | id in w.jobs && id != q :: RowTame(w, w', id)
    requires forall id | id in start.jobs && Terminal(start.jobs[id].status) ::
               id in w.jobs && (w.jobs[id] == start.jobs[id] || Overrun(w, first, before, id, timeout))
    ensures forall id | id in start.jobs && Terminal(start.jobs[id].status) ::
              id in w'.jobs && (w'.jobs[id] == start.jobs[id] || Overrun(w', first, after, id, timeout))
  {
    hide WroteMeanwhile;
    forall id | id in start.jobs && Terminal(start.jobs[id].status)
      ensures id in w'.jobs && (w'.jobs[id] == start.jobs[id] || Overrun(w', first, after, id, timeout))
    {
      if id != q {
        assert RowTame(w, w', id);
      }
    }
  }

  /** The job has a live process of its own, and its clock started during the claim. */
  ghost predicate Started(w: World, w': World, active: Active, q: int) {
    && q in active && w.clock <= active[q].start <= w'.clock
    && active[q].pid !in w.children && active[q].pid in w'.children && w'.children[active[q].pid] == Child(q, Working)
    && q in w'.jobs && (w'.jobs[q].status.Running? || w'.jobs[q].status.CancelRequested?)
  }

  lemma ChildrenLast(w: World, w': World)
    requires Evolves(w, w')
    ensures forall pid | pid in w.children :: pid in w'.children && w'.children[pid].qid == w.children[pid].qid
  {
  }

  /** No queued job should have run before this one. */
  ghost predicate NextInLine(w: World, q: int) {
    && q in w.jobs && w.jobs[q].status.Queued?
    && forall id | id in w.jobs && w.jobs[id].status.Queued? :: InTurn(w.jobs[q], w.jobs[id])
  }

  function Spawned(w: World, q: int): World {
    w.(children := w.children[w.nextPid := Child(q, Working)], nextPid := w.nextPid + 1)
  }

  /** With no interference, the claim and the new process are all that differs. */
  ghost predicate ClaimsQuietly(w: World, held: Active, w': World, active: Active, q: int) {
    && q in w.jobs && w' == Spawned(SetStatus(w, q, Running), q)
    && active == held[q := Entry(w.nextPid, w.clock)]
  }

  lemma NextPidFree(w: World, active: Active, loose: set<int>)
    requires Inv(w, active, loose)
    ensures w.nextPid !in w.children
  {
    assert w.nextPid in w.children ==> ChildOk(w, active, loose, w.nextPid);
  }

  lemma ClaimKeeps(w: World, active: Active, q: int)
    requires Inv(w, active, {}) && q in w.jobs && w.jobs[q].status.Queued?
    ensures q !in active && NoProcess(w, q)
    ensures Inv(SetStatus(w, q, Running), active, {q})
    ensures NoProcess(SetStatus(w, q, Running), q)
    ensures Evolves(w, SetStatus(w, q, Running)) && EndsKept(w, SetStatus(w, q, Running))
  {
    assert JobOk(w, active, {}, q);
    NoProcessUnlessActive(w, active, q);
    LooseKeeps(w, active, q);
    SetStatusKeeps(w, q, Running, active, {q});
    hide Inv;
    SamePhases(w, SetStatus(w, q, Running), q);
  }

  /** Between the claim and the spawn, only a cancel request can arrive. */
  lemma StillCalledFor(w: World, w': World, q: int)
    requires Tame(w, w') && q in w.jobs && w.jobs[q].status.Running? && NoProcess(w, q)
    ensures q in w'.jobs && (w'.jobs[q].status.Running? || w'.jobs[q].status.CancelRequested?)
  {
    NotWorkingWithout(w, q);
    assert RowStep(w.jobs[q], w'.jobs[q], WroteMeanwhile(w, w', q));
  }

  lemma SpawnKeeps(w: World, active: Active, q: int)
    requires Inv(w, active, {q}) && q !in active && NoProcess(w, q) && w.nextPid !in w.children
    requires q in w.jobs && (w.jobs[q].status.Running? || w.jobs[q].status.CancelRequested?)
    ensures Inv(Spawned(w, q), active[q := Entry(w.nextPid, w.clock)], {})
    ensures Evolves(w, Spawned(w, q)) && EndsKept(w, Spawned(w, q))
  {
    var w', active' := Spawned(w, q), active[q := Entry(w.nextPid, w.clock)];
    assert OneEach(w') by {
      assert forall p | Alive(w', p) && p != w.nextPid :: Alive(w, p) && w.children[p].qid != q;
    }
    forall id | id in w'.jobs
      ensures JobOk(w', active', {}, id)
    {
      assert JobOk(w, active, {q}, id);
    }
    forall a | a in active'
      ensures EntryOk(w', active', a)
    {
      assert a != q ==> EntryOk(w, active, a);
    }
    forall pid | pid in w'.children
      ensures ChildOk(w', active', {}, pid)
    {
      assert pid in w.children ==> ChildOk(w, active, {q}, pid);
      assert Alive(w, pid) ==> w.children[pid].qid != q;
    }
  }

  /** The one process a job has. */
  ghost predicate OwnProcess(w: World, q: int, pid: nat) {
    pid in w.children && w.children[pid].qid == q
    && forall p | Alive(w, p) && w.children[p].qid == q :: p == pid
  }

  lemma OwnProcessStays(w: World, w': World, q: int, pid: nat)
    requires OwnProcess(w, q, pid) && Tame(w, w')
    ensures OwnProcess(w', q, pid)
  {
    forall p | Alive(w', p) && w'.children[p].qid == q
      ensures p == pid
    {
      assert PhaseStep(w.children[p].phase, w'.children[p].phase);
      assert Alive(w, p);
    }
  }

  lemma OwnProcessGone(w: World, q: int, pid: nat)
    requires OwnProcess(w, q, pid) && !Alive(w, pid)
    ensures NoProcess(w, q)
  {
  }

  /** Killing a process is as tame as its exiting by itself. */
  lemma KillKeeps(w: World, active: Active, loose: set<int>, pid: nat, code: int)
    requires Inv(w, active, loose) && Alive(w, pid) && code != 0
    ensures Inv(SetPhase(w, pid, Exited(code, w.children[pid].phase.Wrote?)), active, loose)
    ensures Tame(w, SetPhase(w, pid, Exited(code, w.children[pid].phase.Wrote?)))
  {
    SetPhaseKeeps(w, pid, Exited(code, w.children[pid].phase.Wrote?), active, loose);
    assert pid in w.children && ChildOk(w, active, loose, pid);
  }

  lemma LooseKeeps(w: World, active: Active, q: int)
    requires Inv(w, active, {})
    ensures Inv(w, active, {q})
  {
    forall id | id in w.jobs
      ensures JobOk(w, active, {q}, id)
    {
      assert JobOk(w, active, {}, id);
    }
    forall pid | pid in w.children
      ensures ChildOk(w, active, {q}, pid)
    {
      assert ChildOk(w, active, {}, pid);
    }
  }

  lemma TameRows(w: World, w': World)
    requires Tame(w, w')
    ensures forall id | id in w.jobs :: id in w'.jobs && RowTame(w, w', id)
    ensures ChildrenStep(w, w')
  {
  }

  lemma OtherRows(w: World, w': World, q: int, s: Status)
    requires q in w'.jobs && forall id | id in w.jobs :: RowTame(w, w', id)
    ensures forall id | id in w.jobs && id != q :: RowTame(w, SetStatus(w', q, s), id)
  {
    assert forall id :: WroteMeanwhile(w, SetStatus(w', q, s), id) <==> WroteMeanwhile(w, w', id);
    hide WroteMeanwhile;
  }

  /** What a row read as CANCEL_REQUESTED can have become before the loop comes to it. */
  predicate Requested(s: Status) {
    s.CancelRequested? || s.Completed? || s.Failed?
  }

  lemma RowsAreOrdered(w: World, active: Active)
    requires Inv(w, active, {})
    ensures OrderOk(w)
  {
  }

  lemma StillRequested(w: World, w': World, q: int)
    requires q in w.jobs && Requested(w.jobs[q].status) && RowTame(w, w', q)
    ensures q in w'.jobs && Requested(w'.jobs[q].status)
    ensures if w.jobs[q].status.CancelRequested?
            then Terminal(w'.jobs[q].status) <==> WroteMeanwhile(w, w', q)
            else w'.jobs[q].status == w.jobs[q].status
  {
    hide WroteMeanwhile;
  }

  /** The world after the first `i` cancels were written, the `j`th of them in the world `over[j]`. */
  ghost function AfterCancels(listed: World, rows: seq<Job>, over: seq<World>, i: nat): World
    requires i <= |over| <= |rows| && forall j | 0 <= j < |over| :: rows[j].id in over[j].jobs
  {
    if i == 0 then listed else SetStatus(over[i - 1], rows[i - 1].id, Cancelled)
  }

  /** How `w` came from `listed`: a cancel for each of the rows in turn, and between two of them nothing else of the loop's. */
  ghost predicate CancelRun(listed: World, rows: seq<Job>, over: seq<World>, w: World) {
    && |over| <= |rows| && (forall j | 0 <= j < |over| :: rows[j].id in over[j].jobs)
    && (forall j | 0 <= j < |over| :: Tame(AfterCancels(listed, rows, over, j), over[j]))
    && w == AfterCancels(listed, rows, over, |over|)
  }

  /**
   A listed row on which CANCELLED was written in the world `over`, with no process left. It
   had ended there exactly when a process of the job wrote it after the listing.
   */
  ghost predicate CancelWritten(listed: World, over: World, w: World, id: int) {
    && id in listed.jobs && listed.jobs[id].status.CancelRequested?
    && id in over.jobs && NoProcess(over, id)
    && (if WroteMeanwhile(listed, over, id) then over.jobs[id].status.Completed? || over.jobs[id].status.Failed?
        else over.jobs[id] == listed.jobs[id])
    && id in w.jobs && w.jobs[id] == SetStatus(over, id, Cancelled).jobs[id]
  }

  ghost predicate CancelsSoFar(listed: World, w: World, rows: seq<Job>, over: seq<World>) {
    && CancelRun(listed, rows, over, w)
    && (forall j | 0 <= j < |over| :: CancelWritten(listed, over[j], w, rows[j].id) && NoProcess(w, rows[j].id))
    && forall j | |over| <= j < |rows| ::
         rows[j].id in listed.jobs && listed.jobs[rows[j].id].status.CancelRequested? && RowTame(listed, w, rows[j].id)
  }

  lemma CancelsStart(listed: World, rows: seq<Job>)
    requires forall j | j in rows :: j.id in listed.jobs && listed.jobs[j.id] == j.row && j.row.status == CancelRequested
    requires forall id | id in listed.jobs :: RowTame(listed, listed, id)
    ensures CancelsSoFar(listed, listed, rows, [])
  {
    hide RowTame;
    assert forall j | 0 <= j < |rows| :: rows[j] in rows;
  }

  lemma NextRequested(listed: World, w: World, rows: seq<Job>, over: seq<World>)
    requires |over| < |rows| && CancelsSoFar(listed, w, rows, over)
    ensures rows[|over|].id in listed.jobs && listed.jobs[rows[|over|].id].status.CancelRequested?
    ensures rows[|over|].id in w.jobs && Requested(w.jobs[rows[|over|].id].status)
  {
    hide CancelWritten, WroteMeanwhile, NoProcess, CancelRun;
  }

  lemma RunStep(listed: World, w: World, rows: seq<Job>, over: seq<World>, o: World)
    requires |over| < |rows| && CancelRun(listed, rows, over, w) && Tame(w, o) && rows[|over|].id in o.jobs
    ensures CancelRun(listed, rows, over + [o], SetStatus(o, rows[|over|].id, Cancelled))
  {
    hide Tame, SetStatus, AfterCancels;
    var more, n := over + [o], |over|;
    assert forall j | 0 <= j < |more| :: more[j] == if j < n then over[j] else o;
    forall j | 0 <= j < |more|
      ensures Tame(AfterCancels(listed, rows, more, j), more[j])
    {
      EarlierCancels(listed, rows, over, o, j);
    }
    LastCancel(listed, rows, over, o);
  }

  lemma EarlierCancels(listed: World, rows: seq<Job>, over: seq<World>, o: World, i: nat)
    requires i <= |over| < |rows| && (forall j | 0 <= j < |over| :: rows[j].id in over[j].jobs) && rows[|over|].id in o.jobs
    ensures forall j | 0 <= j < |over + [o]| :: rows[j].id in (over + [o])[j].jobs
    ensures AfterCancels(listed, rows, over + [o], i) == AfterCancels(listed, rows, over, i)
  {
    hide SetStatus;
  }

  lemma LastCancel(listed: World, rows: seq<Job>, over: seq<World>, o: World)
    requires |over| < |rows| && (forall j | 0 <= j < |over| :: rows[j].id in over[j].jobs) && rows[|over|].id in o.jobs
    ensures forall j | 0 <= j < |over + [o]| :: rows[j].id in (over + [o])[j].jobs
    ensures AfterCancels(listed, rows, over + [o], |over| + 1) == SetStatus(o, rows[|over|].id, Cancelled)
  {
    hide SetStatus;
  }

  lemma CancelsStep(listed: World, w: World, o: World, w': World, rows: seq<Job>, over: seq<World>)
    requires |over| < |rows| && DistinctJobs(rows) && CancelsSoFar(listed, w, rows, over)
    requires ChildrenStep(listed, w) && Tame(w, o) && rows[|over|].id in o.jobs && NoProcess(o, rows[|over|].id)
    requires w' == SetStatus(o, rows[|over|].id, Cancelled)
    requires forall id | id in w.jobs && id != rows[|over|].id :: RowTame(w, w', id)
    ensures CancelsSoFar(listed, w', rows, over + [o])
  {
    var i, q := |over|, rows[|over|].id;
    RunStep(listed, w, rows, over, o);
    TameRows(w, o);
    hide Tame, WroteMeanwhile, ChildrenStep, CancelRun;
    ThisCancel(listed, w, o, w', q);
    ChildrenStepOf(w, o, w', q);
    forall j | 0 <= j < |rows| && j != i
      ensures rows[j].id != q
      ensures j < i ==> CancelWritten(listed, over[j], w', rows[j].id) && NoProcess(w', rows[j].id)
      ensures i < j ==> RowTame(listed, w', rows[j].id)
    {
      if j < i {
        assert CancelWritten(listed, over[j], w, rows[j].id);
        NoProcessMoves(w, w', rows[j].id);
        assert RowTame(w, w', rows[j].id);
      } else {
        RowTameTransitive(listed, w, w', rows[j].id);
      }
    }
  }

  lemma ChildrenStepOf(w: World, o: World, w': World, q: int)
    requires ChildrenStep(w, o) && q in o.jobs && w' == SetStatus(o, q, Cancelled)
    ensures ChildrenStep(w, w')
  {
  }

  lemma ThisCancel(listed: World, w: World, o: World, w': World, q: int)
    requires q in listed.jobs && listed.jobs[q].status.CancelRequested? && RowTame(listed, w, q)
    requires ChildrenStep(listed, w) && ChildrenStep(w, o) && q in w.jobs && RowTame(w, o, q) && NoProcess(o, q)
    requires q in o.jobs && w' == SetStatus(o, q, Cancelled)
    ensures CancelWritten(listed, o, w', q) && NoProcess(w', q)
  {
    RowTameTransitive(listed, w, o, q);
    SamePhases(o, w', q);
    hide WroteMeanwhile, NoProcess, ChildrenStep;
  }

  lemma NoProcessMoves(w: World, w': World, q: int)
    requires NoProcess(w, q) && ChildrenStep(w, w')
    ensures NoProcess(w', q)
  {
    forall pid | Alive(w', pid)
      ensures w'.children[pid].qid != q
    {
      assert PhaseStep(w.children[pid].phase, w'.children[pid].phase);
      assert Alive(w, pid);
    }
  }

  lemma CancelsEnd(listed: World, w: World, rows: seq<Job>, over: seq<World>)
    requires CancelsSoFar(listed, w, rows, over) && |over| == |rows|
    ensures CancelRun(listed, rows, over, w)
    ensures forall j | 0 <= j < |rows| :: CancelWritten(listed, over[j], w, rows[j].id)
    ensures forall j | 0 <= j < |rows| :: rows[j].id in w.jobs && w.jobs[rows[j].id].status.Cancelled?
  {
    hide WroteMeanwhile, NoProcess, CancelRun;
  }

  /** The active jobs' processes are as they were. */
  ghost predicate SameFor(w: World, w': World, active: Active) {
    forall pid | pid in w.children && w.children[pid].qid in active :: pid in w'.children && w'.children[pid] == w.children[pid]
  }

  lemma SameForRefl(w: World, active: Active)
    ensures SameFor(w, w, active)
  {
  }

  lemma SameForLess(listed: World, w: World, w': World, held: Active, q: int)
    ensures SameFor(listed, w, held) && Undisturbed(w, w', q) ==> SameFor(listed, w', held - {q})
  {
  }

  /** A row that had ended when the requests were read is not among them. */
  lemma EndsAdvance(listed: World, w: World, w': World, rows: seq<Job>, i: nat)
    requires i < |rows| && rows[i].id in listed.jobs && listed.jobs[rows[i].id].status.CancelRequested?
    requires EndsKept(listed, w)
    requires forall id | id in w.jobs && id != rows[i].id :: RowTame(w, w', id)
    ensures EndsKept(listed, w')
  {
    forall id | id in listed.jobs && Terminal(listed.jobs[id].status)
      ensures id in w'.jobs && w'.jobs[id] == listed.jobs[id]
    {
      assert RowTame(w, w', id);
    }
  }

  lemma AllCancelled(listed: World, w: World, rows: seq<Job>)
    requires forall j: Job :: j in rows <==> j.id in listed.jobs && listed.jobs[j.id] == j.row && j.row.status == CancelRequested
    requires forall j | 0 <= j < |rows| :: rows[j].id in w.jobs && w.jobs[rows[j].id].status.Cancelled?
    ensures forall id | id in listed.jobs && listed.jobs[id].status.CancelRequested? :: id in w.jobs && w.jobs[id].status.Cancelled?
  {
    assert forall id | id in listed.jobs && listed.jobs[id].status.CancelRequested? :: Job(id, listed.jobs[id]) in rows;
  }

  lemma AllSettled(w: World, listed: World, w': World, rows: seq<Job>)
    requires Evolves(w, listed) && Evolves(listed, w')
    requires forall j: Job :: j in rows <==> j.id in listed.jobs && listed.jobs[j.id] == j.row && j.row.status == CancelRequested
    requires forall j | 0 <= j < |rows| :: rows[j].id in w'.jobs && w'.jobs[rows[j].id].status.Cancelled?
    ensures forall id | id in w.jobs && w.jobs[id].status.CancelRequested? :: id in w'.jobs && Terminal(w'.jobs[id].status)
  {
    forall id | id in w.jobs && w.jobs[id].status.CancelRequested?
      ensures id in w'.jobs && Terminal(w'.jobs[id].status)
    {
      assert RowEvolves(w.jobs[id], listed.jobs[id]) && RowEvolves(listed.jobs[id], w'.jobs[id]);
      if listed.jobs[id].status.CancelRequested? {
        assert Job(id, listed.jobs[id]) in rows;
      }
    }
  }

  ghost predicate RowTame(w: World, w': World, q: int)
    requires q in w.jobs
  {
    q in w'.jobs && RowStep(w.jobs[q], w'.jobs[q], WroteMeanwhile(w, w', q))
  }

  lemma StillIn(w: World, w': World, q: int)
    requires Tame(w, w') && q in w.jobs
    ensures q in w'.jobs
  {
  }

  /** A job that was running has failed, or a cancel request came first; any other row is as it was. */
  ghost predicate Marked(w: World, w': World, q: int) {
    && q in w.jobs && q in w'.jobs
    && if w.jobs[q].status.Running? then w'.jobs[q].status.Failed? || w'.jobs[q].status.CancelRequested?
       else w'.jobs[q] == w.jobs[q]
  }

  /** The world after a crash is marked, when nothing else happens. */
  function CrashMarked(w: World, q: int): World
    requires q in w.jobs
  {
    if w.jobs[q].status.Running? then SetStatus(w, q, Failed) else w
  }

  lemma CrashIsMarked(w: World, w': World, q: int)
    requires q in w.jobs && q in w'.jobs && w.jobs[q].status.Running?
    ensures Marked(w, SetStatus(w', q, Failed), q)
    ensures w == w' && w.jobs[q].status.Running? ==> SetStatus(w', q, Failed) == CrashMarked(w, q)
  {
  }

  lemma NoCrashToMark(w: World, w': World, q: int)
    requires q in w.jobs && RowTame(w, w', q) && NoProcess(w, q)
    requires !w.jobs[q].status.Queued? && !w'.jobs[q].status.Running?
    ensures Marked(w, w', q) && (w == w' ==> w' == CrashMarked(w, q))
  {
    NoWriteWithout(w, w', q);
  }

  lemma WasRunning(w: World, w': World, q: int)
    requires q in w.jobs && q in w'.jobs && RowTame(w, w', q) && w'.jobs[q].status.Running?
    ensures w.jobs[q].status.Running?
  {
  }

  lemma NoWriteWithout(w: World, w': World, q: int)
    requires NoProcess(w, q)
    ensures !WroteMeanwhile(w, w', q)
  {
    NotWorkingWithout(w, q);
  }

  lemma SameChildren(w: World, w': World, q: int, s: Status)
    requires Tame(w, w') && q in w'.jobs
    ensures ChildrenStep(w, SetStatus(w', q, s))
  {
  }

  ghost predicate HasExited(w: World, active: Active, q: int)
    requires q in active
  {
    active[q].pid in w.children && w.children[active[q].pid].phase.Exited?
  }

  lemma RowTameTransitive(a: World, b: World, c: World, id: int)
    requires ChildrenStep(a, b) && ChildrenStep(b, c)
    requires id in a.jobs && RowTame(a, b, id) && RowTame(b, c, id)
    ensures RowTame(a, c, id)
  {
    WroteInOneHalf(a, b, c, id);
    hide WroteMeanwhile;
  }

  lemma ChildrenStepTransitive(a: World, b: World, c: World)
    requires ChildrenStep(a, b) && ChildrenStep(b, c)
    ensures ChildrenStep(a, c)
  {
    forall pid | pid in a.children
      ensures PhaseStep(a.children[pid].phase, c.children[pid].phase)
    {
      assert PhaseStep(b.children[pid].phase, c.children[pid].phase);
    }
  }

  /** What reaping has done, with the exited children of `finished` still to come. */
  ghost predicate ReapSoFar(start: World, held: Active, w: World, active: Active, finished: set<int>) {
    && (forall p | p in finished :: p in active && HasExited(w, active, p))
    && (forall p | p in held && p !in active :: Settled(w, p))
    && (forall p | p in active :: p in start.jobs && RowTame(start, w, p))
    && forall p | p in held && HasExited(start, held, p) :: if p in active then p in finished else Marked(start, w, p)
  }

  lemma ReapStart(start: World, polled: World, held: Active, finished: set<int>)
    requires Tame(start, polled)
    requires forall q | q in held :: q in start.jobs && held[q].pid in polled.children
    requires forall q :: q in finished <==> q in held && polled.children[held[q].pid].phase.Exited?
    ensures ReapSoFar(start, held, polled, held, finished)
    ensures start == polled ==> ReapingQuietly(start, held, polled, held, finished)
  {
    forall q | q in held && HasExited(start, held, q)
      ensures q in finished
    {
      assert PhaseStep(start.children[held[q].pid].phase, polled.children[held[q].pid].phase);
    }
  }

  lemma ReapReady(start: World, held: Active, w: World, was: Active, todo: set<int>, q: int)
    requires ReapSoFar(start, held, w, was, todo) && q in todo
    ensures q in was && was[q].pid in w.children && w.children[was[q].pid].phase.Exited?
  {
    assert HasExited(w, was, q);
  }

  lemma ReapStep(start: World, w: World, w': World, held: Active, was: Active, todo: set<int>, q: int)
    requires ChildrenStep(start, w) && ChildrenStep(w, w') && Evolves(w, w')
    requires was.Keys <= held.Keys && (forall p | p in was :: was[p] == held[p]) && q in was && q in todo
    requires ReapSoFar(start, held, w, was, todo)
    requires forall id | id in w.jobs && id != q :: RowTame(w, w', id)
    requires Settled(w', q) && Marked(w, w', q)
    requires forall p | p in held && HasExited(start, held, p) :: NoProcess(start, p)
    requires forall p | p in held :: p in start.jobs && !start.jobs[p].status.Queued?
    ensures ChildrenStep(start, w') && ReapSoFar(start, held, w', was - {q}, todo - {q})
  {
    hide WroteMeanwhile, NoProcess, Evolves;
    ChildrenStepTransitive(start, w, w');
    SettledAll(w, w', held, was);
    forall p | p in todo - {q}
      ensures HasExited(w', was - {q}, p)
    {
      assert HasExited(w, was, p);
      assert PhaseStep(w.children[was[p].pid].phase, w'.children[was[p].pid].phase);
    }
    forall p | p in was && p != q
      ensures RowTame(start, w', p)
    {
      assert RowTame(start, w, p);
      RowTameTransitive(start, w, w', p);
    }
    forall p | p in held && HasExited(start, held, p)
      ensures if p in was - {q} then p in todo - {q} else Marked(start, w', p)
    {
      if p == q {
        assert RowTame(start, w, q);
        NoWriteWithout(start, w, q);
      } else if p !in was {
        assert Settled(w, p) && RowTame(w, w', p);
        NoWriteWithout(w, w', p);
      }
    }
  }

  lemma ReapEnd(start: World, held: Active, w: World, active: Active)
    requires ReapSoFar(start, held, w, active, {})
    ensures forall q | q in held && q !in active :: Settled(w, q)
    ensures forall q | q in held && HasExited(start, held, q) :: q !in active && Marked(start, w, q)
    ensures ReapingQuietly(start, held, w, active, {}) ==> ReapedQuietly(start, held, w, active)
  {
    hide Settled, Marked, HasExited, RowTame;
  }

  /** The job's child crashed while its row was RUNNING. */
  ghost predicate Crashed(w: World, active: Active, id: int) {
    id in active && HasExited(w, active, id) && id in w.jobs && w.jobs[id].status.Running?
  }

  /** With no interference, reaping drops exactly the exited children and fails exactly the crashed jobs. */
  ghost predicate ReapedQuietly(start: World, held: Active, w: World, active: Active) {
    && w.children == start.children && w.clock == start.clock
    && w.jobs.Keys == start.jobs.Keys
    && (forall q | q in held :: q in active <==> !HasExited(start, held, q))
    && forall id | id in start.jobs ::
         w.jobs[id] == if Crashed(start, held, id) then start.jobs[id].(status := Failed, since := start.clock) else start.jobs[id]
  }

  /** The same, with `finished` still to come. */
  ghost predicate ReapingQuietly(start: World, held: Active, w: World, active: Active, finished: set<int>) {
    && w.children == start.children && w.clock == start.clock
    && w.jobs.Keys == start.jobs.Keys
    && (forall q | q in held :: q in active <==> !HasExited(start, held, q) || q in finished)
    && forall id | id in start.jobs ::
         w.jobs[id] == if Crashed(start, held, id) && id !in finished
                       then start.jobs[id].(status := Failed, since := start.clock) else start.jobs[id]
  }

  lemma ReapQuietly(start: World, held: Active, w: World, was: Active, todo: set<int>, q: int)
    requires ReapingQuietly(start, held, w, was, todo) && q in todo && q in was && q in w.jobs
    requires q in held && was[q] == held[q] && was[q].pid in w.children && w.children[was[q].pid].phase.Exited?
    ensures ReapingQuietly(start, held, CrashMarked(w, q), was - {q}, todo - {q})
  {
    assert HasExited(start, held, q);
  }

  lemma TameKeys(w: World, w': World)
    requires Tame(w, w')
    ensures w'.children.Keys == w.children.Keys
  {
  }

  /** Between the second reading and the write, only a cancel request can arrive. */
  lemma NotOver(w: World, w': World, q: int)
    requires q in w.jobs && w.jobs[q].status.Running? && RowTame(w, w', q) && NoProcess(w, q)
    ensures w'.jobs[q].status.Running? || w'.jobs[q].status.CancelRequested?
  {
    NotWorkingWithout(w, q);
  }

  lemma SamePhases(w: World, w': World, q: int)
    requires w'.children == w.children && NoProcess(w, q)
    ensures NoProcess(w', q)
  {
    assert forall pid :: Alive(w', pid) <==> Alive(w, pid);
  }
}
