/**
 The job queue and everything that acts on it beside the worker loop
 (quant/queue/repo.py, quant/queue/worker.py, quant/api/services/jobs.py).

 BT.QUEUE is a map from a job to its active row. The environment is a script of events:
 jobs arrive and are cancelled through the API, child processes write their one terminal
 row and exit, and time passes.
 */
module QueueWorld {
  import opened Outcomes

  datatype Status = Queued | Running | CancelRequested | Completed | Failed | Cancelled

  predicate Terminal(s: Status) {
    s.Completed? || s.Failed? || s.Cancelled?
  }

  /** `since` is when the row took its status; for a queued job, when it was enqueued. */
  datatype Row = Row(status: Status, priority: int, since: int)

  /** A worker process: it writes a terminal row at most once, and exits 0 only after. */
  datatype Phase = Working | Wrote | Exited(code: int, wrote: bool)

  /** The process has written its row, whether or not it is gone by now. */
  predicate Written(phase: Phase) {
    phase.Wrote? || (phase.Exited? && phase.wrote)
  }

  datatype Child = Child(qid: int, phase: Phase)

  /** `order` lists the jobs as they were created; `children` holds every process spawned. */
  datatype World =
    World(jobs: map<int, Row>, order: seq<int>, children: map<nat, Child>, nextPid: nat, clock: int)

  /** The loop's handle on a job: its process and when it was started. */
  datatype Entry = Entry(pid: nat, start: int)

  type Active = map<int, Entry>

  function SetStatus(w: World, id: int, status: Status): World
    requires id in w.jobs
  {
    w.(jobs := w.jobs[id := w.jobs[id].(status := status, since := w.clock)])
  }

  function SetPhase(w: World, pid: nat, phase: Phase): World
    requires pid in w.children
  {
    w.(children := w.children[pid := w.children[pid].(phase := phase)])
  }

  predicate Alive(w: World, pid: nat) {
    pid in w.children && !w.children[pid].phase.Exited?
  }

  // ── the environment ────────────────────────────────────────────────────

  datatype Event =
    | Enqueue(id: int, priority: int)
    | Cancel(id: int)
    | Write(pid: nat, ok: bool)
    | Exit(pid: nat, code: int)
    | Pass(seconds: nat)

  /** What an event does; one that is not possible does nothing. */
  function Apply(w: World, e: Event): World {
    match e
    case Enqueue(id, priority) =>
      if id in w.jobs then w
      else w.(jobs := w.jobs[id := Row(Queued, priority, w.clock)], order := w.order + [id])
    case Cancel(id) =>
      if id !in w.jobs then w
      else if w.jobs[id].status.Queued? then SetStatus(w, id, Cancelled)
      else if w.jobs[id].status.Running? then SetStatus(w, id, CancelRequested)
      else w
    case Write(pid, ok) =>
      if pid !in w.children || !w.children[pid].phase.Working? || w.children[pid].qid !in w.jobs then w
      else SetPhase(SetStatus(w, w.children[pid].qid, if ok then Completed else Failed), pid, Wrote)
    case Exit(pid, code) =>
      if pid !in w.children then w
      else if w.children[pid].phase.Wrote? || (w.children[pid].phase.Working? && code != 0)
      then SetPhase(w, pid, Exited(code, w.children[pid].phase.Wrote?))
      else w
    case Pass(seconds) => w.(clock := w.clock + seconds)
  }

  // ── what always holds ──────────────────────────────────────────────────

  ghost predicate Distinct(s: seq<int>) {
    forall i, j | 0 <= i < j < |s| :: s[i] != s[j]
  }

  ghost predicate OrderOk(w: World) {
    Distinct(w.order) && forall id :: id in w.order <==> id in w.jobs
  }

  /** A running job is active; one that waits or was cancelled is not. */
  ghost predicate JobOk(w: World, active: Active, loose: set<int>, id: int)
    requires id in w.jobs
  {
    var s := w.jobs[id].status;
    && (s.Running? ==> id in active || id in loose)
    && (s.Queued? || s.Cancelled? ==> id !in active)
  }

  /** An active job has its process. */
  ghost predicate EntryOk(w: World, active: Active, q: int)
    requires q in active
  {
    q in w.jobs && active[q].pid in w.children && w.children[active[q].pid].qid == q
  }

  /**
   A live process belongs to an active job. One that has not written works for a job that
   is not over; one that has written, or that exited 0, works for a job that is.
   */
  ghost predicate ChildOk(w: World, active: Active, loose: set<int>, pid: nat)
    requires pid in w.children
  {
    var Child(q, phase) := w.children[pid];
    && pid < w.nextPid && q in w.jobs
    && (!phase.Exited? ==> q in loose || (q in active && active[q].pid == pid))
    && (phase.Working? ==> w.jobs[q].status.Running? || w.jobs[q].status.CancelRequested?)
    && (phase.Exited? && phase.code == 0 ==> phase.wrote)
    && (Written(phase) ==> Terminal(w.jobs[q].status))
  }

  /** No job has two live processes. */
  ghost predicate OneEach(w: World) {
    forall p, q | Alive(w, p) && Alive(w, q) && p != q :: w.children[p].qid != w.children[q].qid
  }

  /** The loop's invariant. `loose` holds the jobs it is in the middle of ending or starting. */
  ghost predicate Inv(w: World, active: Active, loose: set<int>) {
    && OrderOk(w) && OneEach(w)
    && (forall id | id in w.jobs :: JobOk(w, active, loose, id))
    && (forall q | q in active :: EntryOk(w, active, q))
    && (forall pid | pid in w.children :: ChildOk(w, active, loose, pid))
  }

  /** How a row may change without the loop; `wrote` says whether the job's process wrote its row. */
  ghost predicate RowStep(before: Row, after: Row, wrote: bool) {
    && after.priority == before.priority
    && match before.status
       case Queued => after == before || after.status.Cancelled?
       case Running =>
         if wrote then after.status.Completed? || after.status.Failed?
         else after == before || after.status.CancelRequested?
       case CancelRequested => if wrote then after.status.Completed? || after.status.Failed? else after == before
       case _ => after == before
  }

  ghost predicate PhaseStep(before: Phase, after: Phase) {
    match before
    case Working => true
    case Wrote => after.Wrote? || (after.Exited? && after.wrote)
    case Exited(_, _) => after == before
  }

  ghost predicate HasWorking(w: World, id: int) {
    exists pid :: pid in w.children && w.children[pid].qid == id && w.children[pid].phase.Working?
  }

  /** A process of the job wrote its row between the two. */
  ghost predicate WroteMeanwhile(w: World, w': World, id: int) {
    exists pid :: pid in w.children && pid in w'.children && w.children[pid].qid == id
                  && w.children[pid].phase.Working? && Written(w'.children[pid].phase)
  }

  /** No process was started, and each has moved on by itself or been killed. */
  ghost predicate ChildrenStep(w: World, w': World) {
    && w'.children.Keys == w.children.Keys
    && forall pid | pid in w.children ::
         w'.children[pid].qid == w.children[pid].qid && PhaseStep(w.children[pid].phase, w'.children[pid].phase)
  }

  /** What any run of environment events may have done. */
  ghost predicate Tame(w: World, w': World) {
    && w.clock <= w'.clock && w'.nextPid == w.nextPid
    && ChildrenStep(w, w')
    && (forall id | id in w.jobs :: id in w'.jobs && RowStep(w.jobs[id], w'.jobs[id], WroteMeanwhile(w, w', id)))
  }

  lemma TameRefl(w: World)
    ensures Tame(w, w)
  {
  }

  lemma TameTransitive(a: World, b: World, c: World)
    requires Tame(a, b) && Tame(b, c)
    ensures Tame(a, c)
  {
    forall id | id in a.jobs
      ensures id in c.jobs && RowStep(a.jobs[id], c.jobs[id], WroteMeanwhile(a, c, id))
    {
      WroteInOneHalf(a, b, c, id);
      assert RowStep(a.jobs[id], b.jobs[id], WroteMeanwhile(a, b, id));
      assert RowStep(b.jobs[id], c.jobs[id], WroteMeanwhile(b, c, id));
      hide WroteMeanwhile;
    }
    forall pid | pid in a.children
      ensures PhaseStep(a.children[pid].phase, c.children[pid].phase)
    {
      assert PhaseStep(b.children[pid].phase, c.children[pid].phase);
    }
  }

  lemma WroteInOneHalf(a: World, b: World, c: World, id: int)
    requires ChildrenStep(a, b) && ChildrenStep(b, c)
    ensures WroteMeanwhile(a, c, id) <==> WroteMeanwhile(a, b, id) || WroteMeanwhile(b, c, id)
  {
    if WroteMeanwhile(a, c, id) {
      var pid :| pid in a.children && pid in c.children && a.children[pid].qid == id
                 && a.children[pid].phase.Working? && Written(c.children[pid].phase);
      assert pid in b.children && PhaseStep(b.children[pid].phase, c.children[pid].phase);
    }
    if WroteMeanwhile(a, b, id) {
      var pid :| pid in a.children && pid in b.children && a.children[pid].qid == id
                 && a.children[pid].phase.Working? && Written(b.children[pid].phase);
      assert pid in c.children && PhaseStep(b.children[pid].phase, c.children[pid].phase);
    }
    if WroteMeanwhile(b, c, id) {
      var pid :| pid in b.children && pid in c.children && b.children[pid].qid == id
                 && b.children[pid].phase.Working? && Written(c.children[pid].phase);
      assert pid in a.children && PhaseStep(a.children[pid].phase, b.children[pid].phase);
    }
  }

  /** Every event keeps the invariant, in the middle of any step of the loop, and is tame. */
  lemma EventKeeps(w: World, e: Event, active: Active, loose: set<int>)
    requires Inv(w, active, loose)
    ensures Inv(Apply(w, e), active, loose) && Tame(w, Apply(w, e))
  {
    match e
    case Enqueue(id, priority) => EnqueueKeeps(w, id, priority, active, loose);
    case Cancel(id) => CancelKeeps(w, id, active, loose);
    case Write(pid, ok) => WriteKeeps(w, pid, ok, active, loose);
    case Exit(pid, code) => ExitKeeps(w, pid, code, active, loose);
    case Pass(seconds) =>
  }

  lemma EnqueueKeeps(w: World, id: int, priority: int, active: Active, loose: set<int>)
    requires Inv(w, active, loose)
    ensures Inv(Apply(w, Enqueue(id, priority)), active, loose) && Tame(w, Apply(w, Enqueue(id, priority)))
  {
    var w' := Apply(w, Enqueue(id, priority));
    assert OneEach(w') by { assert forall p :: Alive(w', p) <==> Alive(w, p); }
    forall i | i in w'.jobs
      ensures JobOk(w', active, loose, i)
    {
      assert i in active ==> EntryOk(w, active, i);
      assert i in w.jobs ==> JobOk(w, active, loose, i);
    }
    forall q | q in active
      ensures EntryOk(w', active, q)
    {
      assert EntryOk(w, active, q);
    }
    forall pid | pid in w'.children
      ensures ChildOk(w', active, loose, pid)
    {
      assert ChildOk(w, active, loose, pid);
    }
  }

  /** A row's status may be set where the rest of the invariant allows the new one. */
  lemma SetStatusKeeps(w: World, id: int, s: Status, active: Active, loose: set<int>)
    requires Inv(w, active, loose) && id in w.jobs
    requires s.Running? ==> id in active || id in loose
    requires s.Queued? || s.Cancelled? ==> id !in active
    requires !s.Running? && !s.CancelRequested? ==> !HasWorking(w, id)
    requires Terminal(w.jobs[id].status) ==> Terminal(s)
    ensures Inv(SetStatus(w, id, s), active, loose)
  {
    var w' := SetStatus(w, id, s);
    hide HasWorking;
    assert OneEach(w') by { assert forall p :: Alive(w', p) <==> Alive(w, p); }
    forall i | i in w'.jobs
      ensures JobOk(w', active, loose, i)
    {
      assert JobOk(w, active, loose, i);
    }
    forall q | q in active
      ensures EntryOk(w', active, q)
    {
      assert EntryOk(w, active, q);
    }
    forall pid | pid in w'.children
      ensures ChildOk(w', active, loose, pid)
    {
      assert ChildOk(w, active, loose, pid);
      NotWorking(w, id, pid);
    }
  }

  lemma NotWorking(w: World, id: int, pid: nat)
    ensures !HasWorking(w, id) && pid in w.children && w.children[pid].qid == id ==> !w.children[pid].phase.Working?
  {
  }

  lemma CancelKeeps(w: World, id: int, active: Active, loose: set<int>)
    requires Inv(w, active, loose)
    ensures Inv(Apply(w, Cancel(id)), active, loose) && Tame(w, Apply(w, Cancel(id)))
  {
    if id in w.jobs {
      assert JobOk(w, active, loose, id);
      if w.jobs[id].status.Queued? {
        NoneWorksFor(w, active, loose, id);
        SetStatusKeeps(w, id, Cancelled, active, loose);
      } else if w.jobs[id].status.Running? {
        SetStatusKeeps(w, id, CancelRequested, active, loose);
      }
    }
    hide Inv, HasWorking;
    NoneWroteMeanwhile(w, Apply(w, Cancel(id)));
    hide WroteMeanwhile;
  }

  lemma NoneWorksFor(w: World, active: Active, loose: set<int>, id: int)
    requires Inv(w, active, loose) && id in w.jobs
    ensures !(w.jobs[id].status.Running? || w.jobs[id].status.CancelRequested?) ==> !HasWorking(w, id)
  {
    forall pid | pid in w.children && w.children[pid].qid == id && w.children[pid].phase.Working?
      ensures w.jobs[id].status.Running? || w.jobs[id].status.CancelRequested?
    {
      assert ChildOk(w, active, loose, pid);
    }
  }

  /** A process may move on when its job's status allows what it becomes. */
  lemma SetPhaseKeeps(w: World, pid: nat, phase: Phase, active: Active, loose: set<int>)
    requires Inv(w, active, loose) && pid in w.children
    requires PhaseStep(w.children[pid].phase, phase) && !phase.Working?
    requires phase.Exited? && phase.code == 0 ==> phase.wrote
    requires Written(phase) && w.children[pid].qid in w.jobs ==> Terminal(w.jobs[w.children[pid].qid].status)
    ensures Inv(SetPhase(w, pid, phase), active, loose)
  {
    var w' := SetPhase(w, pid, phase);
    assert OneEach(w') by { assert forall p | Alive(w', p) :: Alive(w, p); }
    forall i | i in w'.jobs
      ensures JobOk(w', active, loose, i)
    {
      assert JobOk(w, active, loose, i);
    }
    forall q | q in active
      ensures EntryOk(w', active, q)
    {
      assert EntryOk(w, active, q);
    }
    forall p | p in w'.children
      ensures ChildOk(w', active, loose, p)
    {
      assert ChildOk(w, active, loose, p);
    }
  }

  lemma InvGives(w: World, active: Active, loose: set<int>, pid: nat)
    requires Inv(w, active, loose) && pid in w.children
    ensures ChildOk(w, active, loose, pid) && OneEach(w)
  {
  }

  /** Writing and moving on to `Wrote` are one step. */
  lemma WriteKeeps(w: World, pid: nat, ok: bool, active: Active, loose: set<int>)
    requires Inv(w, active, loose)
    ensures Inv(Apply(w, Write(pid, ok)), active, loose) && Tame(w, Apply(w, Write(pid, ok)))
  {
    hide Inv, Tame, HasWorking, OneEach, SetPhase, SetStatus;
    if pid in w.children && w.children[pid].phase.Working? {
      InvGives(w, active, loose, pid);
      var id := w.children[pid].qid;
      var s := if ok then Completed else Failed;
      SetPhaseKeeps(w, pid, Exited(1, false), active, loose);
      WriteInTwo(w, pid, s);
      OnlyWorker(w, pid);
      SetStatusKeeps(SetPhase(w, pid, Exited(1, false)), id, s, active, loose);
      WroteKeeps(SetStatus(SetPhase(w, pid, Exited(1, false)), id, s), w, pid, active, loose);
      WriteTame(w, pid, s);
    } else {
      TameRefl(w);
    }
  }

  lemma WriteInTwo(w: World, pid: nat, s: Status)
    requires pid in w.children && w.children[pid].qid in w.jobs
    ensures var id, gone := w.children[pid].qid, SetPhase(w, pid, Exited(1, false));
            && id in gone.jobs && gone.jobs == w.jobs
            && pid in SetStatus(gone, id, s).children
            && SetStatus(gone, id, s).children == gone.children
            && gone.children[pid].qid == id
            && id in SetStatus(gone, id, s).jobs && SetStatus(gone, id, s).jobs[id].status == s
            && SetPhase(SetStatus(gone, id, s), pid, Wrote) == SetPhase(SetStatus(w, id, s), pid, Wrote)
  {
  }

  lemma WriteTame(w: World, pid: nat, s: Status)
    requires pid in w.children && w.children[pid].phase.Working? && w.children[pid].qid in w.jobs
    requires s.Completed? || s.Failed?
    requires w.jobs[w.children[pid].qid].status.Running? || w.jobs[w.children[pid].qid].status.CancelRequested?
    ensures Tame(w, SetPhase(SetStatus(w, w.children[pid].qid, s), pid, Wrote))
  {
    var w' := SetPhase(SetStatus(w, w.children[pid].qid, s), pid, Wrote);
    assert WroteMeanwhile(w, w', w.children[pid].qid) by {
      assert pid in w'.children && Written(w'.children[pid].phase);
    }
    forall id | id in w.jobs && id != w.children[pid].qid
      ensures !WroteMeanwhile(w, w', id)
    {
      assert forall p | p in w.children && p != pid :: w'.children[p] == w.children[p];
    }
    hide WroteMeanwhile;
  }

  lemma OnlyWorker(w: World, pid: nat)
    requires OneEach(w) && pid in w.children && w.children[pid].phase.Working?
    ensures !HasWorking(SetPhase(w, pid, Exited(1, false)), w.children[pid].qid)
  {
    var id, gone := w.children[pid].qid, SetPhase(w, pid, Exited(1, false));
    if HasWorking(gone, id) {
      var p :| p in gone.children && gone.children[p].qid == id && gone.children[p].phase.Working?;
      assert Alive(w, p) && Alive(w, pid);
    }
  }

  /** The process that was live is so again, its job now over. */
  lemma WroteKeeps(w: World, was: World, pid: nat, active: Active, loose: set<int>)
    requires Inv(w, active, loose) && Inv(was, active, loose)
    requires pid in w.children && pid in was.children && was.children[pid].phase.Working?
    requires w.children == SetPhase(was, pid, Exited(1, false)).children
    requires w.children[pid].qid in w.jobs && Terminal(w.jobs[w.children[pid].qid].status)
    ensures Inv(SetPhase(w, pid, Wrote), active, loose)
  {
    var w' := SetPhase(w, pid, Wrote);
    assert OneEach(w') by { assert forall p | Alive(w', p) :: Alive(was, p) && was.children[p].qid == w'.children[p].qid; }
    forall i | i in w'.jobs
      ensures JobOk(w', active, loose, i)
    {
      assert JobOk(w, active, loose, i);
    }
    forall q | q in active
      ensures EntryOk(w', active, q)
    {
      assert EntryOk(w, active, q);
    }
    forall p | p in w'.children
      ensures ChildOk(w', active, loose, p)
    {
      assert ChildOk(w, active, loose, p) && ChildOk(was, active, loose, p);
    }
  }

  lemma ExitKeeps(w: World, pid: nat, code: int, active: Active, loose: set<int>)
    requires Inv(w, active, loose)
    ensures Inv(Apply(w, Exit(pid, code)), active, loose) && Tame(w, Apply(w, Exit(pid, code)))
  {
    if Apply(w, Exit(pid, code)) != w {
      assert ChildOk(w, active, loose, pid);
      SetPhaseKeeps(w, pid, Exited(code, w.children[pid].phase.Wrote?), active, loose);
    }
    hide Inv;
    NoneWroteMeanwhile(w, Apply(w, Exit(pid, code)));
    hide WroteMeanwhile;
  }

  lemma NoneWroteMeanwhile(w: World, w': World)
    requires forall pid | pid in w.children && pid in w'.children && w.children[pid].phase.Working? :: !Written(w'.children[pid].phase)
    ensures forall id :: !WroteMeanwhile(w, w', id)
  {
  }
}
