/**
 The child process: one job, its writes in order, and its exit code
 (quant/queue/worker.py).
 */
module Worker {
  import opened Outcomes
  import opened QueueWorld

  datatype DbWrite = InsResult | Promote | InsRow(status: Status)

  datatype Exn = LookupError | OtherError

  datatype Stage =
    | Start | FetchJob | EmitStarted | Validate | Optimize
    | WriteResult | AutoPromote | WriteRow | EmitTerminal

  /** What each stage raises, if it is reached. */
  type Faults = Stage -> Option<Exn>

  datatype Outcome = Returned(code: int) | Raised(exn: Exn)

  /** The stages of a run whose failure nothing catches, in order. */
  function Guarded(f: Faults): seq<Stage> {
    [Start, FetchJob, EmitStarted, Validate]
    + (if f(Optimize).Some? then [] else [WriteResult])
    + [WriteRow, EmitTerminal]
  }

  function FirstFailure(stages: seq<Stage>, f: Faults): (first: Option<Stage>)
    ensures first.None? <==> forall s | s in stages :: f(s).None?
    ensures first.Some? ==> first.value in stages && f(first.value).Some?
  {
    if stages == [] then None
    else if f(stages[0]).Some? then Some(stages[0])
    else FirstFailure(stages[1..], f)
  }

  /** Where the run with these faults stops, if it does. */
  function StopsAt(f: Faults): Option<Stage> {
    FirstFailure(Guarded(f), f)
  }

  /** A configuration that does not validate is reported as a value error, whatever was raised. */
  function Escapes(f: Faults, s: Stage): Exn
    requires f(s).Some?
  {
    if s.Validate? then OtherError else f(s).value
  }

  /** At most one row is written, last of all; COMPLETED only on top of its result. */
  ghost predicate Ordered(log: seq<DbWrite>) {
    && (forall i | 0 <= i < |log| && log[i].InsRow? :: i == |log| - 1 && (log[i].status.Completed? || log[i].status.Failed?))
    && (log != [] && log[|log| - 1] == InsRow(Completed) ==> InsResult in log)
  }

  ghost predicate WroteRow(log: seq<DbWrite>) {
    log != [] && log[|log| - 1].InsRow?
  }

  class BacktestWorker {
    var log: seq<DbWrite>

    constructor ()
      ensures log == []
    {
      log := [];
    }

    /**
     `BacktestWorker.run`. It returns exactly when no stage outside the two that catch fails,
     and its terminal row is written exactly when nothing up to that write fails.
     */
    method Run(f: Faults) returns (outcome: Outcome)
      requires log == []
      modifies this
      ensures Ordered(log)
      ensures outcome == if StopsAt(f).None? then Returned(0) else Raised(Escapes(f, StopsAt(f).value))
      ensures WroteRow(log) <==> StopsAt(f).None? || StopsAt(f) == Some(EmitTerminal)
      ensures WroteRow(log) ==> (log[|log| - 1].status.Failed? <==> f(Optimize).Some?)
      ensures InsResult in log <==> f(Optimize).None? && (WroteRow(log) || StopsAt(f) == Some(WriteRow))
      ensures Promote in log <==> InsResult in log && f(AutoPromote).None?
    {
      StopsHere(f);
      hide StopsAt, FirstFailure, Guarded;
      if f(Start).Some? {
        return Raised(f(Start).value);
      }
      if f(FetchJob).Some? {
        return Raised(f(FetchJob).value);
      }
      if f(EmitStarted).Some? {
        return Raised(f(EmitStarted).value);
      }
      if f(Validate).Some? {
        return Raised(OtherError);
      }
      if f(Optimize).Some? {
        if f(WriteRow).Some? {
          return Raised(f(WriteRow).value);
        }
        log := log + [InsRow(Failed)];
        if f(EmitTerminal).Some? {
          return Raised(f(EmitTerminal).value);
        }
        return Returned(0);
      }
      if f(WriteResult).Some? {
        return Raised(f(WriteResult).value);
      }
      log := log + [InsResult];
      if f(AutoPromote).None? {
        log := log + [Promote];
      }
      if f(WriteRow).Some? {
        return Raised(f(WriteRow).value);
      }
      log := log + [InsRow(Completed)];
      if f(EmitTerminal).Some? {
        return Raised(f(EmitTerminal).value);
      }
      return Returned(0);
    }

    /**
     `main`: exit 0 exactly when the run returned, 2 exactly when a lookup error escaped it.
     A run whose row is written can still exit with either of the others, but only where
     announcing the row fails.
     */
    method Execute(f: Faults) returns (code: int)
      requires log == []
      modifies this
      ensures Ordered(log)
      ensures code == 0 <==> StopsAt(f).None?
      ensures code == 2 <==> StopsAt(f).Some? && Escapes(f, StopsAt(f).value) == LookupError
      ensures code == 0 || code == 1 || code == 2
      ensures WroteRow(log) <==> code == 0 || StopsAt(f) == Some(EmitTerminal)
    {
      var outcome := Run(f);
      match outcome {
        case Returned(c) => return c;
        case Raised(LookupError) => return 2;
        case Raised(OtherError) => return 1;
      }
    }
  }

  lemma Peel(s: Stage, rest: seq<Stage>, f: Faults)
    ensures FirstFailure([s] + rest, f) == if f(s).Some? then Some(s) else FirstFailure(rest, f)
  {
    assert ([s] + rest)[1..] == rest;
  }

  /** The stages of a run in turn. */
  lemma StopsHere(f: Faults)
    ensures StopsAt(f)
            == if f(Start).Some? then Some(Start)
               else if f(FetchJob).Some? then Some(FetchJob)
               else if f(EmitStarted).Some? then Some(EmitStarted)
               else if f(Validate).Some? then Some(Validate)
               else if f(Optimize).None? && f(WriteResult).Some? then Some(WriteResult)
               else if f(WriteRow).Some? then Some(WriteRow)
               else if f(EmitTerminal).Some? then Some(EmitTerminal) else None
  {
    var end := [WriteRow] + ([EmitTerminal] + []);
    var late := if f(Optimize).Some? then end else [WriteResult] + end;
    assert Guarded(f) == [Start] + ([FetchJob] + ([EmitStarted] + ([Validate] + late)));
    hide *;
    Peel(EmitTerminal, [], f);
    Peel(WriteRow, [EmitTerminal] + [], f);
    Peel(WriteResult, end, f);
    Peel(Validate, late, f);
    Peel(EmitStarted, [Validate] + late, f);
    Peel(FetchJob, [EmitStarted] + ([Validate] + late), f);
    Peel(Start, [FetchJob] + ([EmitStarted] + ([Validate] + late)), f);
    Settled(f);
  }

  lemma Settled(f: Faults)
    ensures FirstFailure([], f) == None && StopsAt(f) == FirstFailure(Guarded(f), f)
  {
  }

  function ApplyAll(w: World, events: seq<Event>): World {
    if events == [] then w else Apply(ApplyAll(w, events[..|events| - 1]), events[|events| - 1])
  }

  /** What a run's writes and exit are to the queue. */
  function AsEvents(pid: nat, log: seq<DbWrite>, code: int): seq<Event> {
    (if log != [] && log[|log| - 1].InsRow? then [Write(pid, log[|log| - 1].status.Completed?)] else [])
    + [Exit(pid, code)]
  }

  /** Every run that keeps the protocol is one the loop's environment allows, and ends the same way. */
  lemma RunIsEvents(w: World, pid: nat, log: seq<DbWrite>, code: int)
    requires pid in w.children && w.children[pid].phase.Working? && w.children[pid].qid in w.jobs
    requires Ordered(log) && (code == 0 ==> WroteRow(log))
    ensures var after, q := ApplyAll(w, AsEvents(pid, log, code)), w.children[pid].qid;
            && pid in after.children && after.children[pid] == Child(q, Exited(code, WroteRow(log)))
            && q in after.jobs
            && after.jobs[q].status == if WroteRow(log) then log[|log| - 1].status else w.jobs[q].status
  {
    var events := AsEvents(pid, log, code);
    if WroteRow(log) {
      var write := Write(pid, log[|log| - 1].status.Completed?);
      assert events == [write, Exit(pid, code)];
      assert events[..1] == [write] && events[..1][..0] == [];
      assert ApplyAll(w, events[..1]) == Apply(w, write);
    } else {
      assert events == [Exit(pid, code)] && events[..0] == [];
    }
  }
}
