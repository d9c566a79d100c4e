/**
 The order jobs are claimed in (quant/queue/repo.py:22-29).
 */
module RunOrder {
  import opened QueueWorld

  datatype Job = Job(id: int, row: Row)

  /** The job with row `a` should run before the one with row `b`. */
  predicate Before(a: Row, b: Row) {
    a.priority < b.priority || (a.priority == b.priority && a.since < b.since)
  }

  /** The first of the rows has the lower priority number or, with the same one, was enqueued no later. */
  ghost predicate InTurn(a: Row, b: Row) {
    a.priority < b.priority || (a.priority == b.priority && a.since <= b.since)
  }

  /** Active rows with a status, the newest job first. */
  function Listed(order: seq<int>, jobs: map<int, Row>, s: Status): seq<Job> {
    if order == [] then []
    else
      var last := order[|order| - 1];
      (if last in jobs && jobs[last].status == s then [Job(last, jobs[last])] else [])
      + Listed(order[..|order| - 1], jobs, s)
  }

  function ListByStatus(w: World, s: Status): seq<Job> {
    Listed(w.order, w.jobs, s)
  }

  lemma {:induction false} ListedExact(order: seq<int>, jobs: map<int, Row>, s: Status)
    ensures forall j :: j in Listed(order, jobs, s)
                        <==> j.id in order && j.id in jobs && jobs[j.id] == j.row && j.row.status == s
    ensures Distinct(order) ==> DistinctJobs(Listed(order, jobs, s))
  {
    if order != [] {
      var n := |order| - 1;
      ListedExact(order[..n], jobs, s);
      assert order == order[..n] + [order[n]];
      assert Distinct(order) ==> order[n] !in order[..n];
    }
  }

  ghost predicate CreatedEarlier(order: seq<int>, a: int, b: int) {
    exists i, j :: 0 <= i < j < |order| && order[i] == a && order[j] == b
  }

  /** Of two of the jobs the one listed first was created later. */
  ghost predicate NewestFirst(jobs: seq<Job>, order: seq<int>) {
    forall i, j | 0 <= i < j < |jobs| :: CreatedEarlier(order, jobs[j].id, jobs[i].id)
  }

  lemma {:induction false} ListedNewestFirst(order: seq<int>, jobs: map<int, Row>, s: Status)
    ensures NewestFirst(Listed(order, jobs, s), order)
  {
    if order != [] {
      var n := |order| - 1;
      var rest, list := Listed(order[..n], jobs, s), Listed(order, jobs, s);
      ListedNewestFirst(order[..n], jobs, s);
      ListedExact(order[..n], jobs, s);
      var skipped := |list| - |rest|;
      assert forall i | skipped <= i < |list| :: list[i] == rest[i - skipped];
      forall i, j | 0 <= i < j < |list|
        ensures CreatedEarlier(order, list[j].id, list[i].id)
      {
        if i >= skipped {
          EarlierStill(order, list[j].id, list[i].id);
        } else {
          assert rest[j - skipped] in rest;
          var a :| 0 <= a < n && order[..n][a] == list[j].id;
          assert order[a] == list[j].id && order[n] == list[i].id;
        }
      }
    }
  }

  lemma EarlierStill(order: seq<int>, a: int, b: int)
    requires order != [] && CreatedEarlier(order[..|order| - 1], a, b)
    ensures CreatedEarlier(order, a, b)
  {
    var before := order[..|order| - 1];
    var i, j :| 0 <= i < j < |before| && before[i] == a && before[j] == b;
    assert order[i] == a && order[j] == b;
  }

  ghost predicate DistinctJobs(jobs: seq<Job>) {
    forall i, j | 0 <= i < j < |jobs| :: jobs[i].id != jobs[j].id
  }

  lemma ListExact(w: World, s: Status)
    requires OrderOk(w)
    ensures forall j :: j in ListByStatus(w, s) <==> j.id in w.jobs && w.jobs[j.id] == j.row && j.row.status == s
    ensures DistinctJobs(ListByStatus(w, s))
  {
    ListedExact(w.order, w.jobs, s);
  }

  function Insert(sorted: seq<Job>, j: Job): seq<Job> {
    if sorted == [] || Before(j.row, sorted[0].row) then [j] + sorted
    else [sorted[0]] + Insert(sorted[1..], j)
  }

  /** Python's stable `sorted` by priority and enqueue time. */
  function InRunOrder(jobs: seq<Job>): seq<Job> {
    if jobs == [] then [] else Insert(InRunOrder(jobs[..|jobs| - 1]), jobs[|jobs| - 1])
  }

  /** No job comes before one that should run earlier. */
  ghost predicate Ranked(jobs: seq<Job>) {
    jobs == [] || ((forall j | j in jobs[1..] :: !Before(j.row, jobs[0].row)) && Ranked(jobs[1..]))
  }

  /** The jobs of one rank, in the order given. */
  function SameRank(jobs: seq<Job>, priority: int, since: int): seq<Job> {
    if jobs == [] then []
    else
      (if jobs[0].row.priority == priority && jobs[0].row.since == since then [jobs[0]] else [])
      + SameRank(jobs[1..], priority, since)
  }

  lemma {:induction false} InsertExact(sorted: seq<Job>, j: Job)
    ensures multiset(Insert(sorted, j)) == multiset(sorted) + multiset{j}
    ensures forall x :: x in Insert(sorted, j) <==> x == j || x in sorted
  {
    if !(sorted == [] || Before(j.row, sorted[0].row)) {
      InsertExact(sorted[1..], j);
      assert sorted == [sorted[0]] + sorted[1..];
    }
  }

  lemma {:induction false} InsertRanks(sorted: seq<Job>, j: Job)
    requires Ranked(sorted)
    ensures Ranked(Insert(sorted, j))
  {
    if sorted == [] || Before(j.row, sorted[0].row) {
      assert ([j] + sorted)[1..] == sorted;
      forall x | x in sorted
        ensures !Before(x.row, j.row)
      {
        assert sorted == [sorted[0]] + sorted[1..];
      }
    } else {
      InsertRanks(sorted[1..], j);
      InsertExact(sorted[1..], j);
      assert ([sorted[0]] + Insert(sorted[1..], j))[1..] == Insert(sorted[1..], j);
    }
  }

  lemma {:induction false} InsertLast(sorted: seq<Job>, j: Job, priority: int, since: int)
    requires Ranked(sorted)
    ensures SameRank(Insert(sorted, j), priority, since)
            == SameRank(sorted, priority, since) + SameRank([j], priority, since)
  {
    if sorted == [] {
    } else if Before(j.row, sorted[0].row) {
      assert ([j] + sorted)[1..] == sorted;
      if j.row.priority == priority && j.row.since == since {
        NoneOfRank(sorted, priority, since);
      }
    } else {
      InsertLast(sorted[1..], j, priority, since);
      assert ([sorted[0]] + Insert(sorted[1..], j))[1..] == Insert(sorted[1..], j);
    }
  }

  lemma {:induction false} NoneOfRank(sorted: seq<Job>, priority: int, since: int)
    requires Ranked(sorted) && sorted != []
    requires priority < sorted[0].row.priority || (priority == sorted[0].row.priority && since < sorted[0].row.since)
    ensures SameRank(sorted, priority, since) == []
  {
    if |sorted| > 1 {
      assert sorted[1] in sorted[1..];
      NoneOfRank(sorted[1..], priority, since);
    }
  }

  lemma {:induction false} SameRankAppend(jobs: seq<Job>, j: Job, priority: int, since: int)
    ensures SameRank(jobs + [j], priority, since) == SameRank(jobs, priority, since) + SameRank([j], priority, since)
  {
    if jobs == [] {
      assert [] + [j] == [j];
    } else {
      assert (jobs + [j])[1..] == jobs[1..] + [j];
      SameRankAppend(jobs[1..], j, priority, since);
    }
  }

  lemma {:induction false} RunOrderRanks(jobs: seq<Job>)
    ensures Ranked(InRunOrder(jobs))
    ensures multiset(InRunOrder(jobs)) == multiset(jobs)
  {
    if jobs != [] {
      var n := |jobs| - 1;
      RunOrderRanks(jobs[..n]);
      InsertExact(InRunOrder(jobs[..n]), jobs[n]);
      InsertRanks(InRunOrder(jobs[..n]), jobs[n]);
      hide Ranked, Insert;
      assert jobs == jobs[..n] + [jobs[n]];
    }
  }

  lemma {:induction false} RunOrderKeepsTies(jobs: seq<Job>, priority: int, since: int)
    ensures SameRank(InRunOrder(jobs), priority, since) == SameRank(jobs, priority, since)
  {
    if jobs != [] {
      var n := |jobs| - 1;
      RunOrderKeepsTies(jobs[..n], priority, since);
      RunOrderRanks(jobs[..n]);
      InsertLast(InRunOrder(jobs[..n]), jobs[n], priority, since);
      SameRankAppend(jobs[..n], jobs[n], priority, since);
      hide Ranked, Insert, SameRank;
      assert jobs == jobs[..n] + [jobs[n]];
    }
  }

  /** The run order is a stable sort: the same jobs, ranked, ties as they were. */
  lemma RunOrderIsStableSort(jobs: seq<Job>)
    ensures Ranked(InRunOrder(jobs))
    ensures multiset(InRunOrder(jobs)) == multiset(jobs)
    ensures forall x :: x in InRunOrder(jobs) <==> x in jobs
    ensures forall priority, since :: SameRank(InRunOrder(jobs), priority, since) == SameRank(jobs, priority, since)
  {
    hide InRunOrder, SameRank;
    RunOrderRanks(jobs);
    forall x
      ensures x in InRunOrder(jobs) <==> x in jobs
    {
      assert x in InRunOrder(jobs) <==> x in multiset(InRunOrder(jobs));
      assert x in jobs <==> x in multiset(jobs);
    }
    forall priority, since
      ensures SameRank(InRunOrder(jobs), priority, since) == SameRank(jobs, priority, since)
    {
      RunOrderKeepsTies(jobs, priority, since);
    }
  }

  /** The head of the ranking: no queued job should run before it. */
  lemma HeadIsNext(w: World, s: Status)
    requires OrderOk(w)
    ensures var ranked := InRunOrder(ListByStatus(w, s));
            && (ranked == [] <==> forall id | id in w.jobs :: w.jobs[id].status != s)
            && (ranked != [] ==>
                  && ranked[0].id in w.jobs && w.jobs[ranked[0].id].status == s
                  && forall id | id in w.jobs && w.jobs[id].status == s :: InTurn(w.jobs[ranked[0].id], w.jobs[id]))
  {
    var listed := ListByStatus(w, s);
    var ranked := InRunOrder(listed);
    ListExact(w, s);
    RunOrderIsStableSort(listed);
    forall id | id in w.jobs && w.jobs[id].status == s
      ensures ranked != [] && InTurn(ranked[0].row, w.jobs[id])
    {
      var j := Job(id, w.jobs[id]);
      assert j in listed && j in ranked;
      assert ranked == [ranked[0]] + ranked[1..];
    }
    if ranked != [] {
      assert ranked[0] in ranked && ranked[0] in listed;
    }
  }
}
