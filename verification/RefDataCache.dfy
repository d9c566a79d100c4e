/**
 A version-stamped cache of published tables
 (quant/refdata/reader.py:39-95, quant/refdata/publisher.py:74-110).

 Redis keeps, for each schema, every snapshot ever committed; the last is the current one,
 and its position is the version stamp, 0 standing for a stamp that was never set. Other
 publishers may commit before any command is served.
 */
module RefDataCache {
  import opened Outcomes

  type Rows = seq<string>

  type Snapshot = map<string, Rows>

  datatype Schema = RefData | Config

  /** One atomic transaction: rows set, keys deleted, and the stamp bumped. */
  datatype Commit = Commit(schema: Schema, sets: Snapshot, deletes: set<string>)

  datatype RedisError = Unavailable

  datatype GetError = RedisDown | NotPublished | TableEmpty

  function After(current: Snapshot, c: Commit): Snapshot {
    (current - c.deletes) + c.sets
  }

  /** Every snapshot a schema ever had, the current one last. */
  type Log = l: seq<Snapshot> | l != [] witness [map[]]

  datatype History = History(refdata: Log, config: Log) {
    function Of(s: Schema): Log {
      match s
      case RefData => refdata
      case Config => config
    }
  }

  function Stamp(h: History, s: Schema): nat {
    |h.Of(s)| - 1
  }

  function Current(h: History, s: Schema): Snapshot {
    h.Of(s)[|h.Of(s)| - 1]
  }

  /** Snapshots are only ever added. */
  ghost predicate Grows(h: History, h': History) {
    forall s: Schema :: h.Of(s) <= h'.Of(s)
  }

  function LogAfter(log: Log, commits: seq<Commit>, s: Schema): (after: Log)
    ensures log <= after
  {
    if commits == [] then log
    else
      var n := |commits| - 1;
      var before := LogAfter(log, commits[..n], s);
      if commits[n].schema == s then before + [After(before[|before| - 1], commits[n])] else before
  }

  function CommitAll(h: History, commits: seq<Commit>): (h': History)
    ensures Grows(h, h')
  {
    History(LogAfter(h.refdata, commits, RefData), LogAfter(h.config, commits, Config))
  }

  lemma {:induction false} LogAppend(log: Log, first: seq<Commit>, second: seq<Commit>, s: Schema)
    ensures LogAfter(log, first + second, s) == LogAfter(LogAfter(log, first, s), second, s)
  {
    hide After;
    if second == [] {
      assert first + second == first;
    } else {
      var n := |second| - 1;
      assert (first + second)[..|first| + n] == first + second[..n];
      LogAppend(log, first, second[..n], s);
    }
  }

  lemma CommitAppend(h: History, first: seq<Commit>, second: seq<Commit>)
    ensures CommitAll(h, first + second) == CommitAll(CommitAll(h, first), second)
  {
    LogAppend(h.refdata, first, second, RefData);
    LogAppend(h.config, first, second, Config);
  }

  lemma CommitOnce(h: History, c: Commit)
    ensures CommitAll(h, [c]).Of(c.schema) == h.Of(c.schema) + [After(Current(h, c.schema), c)]
    ensures Current(CommitAll(h, [c]), c.schema) == After(Current(h, c.schema), c)
    ensures forall other | other != c.schema :: CommitAll(h, [c]).Of(other) == h.Of(other)
  {
    hide After;
    assert [c][..0] == [];
    assert LogAfter(h.refdata, [c][..0], RefData) == h.refdata && LogAfter(h.config, [c][..0], Config) == h.config;
    var log := h.Of(c.schema);
    assert LogAfter(log, [c], c.schema) == log + [After(log[|log| - 1], c)];
  }

  /** The last of the commits that touched the key set it. */
  predicate LeftSet(commits: seq<Commit>, s: Schema, key: string) {
    commits != [] &&
    var c := commits[|commits| - 1];
    if c.schema == s && key in c.sets then true
    else if c.schema == s && key in c.deletes then false
    else LeftSet(commits[..|commits| - 1], s, key)
  }

  lemma {:induction false} LeftSetStays(log: Log, commits: seq<Commit>, s: Schema, key: string)
    requires LeftSet(commits, s, key)
    ensures key in LogAfter(log, commits, s)[|LogAfter(log, commits, s)| - 1]
  {
    var n := |commits| - 1;
    if !(commits[n].schema == s && key in commits[n].sets) {
      LeftSetStays(log, commits[..n], s, key);
    }
  }

  /** A key that the commits neither set last nor took away was there all along. */
  lemma {:induction false} ThereAllAlong(log: Log, commits: seq<Commit>, s: Schema, key: string)
    requires !LeftSet(commits, s, key) && key in LogAfter(log, commits, s)[|LogAfter(log, commits, s)| - 1]
    ensures forall k | |log| - 1 <= k < |LogAfter(log, commits, s)| :: key in LogAfter(log, commits, s)[k]
  {
    if commits != [] {
      ThereAllAlong(log, commits[..|commits| - 1], s, key);
    }
  }

  /** Batch `i` of the commits other publishers make. */
  function Batch(pending: seq<seq<Commit>>, i: nat): seq<Commit> {
    if i < |pending| then pending[i] else []
  }

  /** Whether command `i` from now fails. */
  predicate FailsAt(faults: seq<bool>, i: nat) {
    i < |faults| && faults[i]
  }

  function Rest<T>(s: seq<T>): seq<T> {
    if s == [] then [] else s[1..]
  }

  class Redis {
    var history: History
    /** What other publishers commit before each of the coming commands, and which commands fail. */
    var pending: seq<seq<Commit>>
    var faults: seq<bool>

    constructor (pending: seq<seq<Commit>>, faults: seq<bool>)
      ensures this.pending == pending && this.faults == faults && history == History([map[]], [map[]])
    {
      history := History([map[]], [map[]]);
      this.pending, this.faults := pending, faults;
    }

    method Execute(c: Commit)
      modifies this`history
      ensures history == CommitAll(old(history), [c])
    {
      CommitOnce(history, c);
      hide CommitAll, After;
      var added := history.Of(c.schema) + [After(Current(history, c.schema), c)];
      history := if c.schema.RefData? then history.(refdata := added) else history.(config := added);
      assert forall s: Schema :: history.Of(s) == CommitAll(old(history), [c]).Of(s);
      assert history.Of(RefData) == history.refdata && history.Of(Config) == history.config;
    }

    /** The next batch of other publishers' commits. */
    method Interfere()
      modifies this`history, this`pending
      ensures history == CommitAll(old(history), Batch(old(pending), 0)) && pending == Rest(old(pending))
    {
      if pending == [] {
        return;
      }
      var batch := pending[0];
      for i := 0 to |batch|
        invariant history == CommitAll(old(history), batch[..i]) && pending == old(pending)
      {
        assert batch[..i + 1] == batch[..i] + [batch[i]];
        CommitAppend(old(history), batch[..i], [batch[i]]);
        Execute(batch[i]);
      }
      assert batch[..|batch|] == batch;
      pending := pending[1..];
    }

    method Fails() returns (down: bool)
      modifies this`faults
      ensures down == FailsAt(old(faults), 0) && faults == Rest(old(faults))
    {
      down := faults != [] && faults[0];
      faults := if faults == [] then [] else faults[1..];
    }

    /** `GET <schema>:version`. */
    method GetVersion(s: Schema) returns (r: Result<nat, RedisError>)
      modifies this
      ensures history == CommitAll(old(history), Batch(old(pending), 0))
      ensures pending == Rest(old(pending)) && faults == Rest(old(faults))
      ensures r == if FailsAt(old(faults), 0) then Err(Unavailable) else Ok(Stamp(history, s))
    {
      Interfere();
      var down := Fails();
      r := if down then Err(Unavailable) else Ok(Stamp(history, s));
    }

    /** `GET <schema>:<table>`. */
    method GetTable(s: Schema, table: string) returns (r: Result<Option<Rows>, RedisError>)
      modifies this
      ensures history == CommitAll(old(history), Batch(old(pending), 0))
      ensures pending == Rest(old(pending)) && faults == Rest(old(faults))
      ensures r == if FailsAt(old(faults), 0) then Err(Unavailable)
                   else Ok(if table in Current(history, s) then Some(Current(history, s)[table]) else None)
    {
      Interfere();
      var down := Fails();
      if down {
        return Err(Unavailable);
      }
      r := Ok(if table in Current(history, s) then Some(Current(history, s)[table]) else None);
    }

    /** `SCAN`: every key that is there throughout is returned; publishers may commit meanwhile. */
    method Scan(s: Schema) returns (r: Result<set<string>, RedisError>)
      modifies this
      ensures history == CommitAll(old(history), Batch(old(pending), 0))
      ensures pending == Rest(old(pending)) && faults == Rest(old(faults))
      ensures r.Err? == FailsAt(old(faults), 0)
      ensures r.Ok? ==> SawLasting(history.Of(s), Stamp(old(history), s), r.value)
      ensures r.Ok? && Batch(old(pending), 0) == [] ==> r.value == Current(old(history), s).Keys
    {
      var first := Stamp(history, s);
      Interfere();
      var down := Fails();
      if down {
        return Err(Unavailable);
      }
      var seen := history.Of(s)[first..];
      assert seen != [] && forall k | first <= k <= Stamp(history, s) :: history.Of(s)[k] == seen[k - first];
      KeysBounds(seen);
      var keys :| KeysThroughout(seen) <= keys <= KeysEver(seen);
      LastingSeen(history.Of(s), first, keys);
      r := Ok(keys);
    }
  }

  /** The scan returned every key that was there in each snapshot from `first` on. */
  ghost predicate SawLasting(snapshots: seq<Snapshot>, first: nat, keys: set<string>) {
    forall key :: (forall k | first <= k < |snapshots| :: key in snapshots[k]) ==> key in keys
  }

  /** The keys that every one of the snapshots has. */
  function KeysThroughout(h: seq<Snapshot>): (keys: set<string>)
    requires h != []
    ensures forall key :: key in keys <==> forall i | 0 <= i < |h| :: key in h[i]
  {
    if |h| == 1 then h[0].Keys
    else
      var n := |h| - 1;
      assert forall i | 0 <= i < n :: h[..n][i] == h[i];
      KeysThroughout(h[..n]) * h[n].Keys
  }

  function KeysEver(h: seq<Snapshot>): set<string> {
    if h == [] then {} else KeysEver(h[..|h| - 1]) + h[|h| - 1].Keys
  }

  lemma {:induction false} KeysBounds(h: seq<Snapshot>)
    requires h != []
    ensures KeysThroughout(h) <= KeysEver(h)
    ensures |h| == 1 ==> KeysEver(h) == h[0].Keys == KeysThroughout(h)
  {
    if |h| > 1 {
      KeysBounds(h[..|h| - 1]);
    } else {
      assert KeysEver(h[..0]) == {};
    }
  }

  lemma LastingSeen(snapshots: seq<Snapshot>, first: nat, keys: set<string>)
    requires first < |snapshots| && KeysThroughout(snapshots[first..]) <= keys
    ensures SawLasting(snapshots, first, keys)
  {
    var seen := snapshots[first..];
    forall key | forall k | first <= k < |snapshots| :: key in snapshots[k]
      ensures key in keys
    {
      assert forall i | 0 <= i < |seen| :: seen[i] == snapshots[first + i];
      assert key in KeysThroughout(seen);
    }
  }

  // ── the publisher ──────────────────────────────────────────────────────

  /** What the database gives for a table; none when loading it fails. */
  type Fetch = string -> Option<Rows>

  function RowsFor(fetch: Fetch, table: string): Rows {
    if fetch(table).Some? then fetch(table).value else []
  }

  /** Keys of the schema that are not tables. */
  predicate Reserved(key: string) {
    key == "version" || key == "invalidate"
  }

  class RefDataPublisher {
    const redis: Redis

    constructor (redis: Redis)
      ensures this.redis == redis
    {
      this.redis := redis;
    }

    /** A table that cannot be loaded is published empty. */
    method BuildSnapshot(tables: seq<string>, fetch: Fetch) returns (snapshot: Snapshot)
      ensures forall t :: t in snapshot <==> t in tables
      ensures forall t | t in snapshot :: snapshot[t] == RowsFor(fetch, t)
    {
      snapshot := map[];
      for i := 0 to |tables|
        invariant forall t :: t in snapshot <==> t in tables[..i]
        invariant forall t | t in snapshot :: snapshot[t] == RowsFor(fetch, t)
      {
        var rows := fetch(tables[i]);
        snapshot := snapshot[tables[i] := if rows.Some? then rows.value else []];
      }
    }

    /**
     `publish`: the tables, the keys to drop and the stamp change in one transaction, made
     of a scan that came before it. `was` is what it replaced.
     */
    method Publish(s: Schema, tables: seq<string>, fetch: Fetch)
      returns (r: Result<nat, RedisError>, ghost was: Snapshot, ghost scanned: set<string>)
      modifies redis
      ensures r.Err? <==> FailsAt(old(redis.faults), 0) || FailsAt(old(redis.faults), 1)
      ensures r.Err? ==>
                redis.history == CommitAll(old(redis.history), Meanwhile(old(redis.pending), if FailsAt(old(redis.faults), 0) then 1 else 2))
      ensures r.Ok? ==>
                var before := CommitAll(old(redis.history), Meanwhile(old(redis.pending), 2));
                && r.value == |set t | t in tables|
                && redis.history.Of(s) == before.Of(s) + [Current(redis.history, s)]
                && (forall other | other != s :: redis.history.Of(other) == before.Of(other))
                && was == Current(before, s)
                && Published(was, Current(redis.history, s), tables, fetch, scanned)
      ensures r.Ok? ==>
                (OnlyTables(Current(redis.history, s), tables)
                 <==> NoneSlippedIn(Meanwhile(old(redis.pending), 2), s, tables, scanned))
      ensures r.Ok? && Batch(old(redis.pending), 0) == [] ==> scanned == Current(old(redis.history), s).Keys
    {
      hide *;
      was, scanned := map[], {};
      var snapshot := BuildSnapshot(tables, fetch);
      assert snapshot.Keys == set t | t in tables;
      ghost var h := redis.history;
      ghost var first, second := Batch(redis.pending, 0), Batch(redis.pending, 1);
      CommitAppend(h, first, second);
      TwoCommands(redis.pending, redis.faults);
      var keys := redis.Scan(s);
      if keys.Err? {
        return Err(Unavailable), was, scanned;
      }
      scanned := keys.value;
      ghost var listed := redis.history;
      var doomed := set key | key in keys.value && key !in snapshot && !Reserved(key);
      var done := Transact(Commit(s, snapshot, doomed));
      if done.Err? {
        return Err(Unavailable), was, scanned;
      }
      was := Current(CommitAll(listed, second), s);
      CommitOnce(CommitAll(listed, second), Commit(s, snapshot, doomed));
      CommitPublishes(was, s, snapshot, doomed, tables, fetch, scanned);
      OnlyTablesExactly(h, first, second, s, Current(redis.history, s), tables, fetch, scanned);
      return Ok(|snapshot|), was, scanned;
    }

    /** `pipe.execute()`: all of it or none, after whatever other publishers commit first. */
    method Transact(c: Commit) returns (r: Result<(), RedisError>)
      modifies redis
      ensures (r.Err? <==> FailsAt(old(redis.faults), 0))
      ensures var before := CommitAll(old(redis.history), Batch(old(redis.pending), 0));
              redis.history == if r.Ok? then CommitAll(before, [c]) else before
    {
      redis.Interfere();
      var down := redis.Fails();
      if down {
        return Err(Unavailable);
      }
      redis.Execute(c);
      r := Ok(());
    }
  }

  /** What other publishers commit before the first command that is answered, or the first two. */
  function Meanwhile(pending: seq<seq<Commit>>, commands: nat): seq<Commit>
    requires commands <= 2
  {
    (if commands >= 1 then Batch(pending, 0) else []) + (if commands == 2 then Batch(pending, 1) else [])
  }

  lemma TwoCommands(pending: seq<seq<Commit>>, faults: seq<bool>)
    ensures Meanwhile(pending, 1) == Batch(pending, 0) && Meanwhile(pending, 2) == Batch(pending, 0) + Batch(pending, 1)
    ensures Batch(Rest(pending), 0) == Batch(pending, 1) && FailsAt(Rest(faults), 0) == FailsAt(faults, 1)
  {
  }

  /** Every table is there with its rows; of the other keys, those that the scan missed. */
  ghost predicate Published(was: Snapshot, now: Snapshot, tables: seq<string>, fetch: Fetch, scanned: set<string>) {
    && (forall t | t in tables :: t in now && now[t] == RowsFor(fetch, t))
    && forall key | key !in tables ::
         (key in now <==> key in was && (key !in scanned || key in {"version", "invalidate"})) && (key in now ==> now[key] == was[key])
  }

  lemma CommitPublishes(was: Snapshot, s: Schema, snapshot: Snapshot, doomed: set<string>, tables: seq<string>, fetch: Fetch,
                        scanned: set<string>)
    requires forall t :: t in snapshot <==> t in tables
    requires forall t | t in snapshot :: snapshot[t] == RowsFor(fetch, t)
    requires forall key :: key in doomed <==> key in scanned && key !in snapshot && !Reserved(key)
    ensures Published(was, After(was, Commit(s, snapshot, doomed)), tables, fetch, scanned)
  {
    hide RowsFor;
  }

  /** The tables that readers find are the publisher's own and no others. */
  ghost predicate OnlyTables(now: Snapshot, tables: seq<string>) {
    forall key | key !in {"version", "invalidate"} :: key in now <==> key in tables
  }

  /** Another publisher left a table that is not one of these, and the scan did not return it. */
  predicate SlippedIn(commits: seq<Commit>, s: Schema, tables: seq<string>, scanned: set<string>, key: string) {
    LeftSet(commits, s, key) && key !in {"version", "invalidate"} && key !in tables && key !in scanned
  }

  ghost predicate NoneSlippedIn(commits: seq<Commit>, s: Schema, tables: seq<string>, scanned: set<string>) {
    forall key :: !SlippedIn(commits, s, tables, scanned, key)
  }

  /** `first` came before the scan's end and `second` between the scan and the transaction. */
  lemma OnlyTablesExactly(h: History, first: seq<Commit>, second: seq<Commit>, s: Schema, now: Snapshot, tables: seq<string>,
                          fetch: Fetch, scanned: set<string>)
    requires SawLasting(CommitAll(h, first).Of(s), Stamp(h, s), scanned)
    requires Published(Current(CommitAll(h, first + second), s), now, tables, fetch, scanned)
    ensures OnlyTables(now, tables) <==> NoneSlippedIn(first + second, s, tables, scanned)
  {
    var commits := first + second;
    var last := CommitAll(h, commits);
    CommitAppend(h, first, second);
    CommitsByLog(h, s);
    hide CommitAll, LeftSet, LogAfter, RowsFor;
    forall key | key !in {"version", "invalidate"} && key !in tables
      ensures key in now <==> SlippedIn(commits, s, tables, scanned, key)
    {
      if LeftSet(commits, s, key) {
        LeftSetStays(h.Of(s), commits, s, key);
      } else if key in Current(last, s) {
        ThereAllAlong(h.Of(s), commits, s, key);
        assert forall k | Stamp(h, s) <= k < |CommitAll(h, first).Of(s)| :: CommitAll(h, first).Of(s)[k] == last.Of(s)[k];
      }
    }
  }

  lemma CommitsByLog(h: History, s: Schema)
    ensures forall commits :: CommitAll(h, commits).Of(s) == LogAfter(h.Of(s), commits, s)
  {
    hide LogAfter;
  }

  /**
   A second publisher commits a table between the scan and the transaction, and readers
   keep finding it after the publisher that never had it succeeds.
   */
  method SecondPublisherLeavesATable(fetch: Fetch) returns (redis: Redis)
    ensures fresh(redis) && "b" in Current(redis.history, RefData)
    ensures !OnlyTables(Current(redis.history, RefData), ["a"])
  {
    hide *;
    redis := new Redis([[], [AddsB()]], []);
    var publisher := new RefDataPublisher(redis);
    InBetween();
    var r, was, scanned := publisher.Publish(RefData, ["a"], fetch);
    ExtraTableStays(was, Current(redis.history, RefData), fetch, scanned);
  }

  function AddsB(): Commit {
    Commit(RefData, map["b" := ["row"]], {})
  }

  lemma InBetween()
    ensures Meanwhile([[], [AddsB()]], 2) == [AddsB()] && Batch([[], [AddsB()]], 0) == []
    ensures !FailsAt([], 0) && !FailsAt([], 1)
    ensures Current(History([map[]], [map[]]), RefData).Keys == {}
  {
  }

  lemma ExtraTableStays(was: Snapshot, now: Snapshot, fetch: Fetch, scanned: set<string>)
    requires was == Current(CommitAll(History([map[]], [map[]]), [AddsB()]), RefData) && scanned == {}
    requires Published(was, now, ["a"], fetch, scanned)
    ensures "b" in now && !OnlyTables(now, ["a"])
  {
    hide CommitAll, RowsFor;
    assert LeftSet([AddsB()], RefData, "b");
    LeftSetStays([map[]], [AddsB()], RefData, "b");
    AfterAddsB();
    assert "b" !in {"version", "invalidate"} && "b" !in ["a"];
  }

  lemma AfterAddsB()
    ensures Current(CommitAll(History([map[]], [map[]]), [AddsB()]), RefData)
            == LogAfter([map[]], [AddsB()], RefData)[|LogAfter([map[]], [AddsB()], RefData)| - 1]
  {
    hide LogAfter, AddsB;
  }

  // ── the reader ─────────────────────────────────────────────────────────

  /** The rows were committed at stamp `k`. */
  ghost predicate CommittedAt(h: History, s: Schema, table: string, rows: Rows, k: nat) {
    k < |h.Of(s)| && table in h.Of(s)[k] && h.Of(s)[k][table] == rows
  }

  /** Rows kept under a version were committed no earlier. */
  ghost predicate Cached(h: History, version: nat, key: (Schema, string), rows: Rows) {
    exists k :: version <= k && CommittedAt(h, key.0, key.1, rows, k)
  }

  /** Where the stamp is still that version, they are the current rows. */
  lemma CachedIsCurrent(h: History, key: (Schema, string), rows: Rows)
    requires Cached(h, Stamp(h, key.0), key, rows)
    ensures CommittedAt(h, key.0, key.1, rows, Stamp(h, key.0))
  {
  }

  type Store = map<(Schema, string), Rows>

  type Versions = map<Schema, nat>

  function VersionIn(versions: Versions, s: Schema): nat {
    if s in versions then versions[s] else 0
  }

  /** Every cached entry was committed no earlier than the version its schema is kept under. */
  ghost predicate StoreOk(h: History, store: Store, versions: Versions) {
    && (forall s :: VersionIn(versions, s) <= Stamp(h, s))
    && forall key | key in store :: Cached(h, VersionIn(versions, key.0), key, store[key])
  }

  /** The entries of one schema, and its version, are all that differ. */
  ghost predicate OthersKept(before: Store, was: Versions, after: Store, now: Versions, s: Schema) {
    && (forall key: (Schema, string) | key.0 != s :: (key in after <==> key in before) && (key in after ==> after[key] == before[key]))
    && forall other | other != s :: VersionIn(now, other) == VersionIn(was, other)
  }

  lemma DropOnly(store: Store, versions: Versions, s: Schema, version: nat)
    ensures OthersKept(store, versions, Dropped(store, s), versions[s := version], s)
  {
  }

  lemma NothingTouched(store: Store, versions: Versions, s: Schema)
    ensures OthersKept(store, versions, store, versions, s)
  {
  }

  function Dropped(store: Store, s: Schema): Store {
    map key | key in store && key.0 != s :: store[key]
  }

  lemma StoreStays(h: History, h': History, store: Store, versions: Versions)
    requires Grows(h, h') && StoreOk(h, store, versions)
    ensures StoreOk(h', store, versions) && forall s :: Stamp(h, s) <= Stamp(h', s)
  {
    forall key | key in store
      ensures Cached(h', VersionIn(versions, key.0), key, store[key])
    {
      var k :| VersionIn(versions, key.0) <= k && CommittedAt(h, key.0, key.1, store[key], k);
      assert CommittedAt(h', key.0, key.1, store[key], k);
    }
  }

  lemma DropKeeps(h: History, store: Store, versions: Versions, s: Schema)
    requires StoreOk(h, store, versions)
    ensures StoreOk(h, Dropped(store, s), versions[s := Stamp(h, s)])
  {
    hide Cached;
  }

  lemma AddKeeps(h: History, store: Store, versions: Versions, key: (Schema, string), rows: Rows)
    requires StoreOk(h, store, versions)
    requires CommittedAt(h, key.0, key.1, rows, Stamp(h, key.0))
    ensures StoreOk(h, store[key := rows], versions)
  {
    assert Cached(h, VersionIn(versions, key.0), key, rows);
    hide Cached;
  }

  lemma HitIsCurrent(h: History, store: Store, versions: Versions, key: (Schema, string))
    requires StoreOk(h, store, versions) && key in store
    requires VersionIn(versions, key.0) == Stamp(h, key.0)
    ensures CommittedAt(h, key.0, key.1, store[key], Stamp(h, key.0))
  {
    CachedIsCurrent(h, key, store[key]);
  }

  class RedisRefData {
    const redis: Redis
    var store: Store
    var versions: Versions

    ghost predicate Valid()
      reads this, redis
    {
      StoreOk(redis.history, store, versions)
    }

    constructor (redis: Redis)
      ensures Valid() && this.redis == redis && store == map[]
    {
      this.redis := redis;
      store, versions := map[], map[];
    }

    /** `_check_version`: a moved stamp drops the schema's entries. */
    method CheckVersion(s: Schema) returns (r: Result<(), GetError>)
      requires Valid()
      modifies this, redis
      ensures Valid() && Grows(old(redis.history), redis.history) && OthersKept(old(store), old(versions), store, versions, s)
      ensures redis.history == CommitAll(old(redis.history), Batch(old(redis.pending), 0))
      ensures redis.pending == Rest(old(redis.pending)) && redis.faults == Rest(old(redis.faults))
      ensures r == if FailsAt(old(redis.faults), 0) then Err(RedisDown) else Ok(())
      ensures r.Ok? ==> VersionIn(versions, s) == Stamp(redis.history, s)
      ensures r.Err? ==> store == old(store) && versions == old(versions)
      ensures r.Ok? ==>
                store == if VersionIn(versions, s) == VersionIn(old(versions), s) then old(store) else Dropped(old(store), s)
    {
      hide Grows, StoreOk, OthersKept, Dropped;
      NothingTouched(store, versions, s);
      var current := redis.GetVersion(s);
      StoreStays(old(redis.history), redis.history, store, versions);
      if current.Err? {
        return Err(RedisDown);
      }
      if current.value != VersionIn(versions, s) {
        DropKeeps(redis.history, store, versions, s);
        DropOnly(store, versions, s, current.value);
        store := Dropped(store, s);
        versions := versions[s := current.value];
      }
      return Ok(());
    }

    /** `_load_table`. An empty table is cached like any other. */
    method LoadTable(s: Schema, table: string) returns (r: Result<Rows, GetError>)
      requires Valid()
      modifies this, redis
      ensures Valid() && Grows(old(redis.history), redis.history) && OthersKept(old(store), old(versions), store, versions, s)
      ensures redis.history == CommitAll(old(redis.history), Batch(old(redis.pending), 0))
      ensures redis.pending == Rest(old(redis.pending)) && redis.faults == Rest(old(redis.faults))
      ensures r == if FailsAt(old(redis.faults), 0) then Err(RedisDown)
                   else if table !in Current(redis.history, s) then Err(NotPublished)
                   else Ok(Current(redis.history, s)[table])
      ensures store == if r.Ok? then old(store)[(s, table) := r.value] else old(store)
      ensures versions == old(versions)
    {
      hide Grows, StoreOk;
      var raw := redis.GetTable(s, table);
      StoreStays(old(redis.history), redis.history, store, versions);
      if raw.Err? {
        return Err(RedisDown);
      }
      if raw.value.None? {
        return Err(NotPublished);
      }
      var rows := raw.value.value;
      AddKeeps(redis.history, store, versions, (s, table), rows);
      store := store[(s, table) := rows];
      return Ok(rows);
    }

    /**
     `_get`. The answer is the one the committed snapshot gives at an instant `at` inside the
     call: for a cached hit the very moment the stamp was read, otherwise that of the load.
     */
    method Get(s: Schema, table: string) returns (r: Result<Rows, GetError>, ghost at: nat, ghost hit: bool, ghost checked: nat)
      requires Valid()
      modifies this, redis
      ensures Valid() && Grows(old(redis.history), redis.history) && OthersKept(old(store), old(versions), store, versions, s)
      ensures r == Err(RedisDown) <==> FailsAt(old(redis.faults), 0) || (!hit && FailsAt(old(redis.faults), 1))
      ensures redis.history
              == CommitAll(old(redis.history), Meanwhile(old(redis.pending), if hit || FailsAt(old(redis.faults), 0) then 1 else 2))
      ensures !FailsAt(old(redis.faults), 0) ==>
                checked == Stamp(CommitAll(old(redis.history), Batch(old(redis.pending), 0)), s)
      ensures hit <==>
              && !FailsAt(old(redis.faults), 0) && checked == VersionIn(old(versions), s)
              && (s, table) in old(store) && old(store)[(s, table)] != []
      ensures r != Err(RedisDown) ==>
                && Stamp(old(redis.history), s) <= checked <= at <= Stamp(redis.history, s)
                && at == (if hit then checked else Stamp(redis.history, s))
                && var rows := redis.history.Of(s)[at];
                   && (r == Err(NotPublished) <==> table !in rows)
                   && (r == Err(TableEmpty) <==> table in rows && rows[table] == [])
                   && (r.Ok? ==> table in rows && r.value == rows[table])
      ensures hit ==> r == Ok(old(store)[(s, table)])
    {
      hide StoreOk, CommitAll, FailsAt, Meanwhile, Batch, Rest;
      at, hit, checked := 0, false, 0;
      TwoCommands(redis.pending, redis.faults);
      CommitAppend(redis.history, Batch(redis.pending, 0), Batch(redis.pending, 1));
      var check := CheckVersion(s);
      if check.Err? {
        return Err(check.error), at, hit, checked;
      }
      checked := Stamp(redis.history, s);
      if IsCached(store, (s, table)) {
        hit, at := true, checked;
        HitIsCurrent(redis.history, store, versions, (s, table));
        r := Ok(store[(s, table)]);
        return;
      }
      var loaded := LoadTable(s, table);
      at := Stamp(redis.history, s);
      if loaded.Err? {
        return Err(loaded.error), at, hit, checked;
      }
      if loaded.value == [] {
        return Err(TableEmpty), at, hit, checked;
      }
      r := Ok(loaded.value);
    }
  }

  /** An entry that `or` does not pass over. */
  predicate IsCached(store: Store, key: (Schema, string)) {
    key in store && store[key] != []
  }
}
