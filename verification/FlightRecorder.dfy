/** The agent's rolling telemetry table and the federated query that pulls rows from it.
    SQLite is the sequence of rows in id order; rows with equal timestamps come back in that order. */
module FlightRecorder {
  import opened Options
  import opened StableSort
  import opened Text

  datatype Event = Event(ts: real, kind: string, process: Option<string>, pid: Option<int>,
                         user: Option<string>, ip: Option<string>)

  datatype Row = Row(id: nat, event: Event) {
    function Ts(): real { event.ts }
  }

  const QUEUE_LIMIT: nat := 10_000
  const MAX_BATCH: nat := 256

  /** The bounded queue in front of the table, and the table. */
  class Recorder {
    var queue: seq<Event>
    var table: seq<Row>
    var nextId: nat

    ghost predicate Valid()
      reads this
    {
      UniqueIds(table) && forall r :: r in table ==> r.id < nextId
    }

    constructor ()
      ensures Valid() && queue == [] && table == [] && nextId == 0
    {
      queue, table, nextId := [], [], 0;
    }

    /** Never blocks: a full queue drops the event. */
    method Record(e: Event)
      requires Valid()
      modifies this`queue
      ensures Valid()
      ensures queue == if old(|queue|) < QUEUE_LIMIT then old(queue) + [e] else old(queue)
    {
      if |queue| < QUEUE_LIMIT {
        queue := queue + [e];
      }
    }

    method DrainQueue() returns (batch: seq<Event>)
      requires Valid()
      modifies this`queue
      ensures Valid()
      ensures batch + queue == old(queue)
      ensures |batch| == MAX_BATCH || (|batch| < MAX_BATCH && queue == [])
    {
      batch := [];
      while |batch| < MAX_BATCH && queue != []
        invariant batch + queue == old(queue) && |batch| <= MAX_BATCH
        decreases |queue|
      {
        batch, queue := batch + [queue[0]], queue[1..];
      }
    }

    method InsertBatch(batch: seq<Event>)
      requires Valid()
      modifies this`table, this`nextId
      ensures Valid()
      ensures nextId == old(nextId) + |batch|
      ensures Events(table) == Events(old(table)) + batch
      ensures old(table) <= table
    {
      var i := 0;
      while i < |batch|
        invariant 0 <= i <= |batch| && nextId == old(nextId) + i && Valid()
        invariant old(table) <= table
        invariant Events(table) == Events(old(table)) + batch[..i]
      {
        table, nextId := table + [Row(nextId, batch[i])], nextId + 1;
        i := i + 1;
      }
      assert batch[..i] == batch;
    }

    /**
     * One turn of the writer thread, pruning when `cutoff` is given. No queued event is lost, repeated or reordered,
     * except that an insert that fails loses exactly its batch.
     */
    method WriterCycle(fails: bool, cutoff: Option<real>) returns (ghost batch: seq<Event>)
      requires Valid()
      modifies this
      ensures Valid() && batch + queue == old(queue)
      ensures |batch| == MAX_BATCH || (|batch| < MAX_BATCH && queue == [])
      ensures cutoff.None? ==> Events(table) == Events(old(table)) + if fails then [] else batch
      ensures cutoff.Some? && fails ==> table == Recent(old(table), cutoff.value)
      ensures cutoff.Some? && !fails ==>
                exists grown :: Events(grown) == Events(old(table)) + batch && old(table) <= grown
                                && table == Recent(grown, cutoff.value)
    {
      var drained := DrainQueue();
      batch := drained;
      if !fails { InsertBatch(drained); }
      assert fails ==> Events(table) == Events(table) + [];
      if cutoff.Some? {
        ghost var grown := table;
        Prune(cutoff.value);
      }
    }

    method Prune(cutoff: real)
      requires Valid()
      modifies this`table
      ensures Valid()
      ensures table == Recent(old(table), cutoff)
    {
      RecentMembers(table, cutoff);
      RecentUnique(table, cutoff);
      table := Recent(table, cutoff);
    }
  }

  ghost function Events(rows: seq<Row>): (es: seq<Event>)
    ensures |es| == |rows|
    ensures forall i :: 0 <= i < |rows| ==> es[i] == rows[i].event
  {
    seq(|rows|, i requires 0 <= i < |rows| => rows[i].event)
  }

  ghost predicate UniqueIds(rows: seq<Row>) {
    forall i, j :: 0 <= i < j < |rows| ==> rows[i].id != rows[j].id
  }

  function Recent(rows: seq<Row>, cutoff: real): seq<Row> {
    if rows == [] then []
    else
      var last := rows[|rows| - 1];
      Recent(rows[..|rows| - 1], cutoff) + if last.Ts() < cutoff then [] else [last]
  }

  lemma {:induction false} RecentMembers(rows: seq<Row>, cutoff: real)
    ensures forall r :: r in Recent(rows, cutoff) <==> r in rows && r.Ts() >= cutoff
  {
    if rows == [] {
    } else {
      var init := rows[..|rows| - 1];
      RecentMembers(init, cutoff);
      assert rows == init + [rows[|rows| - 1]];
    }
  }

  lemma {:induction false} RecentUnique(rows: seq<Row>, cutoff: real)
    requires UniqueIds(rows)
    ensures UniqueIds(Recent(rows, cutoff))
  {
    if rows == [] {
    } else {
      var init := rows[..|rows| - 1];
      RecentUnique(init, cutoff);
      RecentMembers(init, cutoff);
      forall r | r in Recent(init, cutoff) ensures r.id != rows[|rows| - 1].id {
        assert r in init;
      }
    }
  }

  // ---- the WHERE clause of one query ----

  /** One of the three ways a pull narrows the table. An empty value adds no condition at all. */
  datatype Clause = ByPids(pids: set<int>) | ByIp(ip: string) | ByUser(user: string)

  const SQUELCHED_NAMES: set<string> := {
    "containerd-shim-runc-v2", "docker-proxy", "sleep", "watchdog.sh", "runningboardd",
    "com.apple.WebKit.Networking", "Mail", "healthcheck.sh", "cypher-shell", "java",
    "check_dns.sh", "dockerd"
  }

  /** Background noise: SQLite's LIKE compares ASCII letters without case, NOT IN with case. */
  predicate Squelched(e: Event) {
    e.process.Some? && ("kworker/" <= Lower(e.process.value) || e.process.value in SQUELCHED_NAMES)
  }

  function Aliases(user: string): set<string> {
    match user
    case "root" => {"0"}
    case "0" => {"root"}
    case "nobody" => {"65534"}
    case "65534" => {"nobody"}
    case _ => {}
  }

  predicate Hits(c: Clause, e: Event) {
    match c
    case ByPids(pids) => pids == {} || (e.pid.Some? && e.pid.value in pids)
    case ByIp(ip) => ip == "" || e.ip == Some(ip)
    case ByUser(user) => user == "" || (e.user.Some? && (e.user.value == user || e.user.value in Aliases(user)))
  }

  /** `since` is tested for truth, so a zero bound is no bound. */
  predicate AtOrAfter(since: Option<real>, e: Event) {
    since.None? || since.value == 0.0 || e.ts >= since.value
  }

  predicate Selects(cs: set<Clause>, since: Option<real>, e: Event) {
    AtOrAfter(since, e) && !Squelched(e) && exists c :: c in cs && Hits(c, e)
  }

  function Matching(rows: seq<Row>, cs: set<Clause>, since: Option<real>): seq<Row> {
    if rows == [] then []
    else
      var last := rows[|rows| - 1];
      Matching(rows[..|rows| - 1], cs, since) + if Selects(cs, since, last.event) then [last] else []
  }

  function Age(): Row -> real { (r: Row) => -r.Ts() }

  function Take<T>(s: seq<T>, n: nat): seq<T> { if |s| <= n then s else s[..n] }

  /** `SELECT ... ORDER BY timestamp DESC LIMIT limit`. */
  function Newest(rows: seq<Row>, cs: set<Clause>, since: Option<real>, limit: nat): seq<Row> {
    Take(Sort(Matching(rows, cs, since), Age()), limit)
  }

  lemma {:induction false} MatchingMembers(rows: seq<Row>, cs: set<Clause>, since: Option<real>)
    ensures forall r :: r in Matching(rows, cs, since) <==> r in rows && Selects(cs, since, r.event)
  {
    if rows == [] {
    } else {
      var init := rows[..|rows| - 1];
      MatchingMembers(init, cs, since);
      assert rows == init + [rows[|rows| - 1]];
    }
  }

  lemma {:induction false} MatchingUnique(rows: seq<Row>, cs: set<Clause>, since: Option<real>)
    requires UniqueIds(rows)
    ensures UniqueIds(Matching(rows, cs, since))
  {
    if rows == [] {
    } else {
      MatchingUnique(rows[..|rows| - 1], cs, since);
      MatchingMembers(rows[..|rows| - 1], cs, since);
    }
  }

  // ---- the merge of several queries ----

  datatype Filter = Filter(pids: set<int>, ips: seq<string>, users: seq<string>) {
    predicate Empty() { pids == {} && ips == [] && users == [] }

    /** The sub-queries in the order they are issued. */
    function Clauses(): seq<Clause> {
      (if pids == {} then [] else [ByPids(pids)])
        + seq(|ips|, i requires 0 <= i < |ips| => ByIp(ips[i]))
        + seq(|users|, i requires 0 <= i < |users| => ByUser(users[i]))
    }

    predicate Wants(since: Option<real>, e: Event) {
      Selects((set c | c in Clauses()), since, e)
    }
  }

  /** What the agent's search may make of a filter's anchor PIDs: any descendants besides them, and nothing from nothing. */
  predicate Resolution(f: Filter, pids: set<int>) {
    f.pids <= pids && (f.pids == {} ==> pids == {})
  }

  function Gathered(rows: seq<Row>, cs: seq<Clause>, since: Option<real>, limit: nat): seq<Row> {
    if cs == [] then []
    else Gathered(rows, cs[..|cs| - 1], since, limit) + Newest(rows, {cs[|cs| - 1]}, since, limit)
  }

  function Ids(rows: seq<Row>): set<nat> { set r | r in rows :: r.id }

  function Deduped(rows: seq<Row>): seq<Row> {
    if rows == [] then []
    else
      var init, last := rows[..|rows| - 1], rows[|rows| - 1];
      Deduped(init) + if last.id in Ids(init) then [] else [last]
  }

  function Pulled(rows: seq<Row>, f: Filter, since: Option<real>, limit: nat): seq<Row> {
    Take(Sort(Deduped(Gathered(rows, f.Clauses(), since, limit)), Age()), limit)
  }

  /** The query loops: one sub-query per clause, results appended in that order. */
  method Gather(rows: seq<Row>, cs: seq<Clause>, since: Option<real>, limit: nat) returns (all: seq<Row>)
    ensures all == Gathered(rows, cs, since, limit)
  {
    hide Newest;
    all := [];
    var n := 0;
    while n < |cs|
      invariant 0 <= n <= |cs| && all == Gathered(rows, cs[..n], since, limit)
    {
      assert cs[..n + 1][..n] == cs[..n];
      all := all + Newest(rows, {cs[n]}, since, limit);
      n := n + 1;
    }
    assert cs[..n] == cs;
  }

  method Dedupe(all: seq<Row>) returns (deduped: seq<Row>)
    ensures deduped == Deduped(all)
  {
    var seen: set<nat> := {};
    deduped := [];
    var k := 0;
    while k < |all|
      invariant 0 <= k <= |all|
      invariant seen == Ids(all[..k]) && deduped == Deduped(all[..k])
    {
      assert all[..k + 1][..k] == all[..k] && all[..k + 1] == all[..k] + [all[k]];
      if all[k].id !in seen {
        deduped := deduped + [all[k]];
      }
      seen := seen + {all[k].id};
      k := k + 1;
    }
    assert all[..k] == all;
  }

  /** The queries, the merge by id, the sort and the cut, for PIDs already resolved. */
  method MergeQueries(rows: seq<Row>, f: Filter, since: Option<real>, limit: nat) returns (records: seq<Row>)
    ensures records == Pulled(rows, f, since, limit)
  {
    var all := Gather(rows, f.Clauses(), since, limit);
    var deduped := Dedupe(all);
    deduped := Sort(deduped, Age());
    records := Take(deduped, limit);
  }
}
