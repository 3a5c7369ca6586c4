/**
 * The client's view of the pool: the collector that locates a schedd, the
 * schedd's transaction, queue, spool, query, retrieve and edit calls, and the
 * bindings' local expansion of a submit description into job ads. None of
 * these is modelled inside; each call appends an entry to an operation log,
 * and what the pool answers (which schedds exist, the next cluster id, the
 * job statuses each query returns) comes from oracles fixed at construction.
 * The ordering the protocol needs is a predicate on that log.
 */
module Scheduler {
  import opened Wrappers
  import opened Text
  import Remaps

  /** The JobStatus value of a completed job. */
  const COMPLETED: int := 4
  /** The marker attribute the client sets once it has fetched the output. */
  const RETRIEVED := "RETRIEVED"

  /** One row of item data: per-job substitution values. */
  type Item = map<string, string>
  /** A job ad, as an attribute-to-text map. */
  type JobAd = map<string, string>
  /** `Submit.jobs(count, itemdata, clusterid)` on a description. */
  type Expansion = (map<string, string>, nat, seq<Item>, nat) -> seq<JobAd>

  /** What `queue_with_itemdata` returns; `cluster()` reads the id. */
  datatype SubmitResult = SubmitResult(cluster: nat)

  datatype Error = ScheddNotFound(schedd: string) | PollsExhausted

  /** One observable step of a run. */
  datatype Op =
    | Locate(pool: string, schedd: string, found: bool)
    | BeginTransaction
    | Queue(description: map<string, string>, count: nat, itemdata: seq<Item>, cluster: nat)
    | CommitTransaction
    | Jobs(description: map<string, string>, count: nat, itemdata: seq<Item>, cluster: nat, ads: seq<JobAd>)
    | Spool(ads: seq<JobAd>)
    | Sleep(seconds: nat)
    | Query(constraint: string, projection: seq<string>, statuses: seq<int>)
    | Retrieve(constraint: string)
    | Edit(constraint: string, attribute: string, value: string)

  // ---------------------------------------------------------------------------
  // Constraints

  const CLUSTER_PREFIX := "ClusterID == "

  /** `f"ClusterID == {cluster}"`. */
  function ClusterConstraint(cluster: nat): (c: string)
    ensures |c| > |CLUSTER_PREFIX| && c[..|CLUSTER_PREFIX|] == CLUSTER_PREFIX
    ensures AllDigits(c[|CLUSTER_PREFIX|..])
  {
    CLUSTER_PREFIX + NatToString(cluster)
  }

  /** The cluster id a constraint of that form selects. */
  function ConstraintCluster(c: string): Option<nat> {
    if |c| >= |CLUSTER_PREFIX| && c[..|CLUSTER_PREFIX|] == CLUSTER_PREFIX
    then ParseNat(c[|CLUSTER_PREFIX|..])
    else None
  }

  /** The constraint selects exactly the cluster it was built from. */
  lemma ClusterConstraintRoundTrip(cluster: nat)
    ensures ConstraintCluster(ClusterConstraint(cluster)) == Some(cluster)
  {
    var c := ClusterConstraint(cluster);
    assert c[|CLUSTER_PREFIX|..] == NatToString(cluster);
    NatToStringRoundTrip(cluster);
  }

  // ---------------------------------------------------------------------------
  // Polling

  /** `all(status == COMPLETED for status in statuses)`; true of no statuses. */
  predicate AllCompleted(statuses: seq<int>) {
    forall i :: 0 <= i < |statuses| ==> statuses[i] == COMPLETED
  }

  /** The index of the first poll whose statuses are all completed. */
  function FirstCompleted(polls: seq<seq<int>>): (k: Option<nat>)
    ensures k.Some? ==> k.value < |polls| && AllCompleted(polls[k.value])
    ensures k.Some? ==> forall j :: 0 <= j < k.value ==> !AllCompleted(polls[j])
    ensures k.None? <==> forall j :: 0 <= j < |polls| ==> !AllCompleted(polls[j])
  {
    if polls == [] then None
    else if AllCompleted(polls[0]) then Some(0)
    else match FirstCompleted(polls[1..]) {
      case Some(k) => Some(k + 1)
      case None => None
    }
  }

  /** How many polls a wait consumes: up to the first all-completed one, or all of them. */
  function Polled(polls: seq<seq<int>>): (n: nat)
    ensures n <= |polls|
  {
    match FirstCompleted(polls)
    case Some(k) => k + 1
    case None => |polls|
  }

  /** The log of a run of the poll loop over the given answers. */
  function PollOps(polls: seq<seq<int>>, constraint: string, projection: seq<string>, interval: nat): (r: seq<Op>)
    ensures |r| == 2 * |polls|
  {
    if polls == [] then []
    else [Sleep(interval), Query(constraint, projection, polls[0])] + PollOps(polls[1..], constraint, projection, interval)
  }

  /** Each poll is a sleep followed by a query that returns that poll's statuses. */
  lemma {:induction false} PollOpsAt(polls: seq<seq<int>>, constraint: string, projection: seq<string>, interval: nat, j: nat)
    requires j < |polls|
    ensures PollOps(polls, constraint, projection, interval)[2 * j] == Sleep(interval)
    ensures PollOps(polls, constraint, projection, interval)[2 * j + 1] == Query(constraint, projection, polls[j])
  {
    if j > 0 {
      PollOpsAt(polls[1..], constraint, projection, interval, j - 1);
    }
  }

  lemma {:induction false} PollOpsAppend(a: seq<seq<int>>, b: seq<seq<int>>, constraint: string, projection: seq<string>, interval: nat)
    ensures PollOps(a + b, constraint, projection, interval)
         == PollOps(a, constraint, projection, interval) + PollOps(b, constraint, projection, interval)
  {
    if a == [] {
      assert a + b == b;
    } else {
      assert (a + b)[1..] == a[1..] + b;
      PollOpsAppend(a[1..], b, constraint, projection, interval);
    }
  }

  /** One more poll adds one sleep and one query to the log. */
  lemma PollOpsSnoc(polls: seq<seq<int>>, constraint: string, projection: seq<string>, interval: nat, n: nat)
    requires n < |polls|
    ensures PollOps(polls[..n + 1], constraint, projection, interval)
         == PollOps(polls[..n], constraint, projection, interval) + [Sleep(interval), Query(constraint, projection, polls[n])]
  {
    assert polls[..n + 1] == polls[..n] + [polls[n]];
    PollOpsAppend(polls[..n], [polls[n]], constraint, projection, interval);
    assert [polls[n]][1..] == [];
  }

  /** The statuses every Query in a log returned, in order. */
  function QueriedStatuses(t: seq<Op>): seq<seq<int>> {
    if t == [] then []
    else (if t[0].Query? then [t[0].statuses] else []) + QueriedStatuses(t[1..])
  }

  lemma {:induction false} QueriedStatusesAppend(a: seq<Op>, b: seq<Op>)
    ensures QueriedStatuses(a + b) == QueriedStatuses(a) + QueriedStatuses(b)
  {
    if a == [] {
      assert a + b == b;
    } else {
      var ab := a + b;
      assert ab[0] == a[0] && ab[1..] == a[1..] + b;
      QueriedStatusesAppend(a[1..], b);
      var h := if a[0].Query? then [a[0].statuses] else [];
      assert QueriedStatuses(ab) == h + (QueriedStatuses(a[1..]) + QueriedStatuses(b));
      assert QueriedStatuses(a) == h + QueriedStatuses(a[1..]);
    }
  }

  /** The poll loop queries exactly the answers it consumes, in order. */
  lemma {:induction false} QueriedStatusesOfPolls(polls: seq<seq<int>>, constraint: string, projection: seq<string>, interval: nat)
    ensures QueriedStatuses(PollOps(polls, constraint, projection, interval)) == polls
  {
    if polls != [] {
      var head: seq<Op> := [Sleep(interval), Query(constraint, projection, polls[0])];
      QueriedStatusesAppend(head, PollOps(polls[1..], constraint, projection, interval));
      QueriedStatusesOfPolls(polls[1..], constraint, projection, interval);
      assert QueriedStatuses(head) == [polls[0]] by {
        assert head[1..][1..] == [];
      }
      assert [polls[0]] + polls[1..] == polls;
    }
  }

  // ---------------------------------------------------------------------------
  // The logs of `submit` and `retrieve`

  /**
   * The log of `submit` after the description rewrite: locate the schedd;
   * if it exists, queue inside one transaction, expand the same item data
   * with the returned cluster id, and spool exactly those ads.
   */
  function SubmitTrace(pool: string, schedd: string, found: bool, description: map<string, string>,
                       count: nat, itemdata: seq<Item>, cluster: nat, ads: seq<JobAd>): (log: seq<Op>)
    ensures |log| == (if found then 6 else 1) && log[0] == Locate(pool, schedd, found)
  {
    [Locate(pool, schedd, found)]
    + if !found then []
      else [BeginTransaction, Queue(description, count, itemdata, cluster), CommitTransaction,
            Jobs(description, count, itemdata, cluster, ads), Spool(ads)]
  }

  /**
   * The log of `retrieve`: locate the schedd; if it exists, sleep and query
   * until the first poll whose statuses are all completed, then retrieve and
   * mark the jobs retrieved. Without such a poll among the answers the loop
   * runs out of answers and the log ends after the last query.
   */
  function RetrieveTrace(pool: string, schedd: string, found: bool, constraint: string,
                         projection: seq<string>, interval: nat, polls: seq<seq<int>>): (log: seq<Op>)
    ensures |log| == 1 + (if !found then 0
                          else 2 * Polled(polls) + (if FirstCompleted(polls).Some? then 2 else 0))
    ensures log[0] == Locate(pool, schedd, found)
  {
    [Locate(pool, schedd, found)]
    + if !found then []
      else
        PollOps(polls[..Polled(polls)], constraint, projection, interval)
        + (if FirstCompleted(polls).Some? then [Retrieve(constraint), Edit(constraint, RETRIEVED, "true")] else [])
  }

  // ---------------------------------------------------------------------------
  // The ordering the protocol promises

  /**
   * The rule the entry at index i of a log must meet. A Queue sits directly
   * between BeginTransaction and CommitTransaction; a Jobs expansion directly
   * follows the committed Queue of the same description, count, item data
   * and cluster; a Spool directly follows the Jobs expansion whose ads it
   * sends; a Retrieve directly follows a query of its constraint that saw
   * only completed jobs; an Edit sets the retrieved marker to true directly
   * after a Retrieve of its constraint.
   */
  predicate WellPlaced(log: seq<Op>, i: nat)
    requires i < |log|
  {
    match log[i]
    case Queue(d, c, items, cl) =>
      0 < i < |log| - 1 && log[i - 1] == BeginTransaction && log[i + 1] == CommitTransaction
    case Jobs(d, c, items, cl, _) =>
      2 <= i && log[i - 1] == CommitTransaction && log[i - 2] == Queue(d, c, items, cl)
    case Spool(ads) =>
      1 <= i && log[i - 1].Jobs? && log[i - 1].ads == ads
    case Retrieve(c) =>
      1 <= i && log[i - 1].Query? && log[i - 1].constraint == c && AllCompleted(log[i - 1].statuses)
    case Edit(c, attribute, value) =>
      1 <= i && log[i - 1] == Retrieve(c) && attribute == RETRIEVED && value == "true"
    case _ => true
  }

  predicate WellOrdered(log: seq<Op>) {
    forall i :: 0 <= i < |log| ==> WellPlaced(log, i)
  }

  /** Runs one after another keep the ordering: every rule looks only inside one run. */
  lemma WellOrderedConcat(a: seq<Op>, b: seq<Op>)
    requires WellOrdered(a) && WellOrdered(b)
    ensures WellOrdered(a + b)
  {
    var ab := a + b;
    forall i | 0 <= i < |ab|
      ensures WellPlaced(ab, i)
    {
      if i < |a| {
        assert WellPlaced(a, i);
        assert ab[i] == a[i];
        if i >= 1 { assert ab[i - 1] == a[i - 1]; }
        if i >= 2 { assert ab[i - 2] == a[i - 2]; }
        if i + 1 < |a| { assert ab[i + 1] == a[i + 1]; }
      } else {
        var j := i - |a|;
        assert WellPlaced(b, j);
        assert ab[i] == b[j];
        if j >= 1 { assert ab[i - 1] == b[j - 1]; }
        if j >= 2 { assert ab[i - 2] == b[j - 2]; }
        if j + 1 < |b| { assert ab[i + 1] == b[j + 1]; }
      }
    }
  }

  lemma SubmitTraceWellOrdered(pool: string, schedd: string, found: bool, description: map<string, string>,
                               count: nat, itemdata: seq<Item>, cluster: nat, ads: seq<JobAd>)
    ensures WellOrdered(SubmitTrace(pool, schedd, found, description, count, itemdata, cluster, ads))
  {
    var t := SubmitTrace(pool, schedd, found, description, count, itemdata, cluster, ads);
    forall i | 0 <= i < |t| ensures WellPlaced(t, i) {
      if found {
        assert i == 0 || i == 1 || i == 2 || i == 3 || i == 4 || i == 5;
      }
    }
  }

  /** The only entries of a poll loop's log are sleeps and queries. */
  lemma PollOpsKinds(polls: seq<seq<int>>, constraint: string, projection: seq<string>, interval: nat, i: nat)
    requires i < |PollOps(polls, constraint, projection, interval)|
    ensures PollOps(polls, constraint, projection, interval)[i].Sleep? || PollOps(polls, constraint, projection, interval)[i].Query?
  {
    PollOpsAt(polls, constraint, projection, interval, i / 2);
  }

  lemma RetrieveTraceWellOrdered(pool: string, schedd: string, found: bool, constraint: string,
                                 projection: seq<string>, interval: nat, polls: seq<seq<int>>)
    ensures WellOrdered(RetrieveTrace(pool, schedd, found, constraint, projection, interval, polls))
  {
    var t := RetrieveTrace(pool, schedd, found, constraint, projection, interval, polls);
    if found {
      var n := Polled(polls);
      var p := PollOps(polls[..n], constraint, projection, interval);
      var tail: seq<Op> := if FirstCompleted(polls).Some? then [Retrieve(constraint), Edit(constraint, RETRIEVED, "true")] else [];
      assert t == [Locate(pool, schedd, true)] + p + tail;
      forall i | 0 <= i < |t| ensures WellPlaced(t, i) {
        if 1 <= i < 1 + |p| {
          assert t[i] == p[i - 1];
          PollOpsKinds(polls[..n], constraint, projection, interval, i - 1);
        } else if i == 1 + |p| && tail != [] {
          var k := FirstCompleted(polls).value;
          PollOpsAt(polls[..n], constraint, projection, interval, k);
          assert t[i - 1] == p[2 * k + 1];
        }
      }
    }
  }

  /**
   * A successful wait queries every answer up to and including the first
   * all-completed one, and no other, in order.
   */
  lemma RetrieveTraceQueries(pool: string, schedd: string, constraint: string,
                             projection: seq<string>, interval: nat, polls: seq<seq<int>>)
    ensures QueriedStatuses(RetrieveTrace(pool, schedd, true, constraint, projection, interval, polls))
         == polls[..Polled(polls)]
  {
    var n := Polled(polls);
    var p := PollOps(polls[..n], constraint, projection, interval);
    var tail: seq<Op> := if FirstCompleted(polls).Some? then [Retrieve(constraint), Edit(constraint, RETRIEVED, "true")] else [];
    var locate: seq<Op> := [Locate(pool, schedd, true)];
    assert RetrieveTrace(pool, schedd, true, constraint, projection, interval, polls) == locate + p + tail;
    QueriedStatusesAppend(locate, p);
    QueriedStatusesAppend(locate + p, tail);
    QueriedStatusesOfPolls(polls[..n], constraint, projection, interval);
    assert QueriedStatuses(locate) == [] by {
      assert locate[1..] == [];
    }
    assert QueriedStatuses(tail) == [] by {
      if tail != [] {
        assert tail[1..][1..] == [];
      }
    }
  }

  /**
   * The only Retrieve and the only Edit of a run are its last two entries,
   * in that order, and they are there exactly when some answer was all
   * completed.
   */
  lemma RetrieveTraceEnds(pool: string, schedd: string, constraint: string,
                          projection: seq<string>, interval: nat, polls: seq<seq<int>>, t: seq<Op>)
    requires t == RetrieveTrace(pool, schedd, true, constraint, projection, interval, polls)
    ensures forall i :: 0 <= i < |t| && (t[i].Retrieve? || t[i].Edit?) ==> FirstCompleted(polls).Some? && i >= |t| - 2
    ensures FirstCompleted(polls).Some? ==>
      t[|t| - 2] == Retrieve(constraint) && t[|t| - 1] == Edit(constraint, RETRIEVED, "true")
  {
    var n := Polled(polls);
    var p := PollOps(polls[..n], constraint, projection, interval);
    var tail: seq<Op> := if FirstCompleted(polls).Some? then [Retrieve(constraint), Edit(constraint, RETRIEVED, "true")] else [];
    assert t == [Locate(pool, schedd, true)] + p + tail;
    forall i | 0 <= i < |t| && (t[i].Retrieve? || t[i].Edit?)
      ensures FirstCompleted(polls).Some? && i >= |t| - 2
    {
      if 1 <= i < 1 + |p| {
        assert t[i] == p[i - 1];
        PollOpsKinds(polls[..n], constraint, projection, interval, i - 1);
      }
    }
  }

  // ---------------------------------------------------------------------------
  // The objects

  /** `htcondor.Submit`: a submit description the client edits in place. */
  class SubmitDescription {
    var entries: map<string, string>

    constructor (entries: map<string, string>)
      ensures this.entries == entries
    {
      this.entries := entries;
    }

    /** `submit.get(key, "")`. */
    function Get(key: string): (v: string)
      reads this
      ensures key in entries ==> v == entries[key]
      ensures key !in entries ==> v == ""
    {
      Remaps.Get(entries, key)
    }

    /** `submit[key] = value`. */
    method Set(key: string, value: string)
      modifies this
      ensures entries == old(entries)[key := value]
    {
      entries := entries[key := value];
    }
  }

  /** The pool and its schedds, as the client sees them through the bindings. */
  class Remote {
    /** Everything the client has done so far, in order. */
    var trace: seq<Op>
    /** The schedd names the collector knows. */
    const registered: set<string>
    /** The bindings' expansion of a description into job ads. */
    const expand: Expansion
    /** The cluster id the schedd hands out next. */
    var nextCluster: nat
    var inTransaction: bool
    /** The statuses the schedd's queries will return, in order. */
    var polls: seq<seq<int>>

    constructor (registered: set<string>, expand: Expansion, firstCluster: nat, polls: seq<seq<int>>)
      ensures this.registered == registered && this.expand == expand
      ensures trace == [] && nextCluster == firstCluster && !inTransaction && this.polls == polls
    {
      this.registered := registered;
      this.expand := expand;
      trace := [];
      nextCluster := firstCluster;
      inTransaction := false;
      this.polls := polls;
    }

    /** `Collector(pool).locate(DaemonTypes.Schedd, schedd)`; false stands for its NotFound error. */
    method Locate(pool: string, schedd: string) returns (found: bool)
      modifies this`trace
      ensures found == (schedd in registered)
      ensures trace == old(trace) + [Op.Locate(pool, schedd, found)]
    {
      found := schedd in registered;
      trace := trace + [Op.Locate(pool, schedd, found)];
    }

    /** Entering `with schedd.transaction() as txn:`. */
    method BeginTransaction()
      requires !inTransaction
      modifies this`trace, this`inTransaction
      ensures inTransaction
      ensures trace == old(trace) + [Op.BeginTransaction]
    {
      inTransaction := true;
      trace := trace + [Op.BeginTransaction];
    }

    /** `submit.queue_with_itemdata(txn, count, itemdata)`: a new cluster. */
    method QueueWithItemdata(description: map<string, string>, count: nat, itemdata: seq<Item>)
      returns (result: SubmitResult)
      requires inTransaction
      modifies this`trace, this`nextCluster
      ensures result == SubmitResult(old(nextCluster)) && nextCluster == old(nextCluster) + 1
      ensures trace == old(trace) + [Op.Queue(description, count, itemdata, result.cluster)]
    {
      result := SubmitResult(nextCluster);
      nextCluster := nextCluster + 1;
      trace := trace + [Op.Queue(description, count, itemdata, result.cluster)];
    }

    /** Leaving the `with` block: the transaction commits. */
    method CommitTransaction()
      requires inTransaction
      modifies this`trace, this`inTransaction
      ensures !inTransaction
      ensures trace == old(trace) + [Op.CommitTransaction]
    {
      inTransaction := false;
      trace := trace + [Op.CommitTransaction];
    }

    /** `list(submit.jobs(count, itemdata, clusterid))`. */
    method Jobs(description: map<string, string>, count: nat, itemdata: seq<Item>, cluster: nat)
      returns (ads: seq<JobAd>)
      modifies this`trace
      ensures ads == expand(description, count, itemdata, cluster)
      ensures trace == old(trace) + [Op.Jobs(description, count, itemdata, cluster, ads)]
    {
      ads := expand(description, count, itemdata, cluster);
      trace := trace + [Op.Jobs(description, count, itemdata, cluster, ads)];
    }

    /** `schedd.spool(ads)`: send the input files and release the jobs. */
    method Spool(ads: seq<JobAd>)
      modifies this`trace
      ensures trace == old(trace) + [Op.Spool(ads)]
    {
      trace := trace + [Op.Spool(ads)];
    }

    /** `time.sleep(seconds)`. */
    method Sleep(seconds: nat)
      modifies this`trace
      ensures trace == old(trace) + [Op.Sleep(seconds)]
    {
      trace := trace + [Op.Sleep(seconds)];
    }

    /** `[ad["JobStatus"] for ad in schedd.query(constraint, projection)]`: the next answer. */
    method Query(constraint: string, projection: seq<string>) returns (statuses: seq<int>)
      requires polls != []
      modifies this`trace, this`polls
      ensures statuses == old(polls)[0] && polls == old(polls)[1..]
      ensures trace == old(trace) + [Op.Query(constraint, projection, statuses)]
    {
      statuses := polls[0];
      polls := polls[1..];
      trace := trace + [Op.Query(constraint, projection, statuses)];
    }

    /** `schedd.retrieve(constraint)`: fetch the output files. */
    method Retrieve(constraint: string)
      modifies this`trace
      ensures trace == old(trace) + [Op.Retrieve(constraint)]
    {
      trace := trace + [Op.Retrieve(constraint)];
    }

    /** `schedd.edit(constraint, attribute, value)`. */
    method Edit(constraint: string, attribute: string, value: string)
      modifies this`trace
      ensures trace == old(trace) + [Op.Edit(constraint, attribute, value)]
    {
      trace := trace + [Op.Edit(constraint, attribute, value)];
    }
  }
}
