/**
 * remote_submit.py: `submit` rewrites a submit description for spooling
 * (retrieved marker, queue-retention expression, hold, stdout/stderr remaps)
 * and then queues, expands and spools the jobs; `retrieve` polls the schedd
 * every five seconds until every job of the cluster is completed, then
 * fetches the output and marks the jobs retrieved.
 */
module RemoteSubmit {
  import opened Wrappers
  import opened Text
  import opened ClassAd
  import Remaps
  import opened Scheduler
  import opened Retention
  import opened Spooling

  /** `timedelta(days=3).total_seconds()`, the default removal delay, in seconds. */
  const DEFAULT_REMOVAL_DELAY: nat := 3 * 24 * 60 * 60
  /** The default delay, three days, is written `259200.0`. */
  lemma DefaultRemovalDelayText()
    ensures DEFAULT_REMOVAL_DELAY == 259200 && SecondsText(DEFAULT_REMOVAL_DELAY) == "259200.0"
  {
    ThreeDaysText();
  }

  /** Seconds slept before each poll. */
  const POLL_INTERVAL: nat := 5
  /** The one attribute each poll asks for. */
  const STATUS_PROJECTION: seq<string> := ["JobStatus"]

  /** `JobStatus == ( 4 && ( <date test> ) )`. */
  function StatusTest(delay: nat): Expr {
    Binary(Eq, Attr("JobStatus"), Group(Binary(And, IntLit(COMPLETED as nat), Group(DateTest(delay)))))
  }

  const NOT_RETRIEVED: Expr := Binary(Is, Attr(RETRIEVED), BoolLit(false))

  /**
   * The `leave_in_queue` expression: `JobStatus` compared with a group that
   * conjoins 4 with the date test, and `RETRIEVED IS false` disjoined at the
   * top level.
   */
  function LeaveInQueue(delay: nat): (e: Expr)
    ensures WellFormed(e)
  {
    DateTestWellFormed(delay);
    assert forall i :: 0 <= i < |"JobStatus"| ==> "JobStatus"[i] != '(' && "JobStatus"[i] != ')';
    assert forall i :: 0 <= i < |RETRIEVED| ==> RETRIEVED[i] != '(' && RETRIEVED[i] != ')';
    assert WellFormed(Attr("JobStatus")) && WellFormed(Attr(RETRIEVED));
    assert WellFormed(Group(Binary(And, IntLit(COMPLETED as nat), Group(DateTest(delay)))));
    assert WellFormed(StatusTest(delay)) && WellFormed(NOT_RETRIEVED);
    Binary(Or, StatusTest(delay), NOT_RETRIEVED)
  }

  const RETRIEVED_CLAUSE := " || RETRIEVED IS false"

  // Regrouping steps, stated over an arbitrary date-test text so that the
  // solver never looks inside it.

  lemma ConjunctionShape(d: string)
    ensures "( " + ("4" + " " + "&&" + " " + ("( " + d + " )")) + " )" == "( 4 && ( " + d + " ) )"
  {}

  lemma StatusShape(d: string)
    ensures "JobStatus" + " " + "==" + " " + ("( 4 && ( " + d + " ) )") == "JobStatus == ( 4 && ( " + d + " ) )"
  {}

  lemma ClauseShape(x: string)
    ensures x + " " + "||" + " " + ("RETRIEVED" + " " + "IS" + " " + "false") == x + RETRIEVED_CLAUSE
  {}

  lemma StatusTestText(delay: nat)
    ensures Serialize(StatusTest(delay)) == "JobStatus == ( 4 && ( " + Serialize(DateTest(delay)) + " ) )"
  {
    var d := Serialize(DateTest(delay));
    assert Serialize(IntLit(COMPLETED as nat)) == "4" by {
      assert COMPLETED as nat == 4 && NatToString(4) == "4";
    }
    var conj := Binary(And, IntLit(COMPLETED as nat), Group(DateTest(delay)));
    assert Serialize(conj) == "4" + " " + "&&" + " " + ("( " + d + " )");
    ConjunctionShape(d);
    assert Serialize(Group(conj)) == "( 4 && ( " + d + " ) )";
    StatusShape(d);
  }

  /**
   * The text written is the template with 4, CompletionDate and the removal
   * delay filled in (the date test's own text is Retention.DateTestText).
   */
  lemma LeaveInQueueText(delay: nat)
    ensures Serialize(LeaveInQueue(delay))
         == "JobStatus == ( 4 && ( " + Serialize(DateTest(delay)) + " ) )" + RETRIEVED_CLAUSE
  {
    StatusTestText(delay);
    ClauseShape(Serialize(StatusTest(delay)));
  }

  /**
   * `|| RETRIEVED IS false` closes the text, and every parenthesis opened
   * before it is closed before it: the disjunct is outside the
   * `JobStatus == ( ... )` group.
   */
  lemma RetrievedClauseAtTopLevel(delay: nat)
    ensures var text := Serialize(LeaveInQueue(delay));
      |text| > |RETRIEVED_CLAUSE|
      && text[|text| - |RETRIEVED_CLAUSE|..] == RETRIEVED_CLAUSE
      && Nesting(text[..|text| - |RETRIEVED_CLAUSE|]) == 0
  {
    var text := Serialize(LeaveInQueue(delay));
    var left := Serialize(StatusTest(delay));
    StatusTestText(delay);
    LeaveInQueueText(delay);
    assert text == left + RETRIEVED_CLAUSE;
    assert text[..|text| - |RETRIEVED_CLAUSE|] == left;
    DateTestWellFormed(delay);
    assert WellFormed(Group(DateTest(delay)));
    assert WellFormed(Binary(And, IntLit(COMPLETED as nat), Group(DateTest(delay))));
    SerializeBalanced(StatusTest(delay));
  }

  const LEAVE_IN_QUEUE_KEY := "leave_in_queue"

  /** The description after the five plain assignments of `submit`, in the source's order. */
  function Assigned(m: map<string, string>, leaveInQueue: string): map<string, string> {
    m[RETRIEVED_KEY := "false"][LEAVE_IN_QUEUE_KEY := leaveInQueue][HOLD_KEY := "true"]
     [HOLD_REASON_KEY := Quote(HOLD_REASON)][HOLD_REASON_CODE_KEY := HOLD_REASON_CODE]
  }

  /**
   * `submit` writes `leave_in_queue` second, right after the retrieved
   * marker, and none of the five assignments touches a key the remap merge
   * reads; merging afterwards therefore gives the spooling description.
   */
  lemma AssignmentOrder(m: map<string, string>, leaveInQueue: string)
    ensures LEAVE_IN_QUEUE_KEY !in FIXED_KEYS
    ensures Assigned(m, leaveInQueue)[Remaps.REMAPS := Remaps.MergedRemaps(Assigned(m, leaveInQueue))]
         == SpoolingDescription(m, LEAVE_IN_QUEUE_KEY, leaveInQueue)
  {
    assert LEAVE_IN_QUEUE_KEY !in FIXED_KEYS;
    AssignedKeepsRemapInputs(m, leaveInQueue);
    RetentionSecond(m, LEAVE_IN_QUEUE_KEY, leaveInQueue);
  }

  /** None of the five assignments touches a key the remap merge reads. */
  lemma AssignedKeepsRemapInputs(m: map<string, string>, leaveInQueue: string)
    ensures Remaps.MergedRemaps(Assigned(m, leaveInQueue)) == Remaps.MergedRemaps(m)
  {
    var d := Assigned(m, leaveInQueue);
    assert Remaps.Get(d, Remaps.REMAPS) == Remaps.Get(m, Remaps.REMAPS);
    assert Remaps.Get(d, "output") == Remaps.Get(m, "output");
    assert Remaps.Get(d, "error") == Remaps.Get(m, "error");
  }

  /**
   * Lines 25-48 of `submit`, with the rendered retention expression given:
   * the in-place rewrite of the description, in the source's order.
   */
  method RewriteWith(sub: SubmitDescription, leaveInQueue: string)
    modifies sub
    ensures LEAVE_IN_QUEUE_KEY !in FIXED_KEYS
    ensures sub.entries == SpoolingDescription(old(sub.entries), LEAVE_IN_QUEUE_KEY, leaveInQueue)
  {
    ghost var m := sub.entries;
    sub.Set(RETRIEVED_KEY, "false");
    sub.Set(LEAVE_IN_QUEUE_KEY, leaveInQueue);
    sub.Set(HOLD_KEY, "true");
    sub.Set(HOLD_REASON_KEY, Quote(HOLD_REASON));
    sub.Set(HOLD_REASON_CODE_KEY, HOLD_REASON_CODE);
    assert sub.entries == Assigned(m, leaveInQueue);
    AssignmentOrder(m, leaveInQueue);
    MergeRemaps(sub);
  }

  /** The rewrite with `leave_in_queue` rendered for the given removal delay. */
  method PrepareForSpooling(sub: SubmitDescription, removalDelay: nat)
    modifies sub
    ensures LEAVE_IN_QUEUE_KEY !in FIXED_KEYS
    ensures sub.entries == SpoolingDescription(old(sub.entries), LEAVE_IN_QUEUE_KEY, Serialize(LeaveInQueue(removalDelay)))
  {
    RewriteWith(sub, Serialize(LeaveInQueue(removalDelay)));
  }

  /**
   * `submit`: rewrite the description for spooling, then queue, expand and
   * spool with it. When the schedd is not found the description is already
   * rewritten and nothing is queued.
   * As in the source, `count` defaults to 1, `itemdata` to none and
   * `removalDelay` to three days, and every argument after the description
   * and the pool's stand-in `remote` is passed by name.
   */
  method Submit(sub: SubmitDescription, remote: Remote, nameonly count: nat := 1,
                nameonly itemdata: Option<seq<Item>> := None, nameonly pool: string, nameonly schedd: string,
                nameonly removalDelay: nat := DEFAULT_REMOVAL_DELAY)
    returns (result: Result<SubmitResult, Error>)
    requires !remote.inTransaction
    modifies sub, remote
    ensures LEAVE_IN_QUEUE_KEY !in FIXED_KEYS
    ensures sub.entries == SpoolingDescription(old(sub.entries), LEAVE_IN_QUEUE_KEY, Serialize(LeaveInQueue(removalDelay)))
    ensures !remote.inTransaction && remote.polls == old(remote.polls)
    ensures remote.nextCluster == old(remote.nextCluster) + (if schedd in remote.registered then 1 else 0)
    ensures var items := ItemList(itemdata);
      var cluster := old(remote.nextCluster);
      remote.trace == old(remote.trace)
        + SubmitTrace(pool, schedd, schedd in remote.registered, sub.entries, count, items, cluster,
                      remote.expand(sub.entries, count, items, cluster))
    ensures result == if schedd in remote.registered then Success(SubmitResult(old(remote.nextCluster)))
                      else Failure(ScheddNotFound(schedd))
    ensures WellOrdered(old(remote.trace)) ==> WellOrdered(remote.trace)
  {
    PrepareForSpooling(sub, removalDelay);
    var items := ItemList(itemdata);
    result := QueueAndSpool(sub.entries, count, items, pool, schedd, remote);
  }

  /**
   * `retrieve`: with constraint `ClusterID == <id>`, poll every five seconds
   * asking only for `JobStatus` until every job is completed, then fetch the
   * output and mark the jobs retrieved.
   */
  method Retrieve(clusterId: nat, pool: string, schedd: string, remote: Remote)
    returns (outcome: Result<(), Error>)
    modifies remote
    ensures remote.trace == old(remote.trace)
      + RetrieveTrace(pool, schedd, schedd in remote.registered, ClusterConstraint(clusterId),
                      STATUS_PROJECTION, POLL_INTERVAL, old(remote.polls))
    ensures remote.polls == if schedd in remote.registered then old(remote.polls)[Polled(old(remote.polls))..]
                            else old(remote.polls)
    ensures remote.nextCluster == old(remote.nextCluster) && remote.inTransaction == old(remote.inTransaction)
    ensures outcome == if schedd !in remote.registered then Failure(ScheddNotFound(schedd))
                       else if FirstCompleted(old(remote.polls)).None? then Failure(PollsExhausted)
                       else Success(())
    ensures WellOrdered(old(remote.trace)) ==> WellOrdered(remote.trace)
  {
    var constraint := ClusterConstraint(clusterId);
    outcome := AwaitAndRetrieve(constraint, STATUS_PROJECTION, POLL_INTERVAL, pool, schedd, remote);
  }
}
