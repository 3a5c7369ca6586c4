/**
 * functions.py: a second form of the client. `submit` performs the same
 * rewrite as remote_submit.py except for the retention expression, which is
 * `My.LeaveJobInQueue` with a fixed three-day delay and the RETRIEVED marker
 * inside the parenthesised disjunction; `retrieve` takes the submit result,
 * polls every second without a projection, then fetches and marks.
 */
module Functions {
  import opened Wrappers
  import opened Text
  import opened ClassAd
  import Remaps
  import opened Scheduler
  import opened Retention
  import opened Spooling

  /** `timedelta(days=3).total_seconds()`: the fixed removal delay, in seconds. */
  const REMOVAL_DELAY: nat := 3 * 24 * 60 * 60
  const LEAVE_JOB_IN_QUEUE_KEY := "My.LeaveJobInQueue"

  /** Three days are 259200 seconds, written as Python writes the float. */
  lemma RemovalDelayText()
    ensures REMOVAL_DELAY == 259200 && SecondsText(REMOVAL_DELAY) == "259200.0"
  {
    ThreeDaysText();
  }
  /** Seconds slept before each poll. */
  const POLL_INTERVAL: nat := 1
  /** The polls give no projection: the query asks for whole ads. */
  const NO_PROJECTION: seq<string> := []

  /**
   * `JobStatus == 4 && ( <date test> || RETRIEVED )`: completed, and either
   * still in its grace period or already retrieved.
   */
  function LeaveJobInQueue(delay: nat): (e: Expr)
    ensures WellFormed(e)
  {
    DateTestWellFormed(delay);
    assert forall i :: 0 <= i < |"JobStatus"| ==> "JobStatus"[i] != '(' && "JobStatus"[i] != ')';
    assert forall i :: 0 <= i < |RETRIEVED| ==> RETRIEVED[i] != '(' && RETRIEVED[i] != ')';
    assert WellFormed(Attr("JobStatus")) && WellFormed(Attr(RETRIEVED));
    assert WellFormed(Group(Binary(Or, DateTest(delay), Attr(RETRIEVED))));
    Binary(And, Binary(Eq, Attr("JobStatus"), IntLit(COMPLETED as nat)),
           Group(Binary(Or, DateTest(delay), Attr(RETRIEVED))))
  }

  const RETRIEVED_CLOSE := " || RETRIEVED )"

  // Regrouping steps, stated over arbitrary texts so that the solver never
  // looks inside the date test.

  lemma GroupShape(d: string)
    ensures "( " + (d + " " + "||" + " " + "RETRIEVED") + " )" == "( " + d + RETRIEVED_CLOSE
  {}

  lemma ConjunctionShape(g: string)
    ensures ("JobStatus" + " " + "==" + " " + "4") + " " + "&&" + " " + g == "JobStatus == 4 && " + g
  {}

  /**
   * The text written is the template with 4, CompletionDate and 259200.0
   * filled in (the date test's own text is Retention.DateTestText).
   */
  lemma LeaveJobInQueueText(delay: nat)
    ensures Serialize(LeaveJobInQueue(delay))
         == "JobStatus == 4 && " + ("( " + Serialize(DateTest(delay)) + RETRIEVED_CLOSE)
  {
    var d := Serialize(DateTest(delay));
    assert Serialize(IntLit(COMPLETED as nat)) == "4" by {
      assert COMPLETED as nat == 4 && NatToString(4) == "4";
    }
    var status := Binary(Eq, Attr("JobStatus"), IntLit(COMPLETED as nat));
    assert Serialize(status) == "JobStatus" + " " + "==" + " " + "4";
    var disjunction := Binary(Or, DateTest(delay), Attr(RETRIEVED));
    assert Serialize(disjunction) == d + " " + "||" + " " + "RETRIEVED";
    assert Serialize(Group(disjunction)) == "( " + (d + " " + "||" + " " + "RETRIEVED") + " )";
    GroupShape(d);
    ConjunctionShape("( " + d + RETRIEVED_CLOSE);
  }

  /**
   * `|| RETRIEVED )` closes the text, and one parenthesis is open before
   * it: the RETRIEVED disjunct sits inside the group, under the
   * `JobStatus == 4 &&` conjunct.
   */
  lemma RetrievedInsideGroup(delay: nat)
    ensures var text := Serialize(LeaveJobInQueue(delay));
      |text| > |RETRIEVED_CLOSE|
      && text[|text| - |RETRIEVED_CLOSE|..] == RETRIEVED_CLOSE
      && Nesting(text[..|text| - |RETRIEVED_CLOSE|]) == 1
  {
    var d := Serialize(DateTest(delay));
    LeaveJobInQueueText(delay);
    DateTestWellFormed(delay);
    SerializeBalanced(DateTest(delay));
    HeadNesting();
    OpenNesting();
    PrefixNesting("JobStatus == 4 && ", "( ", d, RETRIEVED_CLOSE);
  }

  // Nesting of the fixed pieces around the date test.

  lemma HeadNesting()
    ensures Nesting("JobStatus == 4 && ") == 0
  {
    var head := "JobStatus == 4 && ";
    assert forall i :: 0 <= i < |head| ==> head[i] != '(' && head[i] != ')';
    NestingNoParens(head);
  }

  lemma OpenNesting()
    ensures Nesting("( ") == 1
  {
  }

  /** The text before a closing suffix c, when one group is opened before d. */
  lemma PrefixNesting(head: string, open: string, d: string, c: string)
    requires Nesting(head) == 0 && Nesting(open) == 1 && Nesting(d) == 0 && |open| > 0
    ensures var text := head + (open + d + c);
      |text| > |c| && text[|text| - |c|..] == c && text[..|text| - |c|] == head + open + d
      && Nesting(text[..|text| - |c|]) == 1
  {
    var text := head + (open + d + c);
    assert text == (head + open + d) + c;
    NestingWrapped(head, open, d);
  }

  /**
   * The job stays in the queue exactly while it is completed and either in
   * its three-day grace period or already retrieved; the expression is never
   * UNDEFINED or ERROR.
   */
  lemma LeaveJobInQueueValue(job: JobState, now: int, delay: nat)
    ensures Eval(LeaveJobInQueue(delay), job, now)
         == Bool(job.status == COMPLETED && (InGracePeriod(job, now, delay) || job.retrieved))
  {
    DateTestValue(job, now, delay);
    assert Eval(Attr("JobStatus"), job, now) == Num(job.status);
    assert Eval(Attr(RETRIEVED), job, now) == Bool(job.retrieved) by {
      assert RETRIEVED != "JobStatus" && RETRIEVED != "CompletionDate";
    }
    assert Eval(Binary(Or, DateTest(delay), Attr(RETRIEVED)), job, now)
        == OrValue(Bool(InGracePeriod(job, now, delay)), Bool(job.retrieved));
    assert Eval(Binary(Eq, Attr("JobStatus"), IntLit(COMPLETED as nat)), job, now) == Bool(job.status == COMPLETED);
  }

  /** A job that is not completed is released by the expression at any time. */
  lemma NotCompletedLeaves(job: JobState, now: int, delay: nat)
    requires job.status != COMPLETED
    ensures Eval(LeaveJobInQueue(delay), job, now) == Bool(false)
  {
    LeaveJobInQueueValue(job, now, delay);
  }

  /** A completed job without a real completion date is kept. */
  lemma UndatedStays(job: JobState, now: int, delay: nat)
    requires job.status == COMPLETED
    requires job.completionDate.None? || job.completionDate.value == 0
    ensures Eval(LeaveJobInQueue(delay), job, now) == Bool(true)
  {
    LeaveJobInQueueValue(job, now, delay);
  }

  /** A completed job that has been retrieved is kept, whatever its completion date. */
  lemma RetrievedStays(job: JobState, now: int, delay: nat)
    requires job.status == COMPLETED && job.retrieved
    ensures Eval(LeaveJobInQueue(delay), job, now) == Bool(true)
  {
    LeaveJobInQueueValue(job, now, delay);
  }

  /**
   * A completed, unretrieved job with a real completion date is kept exactly
   * while fewer than 259200 seconds have passed since that date.
   */
  lemma UnretrievedKeptThreeDays(job: JobState, now: int)
    requires job.status == COMPLETED && !job.retrieved
    requires job.completionDate.Some? && job.completionDate.value != 0
    ensures Eval(LeaveJobInQueue(REMOVAL_DELAY), job, now) == Bool(now - job.completionDate.value < 259200)
  {
    LeaveJobInQueueValue(job, now, REMOVAL_DELAY);
  }

  /**
   * Lines 22-36 of `submit`, with the rendered retention expression given:
   * the in-place rewrite of the description, in the source's order.
   */
  method RewriteWith(sub: SubmitDescription, leaveJobInQueue: string)
    modifies sub
    ensures LEAVE_JOB_IN_QUEUE_KEY !in FIXED_KEYS
    ensures sub.entries == SpoolingDescription(old(sub.entries), LEAVE_JOB_IN_QUEUE_KEY, leaveJobInQueue)
  {
    ghost var m := sub.entries;
    sub.Set(RETRIEVED_KEY, "false");
    sub.Set(HOLD_KEY, "true");
    sub.Set(HOLD_REASON_KEY, Quote(HOLD_REASON));
    sub.Set(HOLD_REASON_CODE_KEY, HOLD_REASON_CODE);
    sub.Set(LEAVE_JOB_IN_QUEUE_KEY, leaveJobInQueue);

    assert Remaps.REMAPS !in FIXED_KEYS - {Remaps.REMAPS} && "output" !in FIXED_KEYS && "error" !in FIXED_KEYS;
    assert LEAVE_JOB_IN_QUEUE_KEY !in FIXED_KEYS + {"output", "error"};
    assert Remaps.MergedRemaps(sub.entries) == Remaps.MergedRemaps(m) by {
      assert Remaps.Get(sub.entries, Remaps.REMAPS) == Remaps.Get(m, Remaps.REMAPS);
      assert Remaps.Get(sub.entries, "output") == Remaps.Get(m, "output");
      assert Remaps.Get(sub.entries, "error") == Remaps.Get(m, "error");
    }
    MergeRemaps(sub);
  }

  /** The rewrite with `My.LeaveJobInQueue` rendered for the fixed three-day delay. */
  method PrepareForSpooling(sub: SubmitDescription)
    modifies sub
    ensures LEAVE_JOB_IN_QUEUE_KEY !in FIXED_KEYS
    ensures sub.entries == SpoolingDescription(old(sub.entries), LEAVE_JOB_IN_QUEUE_KEY, Serialize(LeaveJobInQueue(REMOVAL_DELAY)))
  {
    RewriteWith(sub, Serialize(LeaveJobInQueue(REMOVAL_DELAY)));
  }

  /**
   * `submit`: rewrite the description for spooling, then queue, expand and
   * spool with it. When the schedd is not found the description is already
   * rewritten and nothing is queued.
   * As in the source, `count` defaults to 1 and `itemdata` to none, and every
   * argument after the description and the pool's stand-in `remote` is
   * passed by name.
   */
  method Submit(sub: SubmitDescription, remote: Remote, nameonly count: nat := 1,
                nameonly itemdata: Option<seq<Item>> := None, nameonly pool: string, nameonly schedd: string)
    returns (result: Result<SubmitResult, Error>)
    requires !remote.inTransaction
    modifies sub, remote
    ensures LEAVE_JOB_IN_QUEUE_KEY !in FIXED_KEYS
    ensures sub.entries == SpoolingDescription(old(sub.entries), LEAVE_JOB_IN_QUEUE_KEY, Serialize(LeaveJobInQueue(REMOVAL_DELAY)))
    ensures !remote.inTransaction && remote.polls == old(remote.polls)
    ensures remote.nextCluster == old(remote.nextCluster) + (if schedd in remote.registered then 1 else 0)
    ensures var items := ItemList(itemdata);
      var cluster := old(remote.nextCluster);
      remote.trace == old(remote.trace)
        + SubmitTrace(pool, schedd, schedd in remote.registered, sub.entries, count, items, cluster,
                      remote.expand(sub.entries, count, items, cluster))
    ensures result == if schedd in remote.registered then Success(SubmitResult(old(remote.nextCluster)))
                      else Failure(ScheddNotFound(schedd))
    ensures WellOrdered(old(remote.trace)) ==> WellOrdered(remote.trace)
  {
    PrepareForSpooling(sub);
    var items := ItemList(itemdata);
    result := QueueAndSpool(sub.entries, count, items, pool, schedd, remote);
  }

  /**
   * `retrieve`: with constraint `ClusterID == <cluster of the submit
   * result>`, poll every second for whole ads until every job is completed,
   * then fetch the output and mark the jobs retrieved.
   */
  method Retrieve(submitResult: SubmitResult, pool: string, schedd: string, remote: Remote)
    returns (outcome: Result<(), Error>)
    modifies remote
    ensures remote.trace == old(remote.trace)
      + RetrieveTrace(pool, schedd, schedd in remote.registered, ClusterConstraint(submitResult.cluster),
                      NO_PROJECTION, POLL_INTERVAL, old(remote.polls))
    ensures remote.polls == if schedd in remote.registered then old(remote.polls)[Polled(old(remote.polls))..]
                            else old(remote.polls)
    ensures remote.nextCluster == old(remote.nextCluster) && remote.inTransaction == old(remote.inTransaction)
    ensures outcome == if schedd !in remote.registered then Failure(ScheddNotFound(schedd))
                       else if FirstCompleted(old(remote.polls)).None? then Failure(PollsExhausted)
                       else Success(())
    ensures WellOrdered(old(remote.trace)) ==> WellOrdered(remote.trace)
  {
    var constraint := ClusterConstraint(submitResult.cluster);
    outcome := AwaitAndRetrieve(constraint, NO_PROJECTION, POLL_INTERVAL, pool, schedd, remote);
  }
}
