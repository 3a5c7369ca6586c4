/**
 * What the two clients (remote_submit.py and functions.py) share: the
 * description rewrite apart from the retention expression, the queue and
 * spool steps of `submit`, and the poll-then-retrieve steps of `retrieve`.
 */
module Spooling {
  import opened Wrappers
  import opened Text
  import opened ClassAd
  import Remaps
  import opened Scheduler

  const RETRIEVED_KEY := "My.RETRIEVED"
  const HOLD_KEY := "hold"
  const HOLD_REASON_KEY := "My.HoldReason"
  const HOLD_REASON_CODE_KEY := "My.HoldReasonCode"

  /** Why the job waits on hold: its input files are not spooled yet. */
  const HOLD_REASON := "Spooling input files"
  /** Hold code 16: waiting for input files to be spooled. */
  const HOLD_REASON_CODE := "16"

  /** The hold reason as written into the description is the reason text between double quotes. */
  lemma HoldReasonQuoted()
    ensures Quote(HOLD_REASON) == "\"" + HOLD_REASON + "\""
    ensures Unquote(Quote(HOLD_REASON)) == Some(HOLD_REASON)
  {
    assert '"' !in HOLD_REASON && '\\' !in HOLD_REASON;
    EscapePlain(HOLD_REASON);
    QuoteRoundTrip(HOLD_REASON);
  }

  /** `list(itemdata or [])`: no item data is an empty list. */
  function ItemList(itemdata: Option<seq<Item>>): (items: seq<Item>)
    ensures itemdata.None? ==> items == []
    ensures itemdata.Some? ==> items == itemdata.value
  {
    if itemdata.Some? then itemdata.value else []
  }

  /** The keys the rewrite assigns, apart from the retention expression's. */
  const FIXED_KEYS: set<string> := {RETRIEVED_KEY, HOLD_KEY, HOLD_REASON_KEY, HOLD_REASON_CODE_KEY, Remaps.REMAPS}

  /**
   * The description after the rewrite for spooling: the retrieved marker
   * false, the job held with reason "Spooling input files" and code 16, the
   * retention expression under its key, the merged remaps; every other key
   * as it was.
   */
  function SpoolingDescription(m: map<string, string>, retentionKey: string, retention: string): (r: map<string, string>)
    ensures r.Keys == m.Keys + FIXED_KEYS + {retentionKey}
    ensures forall k :: k in m && k !in FIXED_KEYS && k != retentionKey ==> r[k] == m[k]
  {
    m[RETRIEVED_KEY := "false"]
     [HOLD_KEY := "true"]
     [HOLD_REASON_KEY := Quote(HOLD_REASON)]
     [HOLD_REASON_CODE_KEY := HOLD_REASON_CODE]
     [retentionKey := retention]
     [Remaps.REMAPS := Remaps.MergedRemaps(m)]
  }

  lemma SpoolingDescriptionValues(m: map<string, string>, retentionKey: string, retention: string)
    requires retentionKey !in FIXED_KEYS
    ensures var r := SpoolingDescription(m, retentionKey, retention);
      && r[RETRIEVED_KEY] == "false"
      && r[HOLD_KEY] == "true"
      && r[HOLD_REASON_KEY] == Quote(HOLD_REASON)
      && r[HOLD_REASON_CODE_KEY] == HOLD_REASON_CODE
      && r[retentionKey] == retention
      && r[Remaps.REMAPS] == Remaps.MergedRemaps(m)
  {
  }

  /**
   * Writing the retention expression right after the retrieved marker,
   * before the hold keys, gives the same description.
   */
  lemma RetentionSecond(m: map<string, string>, retentionKey: string, retention: string)
    requires retentionKey !in FIXED_KEYS
    ensures m[RETRIEVED_KEY := "false"][retentionKey := retention][HOLD_KEY := "true"]
             [HOLD_REASON_KEY := Quote(HOLD_REASON)][HOLD_REASON_CODE_KEY := HOLD_REASON_CODE]
             [Remaps.REMAPS := Remaps.MergedRemaps(m)]
         == SpoolingDescription(m, retentionKey, retention)
  {
    RetentionBeforeHold(m[RETRIEVED_KEY := "false"], retentionKey, retention, Quote(HOLD_REASON), Remaps.MergedRemaps(m));
  }

  /** The retention key is none of the hold keys, whatever the values written. */
  lemma RetentionBeforeHold(m: map<string, string>, retentionKey: string, retention: string, reason: string, remaps: string)
    requires retentionKey !in FIXED_KEYS
    ensures m[retentionKey := retention][HOLD_KEY := "true"][HOLD_REASON_KEY := reason]
             [HOLD_REASON_CODE_KEY := HOLD_REASON_CODE][Remaps.REMAPS := remaps]
         == m[HOLD_KEY := "true"][HOLD_REASON_KEY := reason][HOLD_REASON_CODE_KEY := HOLD_REASON_CODE]
             [retentionKey := retention][Remaps.REMAPS := remaps]
  {
    assert retentionKey != HOLD_KEY && retentionKey != HOLD_REASON_KEY && retentionKey != HOLD_REASON_CODE_KEY;
  }

  /**
   * The `transfer_output_remaps` rewrite of `submit`: the old value without
   * its quotes, split on `;`, the stdout entries appended to the list in
   * place, the empty pieces dropped, joined with " ; " and quoted.
   */
  method MergeRemaps(sub: SubmitDescription)
    modifies sub
    ensures sub.entries == old(sub.entries)[Remaps.REMAPS := Remaps.MergedRemaps(old(sub.entries))]
  {
    ghost var m := sub.entries;
    var output := sub.Get("output");
    var error := sub.Get("error");
    var tor := Split(Remove(sub.Get(Remaps.REMAPS), '"'), ';');
    assert tor == Remaps.ExistingSegments(m);
    if output != "" {
      tor := tor + [Remaps.STDOUT_REMAP + "=" + output];
    }
    if error != "" {
      tor := tor + [Remaps.STDOUT_REMAP + "=" + error];
    }
    assert tor == Remaps.ExistingSegments(m) + Remaps.StreamEntries(m);
    sub.Set(Remaps.REMAPS, Quote(Join(Compact(tor), " ; ")));
  }

  /**
   * The part of `submit` after the rewrite: locate the schedd, queue in one
   * transaction, expand the same item list with the new cluster id, spool
   * exactly those ads, and return the queue's result. When the schedd is
   * not found nothing is queued.
   */
  method QueueAndSpool(description: map<string, string>, count: nat, items: seq<Item>, pool: string, schedd: string,
                       remote: Remote)
    returns (result: Result<SubmitResult, Error>)
    requires !remote.inTransaction
    modifies remote
    ensures !remote.inTransaction && remote.polls == old(remote.polls)
    ensures remote.nextCluster == old(remote.nextCluster) + (if schedd in remote.registered then 1 else 0)
    ensures remote.trace == old(remote.trace)
      + SubmitTrace(pool, schedd, schedd in remote.registered, description, count, items, old(remote.nextCluster),
                    remote.expand(description, count, items, old(remote.nextCluster)))
    ensures result == if schedd in remote.registered then Success(SubmitResult(old(remote.nextCluster)))
                      else Failure(ScheddNotFound(schedd))
    ensures WellOrdered(old(remote.trace)) ==> WellOrdered(remote.trace)
  {
    var found := remote.Locate(pool, schedd);
    ghost var cluster := remote.nextCluster;
    ghost var ads := remote.expand(description, count, items, cluster);
    if !found {
      result := Failure(ScheddNotFound(schedd));
    } else {
      remote.BeginTransaction();
      var queued := remote.QueueWithItemdata(description, count, items);
      remote.CommitTransaction();
      var jobAds := remote.Jobs(description, count, items, queued.cluster);
      remote.Spool(jobAds);
      result := Success(queued);
    }
    ghost var run := SubmitTrace(pool, schedd, found, description, count, items, cluster, ads);
    assert remote.trace == old(remote.trace) + run;
    SubmitTraceWellOrdered(pool, schedd, found, description, count, items, cluster, ads);
    if WellOrdered(old(remote.trace)) {
      WellOrderedConcat(old(remote.trace), run);
    }
  }

  /**
   * The `while True` loop of `retrieve`: sleep, query the statuses of the
   * constraint's jobs, and stop at the first answer where every status is
   * completed (an empty answer counts). Running out of answers stands for
   * the source's loop never ending, and is reported as not completed.
   */
  method AwaitCompletion(constraint: string, projection: seq<string>, interval: nat, remote: Remote)
    returns (completed: bool)
    modifies remote
    ensures completed == FirstCompleted(old(remote.polls)).Some?
    ensures remote.trace == old(remote.trace) + PollOps(old(remote.polls)[..Polled(old(remote.polls))], constraint, projection, interval)
    ensures remote.polls == old(remote.polls)[Polled(old(remote.polls))..]
    ensures remote.nextCluster == old(remote.nextCluster) && remote.inTransaction == old(remote.inTransaction)
  {
    ghost var polls := remote.polls;
    ghost var i := 0;
    while true
      invariant i <= |polls| && remote.polls == polls[i..]
      invariant forall j :: 0 <= j < i ==> !AllCompleted(polls[j])
      invariant remote.trace == old(remote.trace) + PollOps(polls[..i], constraint, projection, interval)
      invariant remote.nextCluster == old(remote.nextCluster) && remote.inTransaction == old(remote.inTransaction)
      decreases |polls| - i
    {
      if remote.polls == [] {
        assert FirstCompleted(polls).None? && polls[..i] == polls;
        return false;
      }
      remote.Sleep(interval);
      var statuses := remote.Query(constraint, projection);
      PollOpsSnoc(polls, constraint, projection, interval, i);
      i := i + 1;
      if AllCompleted(statuses) {
        assert FirstCompleted(polls) == Some(i - 1);
        return true;
      }
    }
  }

  /**
   * `retrieve` after the constraint is built: locate the schedd, wait for
   * completion, then fetch the output and set RETRIEVED to true.
   */
  method AwaitAndRetrieve(constraint: string, projection: seq<string>, interval: nat, pool: string, schedd: string,
                          remote: Remote)
    returns (outcome: Result<(), Error>)
    modifies remote
    ensures remote.trace == old(remote.trace)
      + RetrieveTrace(pool, schedd, schedd in remote.registered, constraint, projection, interval, old(remote.polls))
    ensures remote.polls == if schedd in remote.registered then old(remote.polls)[Polled(old(remote.polls))..]
                            else old(remote.polls)
    ensures remote.nextCluster == old(remote.nextCluster) && remote.inTransaction == old(remote.inTransaction)
    ensures outcome == if schedd !in remote.registered then Failure(ScheddNotFound(schedd))
                       else if FirstCompleted(old(remote.polls)).None? then Failure(PollsExhausted)
                       else Success(())
    ensures WellOrdered(old(remote.trace)) ==> WellOrdered(remote.trace)
  {
    ghost var polls := old(remote.polls);
    var found := remote.Locate(pool, schedd);
    if !found {
      outcome := Failure(ScheddNotFound(schedd));
    } else {
      ghost var before := remote.trace;
      var completed := AwaitCompletion(constraint, projection, interval, remote);
      ghost var polled := PollOps(polls[..Polled(polls)], constraint, projection, interval);
      if !completed {
        outcome := Failure(PollsExhausted);
      } else {
        remote.Retrieve(constraint);
        remote.Edit(constraint, RETRIEVED, "true");
        outcome := Success(());
        assert before + polled + [Retrieve(constraint)] + [Edit(constraint, RETRIEVED, "true")]
            == before + polled + [Retrieve(constraint), Edit(constraint, RETRIEVED, "true")];
      }
      ghost var tail: seq<Op> := if completed then [Retrieve(constraint), Edit(constraint, RETRIEVED, "true")] else [];
      assert remote.trace == before + polled + tail;
      assert before + polled + tail == before + (polled + tail);
      ghost var start, located, rest := old(remote.trace), [Locate(pool, schedd, true)], polled + tail;
      assert start + located + rest == start + (located + rest);
    }
    RetrieveTraceWellOrdered(pool, schedd, found, constraint, projection, interval, polls);
    if WellOrdered(old(remote.trace)) {
      WellOrderedConcat(old(remote.trace), RetrieveTrace(pool, schedd, found, constraint, projection, interval, polls));
    }
  }
}
