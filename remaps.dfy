/**
 * The rewrite of `transfer_output_remaps` that both versions of `submit`
 * perform so that the job's standard output and error come back with the
 * rest of its output: strip every `"` from the existing value, split it on
 * `;`, append a `_condor_stdout=<file>` entry for each of `output` and `error`
 * that is set, drop the empty pieces, join with " ; " and quote.
 */
module Remaps {
  import opened Wrappers
  import opened Text
  import ClassAd

  const REMAPS := "transfer_output_remaps"
  const STDOUT_REMAP := "_condor_stdout"

  /** `submit.get(key, "")` on the description's entries. */
  function Get(m: map<string, string>, key: string): string {
    if key in m then m[key] else ""
  }

  /**
   * The entries appended for the `output` and the `error` file, in that
   * order, each only when the key is present and non-empty. Both entries use
   * the stdout key.
   */
  function StreamEntries(m: map<string, string>): (r: seq<string>)
    ensures |r| == (if Get(m, "output") != "" then 1 else 0) + (if Get(m, "error") != "" then 1 else 0)
    ensures Get(m, "output") != "" ==> r[0] == "_condor_stdout=" + m["output"]
    ensures Get(m, "error") != "" ==> r[|r| - 1] == "_condor_stdout=" + m["error"]
    ensures forall i :: 0 <= i < |r| ==> |r[i]| > |STDOUT_REMAP| && r[i][..|STDOUT_REMAP| + 1] == STDOUT_REMAP + "="
  {
    (if Get(m, "output") != "" then [STDOUT_REMAP + "=" + m["output"]] else [])
    + (if Get(m, "error") != "" then [STDOUT_REMAP + "=" + m["error"]] else [])
  }

  /** The existing value without its quotes, split on `;`. */
  function ExistingSegments(m: map<string, string>): seq<string> {
    Split(Remove(Get(m, REMAPS), '"'), ';')
  }

  /** The `tor` list after the appends and `filter(None, ...)`. */
  function MergedSegments(m: map<string, string>): seq<string> {
    Compact(ExistingSegments(m) + StreamEntries(m))
  }

  /** The new value of `transfer_output_remaps`. */
  function MergedRemaps(m: map<string, string>): (r: string)
    ensures |r| >= 2 && r[0] == '"' && r[|r| - 1] == '"'
  {
    ClassAd.Quote(Join(MergedSegments(m), " ; "))
  }

  /**
   * The merged list is the non-empty pieces of the old value, in order,
   * followed by the appended entries; none of it is empty, and the old
   * pieces hold no `"` and no `;`.
   */
  lemma MergedSegmentsShape(m: map<string, string>)
    ensures MergedSegments(m) == Compact(ExistingSegments(m)) + StreamEntries(m)
    ensures |MergedSegments(m)| <= Occurrences(Remove(Get(m, REMAPS), '"'), ';') + 1 + |StreamEntries(m)|
    ensures forall i :: 0 <= i < |MergedSegments(m)| ==> MergedSegments(m)[i] != ""
    ensures forall i :: 0 <= i < |Compact(ExistingSegments(m))| ==>
      '"' !in Compact(ExistingSegments(m))[i] && ';' !in Compact(ExistingSegments(m))[i]
  {
    CompactAppend(ExistingSegments(m), StreamEntries(m));
    CompactNonEmpty(StreamEntries(m));
    var old_ := Remove(Get(m, REMAPS), '"');
    var kept := Compact(ExistingSegments(m));
    forall i | 0 <= i < |kept|
      ensures '"' !in kept[i] && ';' !in kept[i]
    {
      var j :| 0 <= j < |ExistingSegments(m)| && ExistingSegments(m)[j] == kept[i];
      assert forall x :: x in kept[i] ==> x in old_ by {
        forall x | x in kept[i] ensures x in old_ {
          JoinSplit(old_, ';');
          MemberOfJoin(ExistingSegments(m), j, [';'], x);
        }
      }
    }
  }

  /** A character of one part is a character of the join. */
  lemma {:induction false} MemberOfJoin(parts: seq<string>, j: nat, sep: string, x: char)
    requires j < |parts| && x in parts[j]
    ensures x in Join(parts, sep)
  {
    if j > 0 {
      MemberOfJoin(parts[1..], j - 1, sep, x);
    }
  }

  /** The stored value is a string literal whose content is the joined list. */
  lemma MergedRemapsReadsBack(m: map<string, string>)
    ensures ClassAd.Unquote(MergedRemaps(m)) == Some(Join(MergedSegments(m), " ; "))
  {
    ClassAd.QuoteRoundTrip(Join(MergedSegments(m), " ; "));
  }

  /** Unless the output or error file name holds one, the joined list has no `"`. */
  lemma MergedHasNoQuote(m: map<string, string>)
    requires '"' !in Get(m, "output") && '"' !in Get(m, "error")
    ensures '"' !in Join(MergedSegments(m), " ; ")
  {
    MergedSegmentsShape(m);
    var segs := MergedSegments(m);
    var kept := Compact(ExistingSegments(m));
    var added := StreamEntries(m);
    forall i | 0 <= i < |segs| ensures '"' !in segs[i] {
      if i >= |kept| {
        assert segs[i] == added[i - |kept|];
      }
    }
    JoinExcludes(segs, " ; ", '"');
  }

  /**
   * An absent or empty old value (or one of only quotes and `;`), with no
   * output and no error file, becomes the empty string literal: no entries.
   */
  lemma EmptyRemaps(m: map<string, string>)
    requires forall i :: 0 <= i < |Get(m, REMAPS)| ==> Get(m, REMAPS)[i] in {'"', ';'}
    requires Get(m, "output") == "" && Get(m, "error") == ""
    ensures MergedSegments(m) == []
    ensures MergedRemaps(m) == "\"\""
  {
    var stripped := Remove(Get(m, REMAPS), '"');
    assert forall i :: 0 <= i < |stripped| ==> stripped[i] == ';' by {
      forall i | 0 <= i < |stripped| ensures stripped[i] == ';' {
        assert stripped[i] in stripped;
      }
    }
    SplitOnlySeparators(stripped, ';');
    CompactAllEmpty(ExistingSegments(m));
    assert ExistingSegments(m) + StreamEntries(m) == ExistingSegments(m);
    assert MergedSegments(m) == [];
    assert Join(MergedSegments(m), " ; ") == "" && ClassAd.Escape("") == "";
  }

  /**
   * With both files set, the two appended entries carry the same key,
   * `_condor_stdout`; standard error gets no key of its own.
   */
  lemma BothStreamsShareStdoutKey(m: map<string, string>)
    requires Get(m, "output") != "" && Get(m, "error") != ""
    ensures StreamEntries(m) == ["_condor_stdout=" + m["output"], "_condor_stdout=" + m["error"]]
    ensures StreamEntries(m)[0][..|STDOUT_REMAP| + 1] == StreamEntries(m)[1][..|STDOUT_REMAP| + 1]
  {
  }

  /** The appended entries hold a `;` only when a file name does. */
  lemma StreamEntriesPlain(m: map<string, string>)
    requires ';' !in Get(m, "output") && ';' !in Get(m, "error")
    ensures forall i :: 0 <= i < |StreamEntries(m)| ==> ';' !in StreamEntries(m)[i]
  {
    var key := STDOUT_REMAP + "=";
    assert ';' !in key;
    forall i | 0 <= i < |StreamEntries(m)| ensures ';' !in StreamEntries(m)[i] {
      var file := if Get(m, "output") != "" && i == 0 then m["output"] else m["error"];
      assert StreamEntries(m)[i] == key + file;
    }
  }

  /**
   * Splitting the stored list on `;` again gives back each entry, still
   * padded by the blanks of the " ; " separator, provided the output and
   * error file names hold no `;`.
   */
  lemma MergedReparse(m: map<string, string>)
    requires ';' !in Get(m, "output") && ';' !in Get(m, "error")
    requires MergedSegments(m) != []
    ensures Split(Join(MergedSegments(m), " ; "), ';') == Spaced(MergedSegments(m), "")
  {
    MergedSegmentsShape(m);
    var segs := MergedSegments(m);
    var kept := Compact(ExistingSegments(m));
    var added := StreamEntries(m);
    StreamEntriesPlain(m);
    forall i | 0 <= i < |segs| ensures ';' !in segs[i] {
      if i >= |kept| {
        assert segs[i] == added[i - |kept|];
      }
    }
    assert "" + Join(segs, " ; ") == Join(segs, " ; ");
    SplitSpacedJoin(segs, "");
  }
}
