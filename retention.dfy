/**
 * The completion-date test both clients put into their queue-retention
 * expression: `CompletionDate =?= UNDEFINED || CompletionDate == 0 ||
 * ((time() - CompletionDate) < delay)`, as a syntax tree, with the text it
 * serialises to and the value it has on a job.
 */
module Retention {
  import opened Wrappers
  import opened Text
  import opened ClassAd

  const COMPLETION_DATE := "CompletionDate"
  const DATE: Expr := Attr(COMPLETION_DATE)

  /** `CompletionDate =?= UNDEFINED || CompletionDate == 0`: the job has no real completion date. */
  function Undated(): Expr {
    Binary(Or, Binary(MetaEq, DATE, Undefined), Binary(Eq, DATE, IntLit(0)))
  }

  /** `(time() - CompletionDate)`: seconds since completion. */
  function Age(): Expr {
    Paren(Binary(Minus, TimeCall, DATE))
  }

  /** `((time() - CompletionDate) < delay)`: completed less than `delay` seconds ago. */
  function Recent(delay: nat): Expr {
    Paren(Binary(Less, Age(), Seconds(delay)))
  }

  function DateTest(delay: nat): Expr {
    Binary(Or, Undated(), Recent(delay))
  }

  // ---------------------------------------------------------------------------
  // Text

  // Regrouping steps, stated over arbitrary strings so that the solver never
  // looks inside the attribute name or the rendered delay.

  lemma UndatedShape(cd: string)
    ensures (cd + " " + "=?=" + " " + "UNDEFINED") + " " + "||" + " " + (cd + " " + "==" + " " + "0")
         == cd + " =?= UNDEFINED || " + cd + " == 0"
  {}

  lemma AgeShape(cd: string)
    ensures "(" + ("time()" + " " + "-" + " " + cd) + ")" == "(time() - " + cd + ")"
  {}

  lemma RecentShape(cd: string, st: string)
    ensures "(" + (("(time() - " + cd + ")") + " " + "<" + " " + st) + ")" == "((time() - " + cd + ") < " + st + ")"
  {}

  lemma DateTestShape(cd: string, st: string)
    ensures (cd + " =?= UNDEFINED || " + cd + " == 0") + " " + "||" + " " + ("((time() - " + cd + ") < " + st + ")")
         == cd + " =?= UNDEFINED || " + cd + " == 0 || ((time() - " + cd + ") < " + st + ")"
  {}

  /** The text of the date test, with the attribute name and the delay filled in. */
  lemma DateTestText(delay: nat)
    ensures Serialize(DateTest(delay))
         == COMPLETION_DATE + " =?= UNDEFINED || " + COMPLETION_DATE + " == 0 || ((time() - "
            + COMPLETION_DATE + ") < " + SecondsText(delay) + ")"
  {
    var cd := COMPLETION_DATE;
    var st := SecondsText(delay);
    assert NatToString(0) == "0";
    UndatedShape(cd);
    AgeShape(cd);
    RecentShape(cd, st);
    DateTestShape(cd, st);
  }

  /** Attribute names hold no parenthesis, so the serialised test is balanced. */
  lemma DateTestWellFormed(delay: nat)
    ensures WellFormed(DateTest(delay))
  {
    assert WellFormed(DATE);
    assert WellFormed(Undated());
    assert WellFormed(Age());
    assert WellFormed(Recent(delay));
  }

  // ---------------------------------------------------------------------------
  // Value

  /**
   * The test read as a boolean: the job has no completion date, a zero one,
   * or completed less than `delay` seconds before `now`.
   */
  predicate InGracePeriod(job: JobState, now: int, delay: nat) {
    job.completionDate.None? || job.completionDate.value == 0 || now - job.completionDate.value < delay
  }

  lemma DateValue(job: JobState, now: int)
    ensures Eval(DATE, job, now)
         == if job.completionDate.None? then Undef else Num(job.completionDate.value)
  {
    assert COMPLETION_DATE != "JobStatus";
  }

  lemma UndatedValue(job: JobState, now: int)
    ensures Eval(Undated(), job, now)
         == Bool(job.completionDate.None? || job.completionDate.value == 0)
  {
    DateValue(job, now);
    var date := Eval(DATE, job, now);
    assert Eval(Binary(MetaEq, DATE, Undefined), job, now) == Bool(date == Undef);
    assert Eval(Binary(Eq, DATE, IntLit(0)), job, now) == Equal(date, Num(0));
  }

  lemma RecentValue(job: JobState, now: int, delay: nat)
    ensures Eval(Recent(delay), job, now)
         == if job.completionDate.None? then Undef else Bool(now - job.completionDate.value < delay)
  {
    DateValue(job, now);
    var date := Eval(DATE, job, now);
    assert Eval(Binary(Minus, TimeCall, DATE), job, now) == Arith(Minus, Num(now), date);
    assert Eval(Binary(Less, Age(), Seconds(delay)), job, now) == Arith(Less, Eval(Age(), job, now), Num(delay));
  }

  /**
   * The date test never evaluates to UNDEFINED or ERROR: a missing date
   * makes the `=?=` disjunct true, which wins over the UNDEFINED
   * comparisons.
   */
  lemma DateTestValue(job: JobState, now: int, delay: nat)
    ensures Eval(DateTest(delay), job, now) == Bool(InGracePeriod(job, now, delay))
  {
    UndatedValue(job, now);
    RecentValue(job, now, delay);
  }
}
