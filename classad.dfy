/**
 * The small part of the ClassAd language the client writes: string literals
 * (`classad.quote`), and the expressions it stores in a job's description,
 * as a syntax tree with the serialiser that produces their text and an
 * evaluator for the operators they use.
 */
module ClassAd {
  import opened Wrappers
  import opened Text

  // ---------------------------------------------------------------------------
  // String literals

  /** One character of a string literal's body: `"` and `\` get a backslash. */
  function EscapeChar(c: char): string {
    if c == '"' || c == '\\' then ['\\', c] else [c]
  }

  /** Backslash-escapes `"` and `\`, character by character. */
  function Escape(s: string): string {
    if s == [] then [] else Escape(s[..|s| - 1]) + EscapeChar(s[|s| - 1])
  }

  /** `classad.quote(s)`: s as a ClassAd string literal. */
  function Quote(s: string): (q: string)
    ensures |q| >= 2 && q[0] == '"' && q[|q| - 1] == '"'
  {
    "\"" + Escape(s) + "\""
  }

  lemma {:induction false} EscapeAppend(a: string, b: string)
    ensures Escape(a + b) == Escape(a) + Escape(b)
  {
    if b == [] {
      assert a + b == a;
    } else {
      assert (a + b)[..|a + b| - 1] == a + b[..|b| - 1];
      EscapeAppend(a, b[..|b| - 1]);
    }
  }

  lemma EscapeFirst(s: string)
    requires s != []
    ensures Escape(s) == EscapeChar(s[0]) + Escape(s[1..])
  {
    var c := [s[0]];
    assert s == c + s[1..];
    EscapeAppend(c, s[1..]);
    assert c[..|c| - 1] == [];
    assert Escape(c) == Escape([]) + EscapeChar(s[0]);
  }

  /** Undoes Escape; None when a `"` is not escaped or a `\` ends the text. */
  function Unescape(s: string): Option<string> {
    if s == [] then Some([])
    else if s[0] == '\\' then
      if |s| < 2 then None
      else match Unescape(s[2..]) {
        case Some(r) => Some([s[1]] + r)
        case None => None
      }
    else if s[0] == '"' then None
    else match Unescape(s[1..]) {
      case Some(r) => Some([s[0]] + r)
      case None => None
    }
  }

  /** The text a ClassAd string literal stands for. */
  function Unquote(q: string): Option<string> {
    if |q| >= 2 && q[0] == '"' && q[|q| - 1] == '"' then Unescape(q[1..|q| - 1]) else None
  }

  lemma {:induction false} UnescapeEscape(s: string)
    ensures Unescape(Escape(s)) == Some(s)
  {
    if s != [] {
      UnescapeEscape(s[1..]);
      EscapeFirst(s);
      var e := Escape(s);
      if s[0] == '"' || s[0] == '\\' {
        assert e[2..] == Escape(s[1..]);
      } else {
        assert e[1..] == Escape(s[1..]);
      }
      assert [s[0]] + s[1..] == s;
    }
  }

  /** A quoted string reads back as the string. */
  lemma QuoteRoundTrip(s: string)
    ensures Unquote(Quote(s)) == Some(s)
  {
    var q := Quote(s);
    assert q[1..|q| - 1] == Escape(s);
    UnescapeEscape(s);
  }

  /** Quoting leaves text without `"` and `\` as it is, between two `"`. */
  lemma {:induction false} EscapePlain(s: string)
    requires '"' !in s && '\\' !in s
    ensures Escape(s) == s
  {
    if s != [] {
      EscapePlain(s[..|s| - 1]);
      assert s[..|s| - 1] + [s[|s| - 1]] == s;
    }
  }

  // ---------------------------------------------------------------------------
  // Expressions

  datatype BinOp = Eq | MetaEq | Is | And | Or | Minus | Less

  datatype Expr =
    | Attr(name: string)
    | IntLit(n: nat)
    | Seconds(secs: nat)      // a whole number of seconds held in a Python float
    | Undefined
    | BoolLit(b: bool)
    | TimeCall                // time()
    | Binary(op: BinOp, left: Expr, right: Expr)
    | Group(inner: Expr)      // ( e ), with blanks inside
    | Paren(inner: Expr)      // (e)

  function OpText(op: BinOp): string {
    match op
    case Eq => "=="
    case MetaEq => "=?="
    case Is => "IS"
    case And => "&&"
    case Or => "||"
    case Minus => "-"
    case Less => "<"
  }

  // Plain-text facts the balance proof below uses.

  lemma OpTextPlain(op: BinOp)
    ensures '(' !in OpText(op) && ')' !in OpText(op)
  {
  }

  /** How Python's f-string writes a whole-number float: `259200.0`. */
  function SecondsText(secs: nat): (s: string)
    ensures '(' !in s && ')' !in s
  {
    NatToString(secs) + ".0"
  }

  /** Three days in seconds, as the client writes it. */
  lemma ThreeDaysText()
    ensures SecondsText(259200) == "259200.0"
  {
    assert NatToString(2) == "2";
    assert NatToString(25) == "2" + "5";
    assert NatToString(259) == "25" + "9";
    assert NatToString(2592) == "259" + "2";
    assert NatToString(25920) == "2592" + "0";
    assert NatToString(259200) == "25920" + "0";
  }

  /** The text the client writes for an expression. */
  function Serialize(e: Expr): string {
    match e
    case Attr(name) => name
    case IntLit(n) => NatToString(n)
    case Seconds(secs) => SecondsText(secs)
    case Undefined => "UNDEFINED"
    case BoolLit(b) => if b then "true" else "false"
    case TimeCall => "time()"
    case Binary(op, l, r) => Serialize(l) + " " + OpText(op) + " " + Serialize(r)
    case Group(inner) => "( " + Serialize(inner) + " )"
    case Paren(inner) => "(" + Serialize(inner) + ")"
  }

  /** No attribute name holds a parenthesis. */
  predicate WellFormed(e: Expr) {
    match e
    case Attr(name) => '(' !in name && ')' !in name
    case Binary(_, l, r) => WellFormed(l) && WellFormed(r)
    case Group(inner) => WellFormed(inner)
    case Paren(inner) => WellFormed(inner)
    case _ => true
  }

  // ---------------------------------------------------------------------------
  // Balanced parentheses

  /** Parentheses opened minus parentheses closed. */
  function Nesting(s: string): int {
    if s == [] then 0
    else (if s[0] == '(' then 1 else if s[0] == ')' then -1 else 0) + Nesting(s[1..])
  }

  lemma {:induction false} NestingAppend(a: string, b: string)
    ensures Nesting(a + b) == Nesting(a) + Nesting(b)
  {
    if a != [] {
      assert (a + b)[1..] == a[1..] + b;
      NestingAppend(a[1..], b);
    } else {
      assert a + b == b;
    }
  }

  lemma {:induction false} NestingNoParens(s: string)
    requires '(' !in s && ')' !in s
    ensures Nesting(s) == 0
  {
    if s != [] {
      NestingNoParens(s[1..]);
    }
  }

  /** Nesting of a text wrapped between an opening and a closing text. */
  lemma NestingWrapped(open: string, mid: string, close: string)
    ensures Nesting(open + mid + close) == Nesting(open) + Nesting(mid) + Nesting(close)
  {
    NestingAppend(open, mid);
    NestingAppend(open + mid, close);
  }

  lemma NestingTime()
    ensures Nesting("time()") == 0
  {
    assert "time()" == "time" + "(" + ")";
    NestingNoParens("time");
    NestingWrapped("time", "(", ")");
  }

  /** The parentheses the serialiser writes are balanced. */
  lemma {:induction false} SerializeBalanced(e: Expr)
    requires WellFormed(e)
    ensures Nesting(Serialize(e)) == 0
  {
    match e
    case Attr(name) =>
      NestingNoParens(name);
    case IntLit(n) =>
      NestingNoParens(NatToString(n));
    case Seconds(secs) =>
      NestingNoParens(SecondsText(secs));
    case Undefined =>
      NestingNoParens("UNDEFINED");
    case BoolLit(b) =>
      NestingNoParens(Serialize(e));
    case TimeCall =>
      NestingTime();
    case Binary(op, l, r) =>
      SerializeBalanced(l);
      SerializeBalanced(r);
      var m := " " + OpText(op) + " ";
      OpTextPlain(op);
      assert '(' !in m && ')' !in m;
      NestingNoParens(m);
      NestingWrapped(Serialize(l), m, Serialize(r));
      assert Serialize(e) == Serialize(l) + m + Serialize(r);
    case Group(inner) =>
      SerializeBalanced(inner);
      NestingWrapped("( ", Serialize(inner), " )");
    case Paren(inner) =>
      SerializeBalanced(inner);
      NestingWrapped("(", Serialize(inner), ")");
  }

  // ---------------------------------------------------------------------------
  // Evaluation

  /** ClassAd values: UNDEFINED and ERROR are values of their own. */
  datatype Value = Undef | Error | Num(n: int) | Bool(b: bool)

  /** What the queue knows of one job when it evaluates an expression on it. */
  datatype JobState = JobState(status: int, completionDate: Option<int>, retrieved: bool)

  /** Attribute lookup; an attribute the job does not have is UNDEFINED. */
  function Lookup(name: string, job: JobState): Value {
    if name == "JobStatus" then Num(job.status)
    else if name == "CompletionDate" then
      (if job.completionDate.Some? then Num(job.completionDate.value) else Undef)
    else if name == "RETRIEVED" then Bool(job.retrieved)
    else Undef
  }

  /** `a =?= b` and `a IS b`: same type and same value; never UNDEFINED. */
  function Identical(a: Value, b: Value): bool {
    a == b
  }

  /** `a == b`: UNDEFINED when either side is. */
  function Equal(a: Value, b: Value): Value {
    if a.Error? || b.Error? then Error
    else if a.Undef? || b.Undef? then Undef
    else if a.Num? && b.Num? then Bool(a.n == b.n)
    else if a.Bool? && b.Bool? then Bool(a.b == b.b)
    else Error
  }

  function Arith(op: BinOp, a: Value, b: Value): Value
    requires op == Minus || op == Less
  {
    if a.Error? || b.Error? then Error
    else if a.Undef? || b.Undef? then Undef
    else if a.Num? && b.Num? then (if op == Minus then Num(a.n - b.n) else Bool(a.n < b.n))
    else Error
  }

  predicate IsBoolean(v: Value) {
    v.Bool? || v.Undef?
  }

  /** `a && b`, non-strict: false wins over UNDEFINED. */
  function AndValue(a: Value, b: Value): Value {
    if a == Bool(false) then Bool(false)
    else if a == Bool(true) then (if IsBoolean(b) then b else Error)
    else if a.Undef? then (if b == Bool(false) then Bool(false) else if IsBoolean(b) then Undef else Error)
    else Error
  }

  /** `a || b`, non-strict: true wins over UNDEFINED. */
  function OrValue(a: Value, b: Value): Value {
    if a == Bool(true) then Bool(true)
    else if a == Bool(false) then (if IsBoolean(b) then b else Error)
    else if a.Undef? then (if b == Bool(true) then Bool(true) else if IsBoolean(b) then Undef else Error)
    else Error
  }

  /** The value of an expression on a job at time `now`. */
  function Eval(e: Expr, job: JobState, now: int): (v: Value)
    ensures e.Binary? && (e.op == MetaEq || e.op == Is) ==> v.Bool?
    ensures e.Binary? && (e.op == Eq || e.op == Less) ==> !v.Num?
    ensures e.Binary? && e.op == Minus ==> !v.Bool?
  {
    match e
    case Attr(name) => Lookup(name, job)
    case IntLit(n) => Num(n)
    case Seconds(secs) => Num(secs)
    case Undefined => Undef
    case BoolLit(b) => Bool(b)
    case TimeCall => Num(now)
    case Binary(op, l, r) =>
      var a := Eval(l, job, now);
      var b := Eval(r, job, now);
      (match op
       case Eq => Equal(a, b)
       case MetaEq => Bool(Identical(a, b))
       case Is => Bool(Identical(a, b))
       case And => AndValue(a, b)
       case Or => OrValue(a, b)
       case Minus => Arith(Minus, a, b)
       case Less => Arith(Less, a, b))
    case Group(inner) => Eval(inner, job, now)
    case Paren(inner) => Eval(inner, job, now)
  }
}
