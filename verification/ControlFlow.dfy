/**
 * Control flow of the evaluator (src/interpreter.c:3222-4453): blocks, if, while, for,
 * parfor, try, break, continue, goto, return and calls.  The depth of loops is the lexical
 * one here; the interpreter keeps it in a counter.
 *
 * What expressions compute is a sequence of outcomes that a run draws from, one by one, so
 * every finite run of every program is covered; a run that draws past the end is not over.
 */
module ControlFlow {
  import opened Common

  /** Integers matter to break, for and goto; of the rest only whether it counts as true. */
  datatype Val = Int(i: int) | Str(truthy: bool) | Other(truthy: bool)

  /** What happens next when an expression is evaluated, or the environment is asked to change. */
  datatype Outcome =
    | Value(v: Val)
    | Fail
    | Call(body: Stmt)
    | StopRequested

  datatype Stmt =
    | Simple
    | Block(items: seq<Stmt>)
    | If(branches: seq<Stmt>, otherwise: Option<Stmt>)
    | While(body: Stmt)
    | For(body: Stmt)
    | ParFor(body: Stmt)
    | Try(block: Stmt, named: bool, handler: Option<Stmt>)
    | Break
    | Continue
    | Goto
    | Gotopoint
    | Return

  datatype Result = Ok | Error | Returned | Breaking(count: int) | Continuing | Jump(index: int) | Unfinished

  /** The result of a run and the outcomes it has not drawn. */
  datatype Done = Done(result: Result, rest: seq<Outcome>)

  datatype Evaluated = Got(v: Val) | Failed | OutOfRun

  datatype Eval = Eval(e: Evaluated, rest: seq<Outcome>)

  predicate Truthy(v: Val) {
    if v.Int? then v.i != 0 else v.truthy
  }

  const MAX_ITERATIONS := 100000

  /** A break leaves at least one and at most all of the loops around it; continue needs a loop. */
  predicate InBounds(r: Result, depth: nat) {
    (r.Breaking? ==> 1 <= r.count <= depth) && (r.Continuing? ==> depth > 0)
  }

  // ----- expressions -----

  /**
   * An expression may call functions; a body that ends in anything but an error lets the
   * expression go on, also when it ends in break, continue or goto.
   */
  function EvalExpr(depth: nat, cs: seq<Outcome>): (r: Eval)
    ensures |r.rest| <= |cs|
    ensures !r.e.OutOfRun? ==> |r.rest| < |cs|
    decreases |cs|, 0
  {
    if cs == [] then Eval(OutOfRun, cs) else
      match cs[0]
      case Value(v) => Eval(Got(v), cs[1..])
      case Fail => Eval(Failed, cs[1..])
      case StopRequested => EvalExpr(depth, cs[1..])
      case Call(body) =>
        var r := Exec(body, depth, cs[1..]);
        match r.result
        case Error => Eval(Failed, r.rest)
        case Unfinished => Eval(OutOfRun, r.rest)
        case _ => EvalExpr(depth, r.rest)
  }

  /** The result of a statement that only needs its expression not to fail. */
  function AfterEval(e: Evaluated, r: Result): Result {
    match e
    case Got(_) => r
    case Failed => Error
    case OutOfRun => Unfinished
  }

  /** A worker that was asked to stop does so at the next boundary. */
  predicate Stopping(cs: seq<Outcome>) {
    cs != [] && cs[0] == StopRequested
  }

  // ----- statements -----

  /** exec_stmt, inside depth loops. */
  function Exec(s: Stmt, depth: nat, cs: seq<Outcome>): (d: Done)
    ensures |d.rest| <= |cs|
    ensures d.result.Jump? ==> |d.rest| < |cs|
    ensures InBounds(d.result, depth)
    decreases |cs|, 2, s, 1
  {
    if Stopping(cs) then Done(Ok, cs[1..]) else
      match s
      case Simple =>
        var e := EvalExpr(depth, cs);
        Done(AfterEval(e.e, Ok), e.rest)
      case Block(items) => ExecList(items, depth, cs)
      case If(branches, otherwise) => ExecIf(branches, otherwise, depth, cs)
      case While(body) => ExecWhile(body, depth, cs)
      case For(body) =>
        var e := EvalExpr(depth + 1, cs);
        if !e.e.Got? || !e.e.v.Int? then Done(AfterEval(e.e, Error), e.rest)
        else
          var b := EvalExpr(depth + 1, e.rest);
          if !b.e.Got? then Done(AfterEval(b.e, Ok), b.rest)
          else ExecFor(body, depth, 1, e.e.v.i, b.rest)
      case ParFor(body) =>
        var e := EvalExpr(depth + 1, cs);
        if !e.e.Got? || !e.e.v.Int? || e.e.v.i < 0 then Done(AfterEval(e.e, Error), e.rest)
        else
          var w := Workers(body, depth, 1, e.e.v.i, NoneYet, e.rest);
          Done(ParResult(w.first), w.rest)
      case Try(block, named, handler) => ExecTry(block, named, handler, depth, cs)
      case Break =>
        var e := EvalExpr(depth, cs);
        Done(AfterEval(e.e, BreakOf(e.e, depth)), e.rest)
      case Continue => Done(if depth == 0 then Error else Continuing, cs)
      case Goto =>
        var e := EvalExpr(depth, cs);
        if !e.e.Got? || !(e.e.v.Str? || (e.e.v.Int? && e.e.v.i >= 0)) then Done(AfterEval(e.e, Error), e.rest)
        else Label(e.rest)
      case Gotopoint => Done(Ok, cs)
      case Return =>
        var e := EvalExpr(depth, cs);
        Done(AfterEval(e.e, Returned), e.rest)
  }

  /** A count below 1 or above the depth is an error. */
  function BreakOf(e: Evaluated, depth: nat): Result {
    if !e.Got? || !e.v.Int? || e.v.i <= 0 || e.v.i > depth then Error else Breaking(e.v.i)
  }

  /** The label that was asked for, if it is registered. */
  function Label(cs: seq<Outcome>): (d: Done)
    ensures |d.rest| <= |cs|
  {
    if cs == [] then Done(Unfinished, cs)
    else if cs[0].Value? && cs[0].v.Int? && cs[0].v.i >= 0 then Done(Jump(cs[0].v.i), cs[1..])
    else Done(Error, cs[1..])
  }

  /** exec_stmt_list: first the labels, then the statements. */
  function ExecList(items: seq<Stmt>, depth: nat, cs: seq<Outcome>): (d: Done)
    ensures |d.rest| <= |cs|
    ensures d.result.Jump? ==> |d.rest| < |cs|
    ensures InBounds(d.result, depth)
    decreases |cs|, 2, items, |items| + 1
  {
    var d := Labels(items, 0, depth, cs);
    if d.result != Ok then d else ExecFrom(items, 0, depth, d.rest)
  }

  function Labels(items: seq<Stmt>, i: nat, depth: nat, cs: seq<Outcome>): (d: Done)
    requires i <= |items|
    ensures |d.rest| <= |cs| && (d.result == Ok || d.result == Error || d.result == Unfinished)
    decreases |cs|, 1, items, |items| - i
  {
    if i == |items| then Done(Ok, cs)
    else if items[i] != Gotopoint then Labels(items, i + 1, depth, cs)
    else
      var e := EvalExpr(depth, cs);
      if !e.e.Got? || !(e.e.v.Str? || (e.e.v.Int? && e.e.v.i >= 0)) then Done(AfterEval(e.e, Error), e.rest)
      else Labels(items, i + 1, depth, e.rest)
  }

  function ExecFrom(items: seq<Stmt>, i: nat, depth: nat, cs: seq<Outcome>): (d: Done)
    requires i <= |items|
    ensures |d.rest| <= |cs|
    ensures d.result.Jump? ==> |d.rest| < |cs|
    ensures InBounds(d.result, depth)
    decreases |cs|, 2, items, |items| - i
  {
    if i == |items| then Done(Ok, cs)
    else
      var d := Exec(items[i], depth, cs);
      match d.result
      case Ok => ExecFrom(items, i + 1, depth, d.rest)
      case Jump(j) => if 0 <= j < |items| then ExecFrom(items, j, depth, d.rest) else d
      case _ => d
  }

  function ExecIf(branches: seq<Stmt>, otherwise: Option<Stmt>, depth: nat, cs: seq<Outcome>): (d: Done)
    ensures |d.rest| <= |cs|
    ensures d.result.Jump? ==> |d.rest| < |cs|
    ensures InBounds(d.result, depth)
    decreases |cs|, 2, If(branches, otherwise), 0
  {
    if branches == [] then
      if otherwise.None? then Done(Ok, cs) else Exec(otherwise.value, depth, cs)
    else
      var e := EvalExpr(depth, cs);
      if !e.e.Got? then Done(AfterEval(e.e, Ok), e.rest)
      else if Truthy(e.e.v) then Exec(branches[0], depth, e.rest)
      else ExecIf(branches[1..], otherwise, depth, e.rest)
  }

  /** The result of one turn of a loop: none if the loop goes on. */
  function AfterBody(r: Result): Option<Result> {
    match r
    case Error => Some(r)
    case Returned => Some(r)
    case Jump(_) => Some(r)
    case Unfinished => Some(r)
    case Breaking(n) => Some(if n > 1 then Breaking(n - 1) else Ok)
    case Continuing => None
    case Ok => None
  }

  function ExecWhile(body: Stmt, depth: nat, cs: seq<Outcome>): (d: Done)
    ensures |d.rest| <= |cs|
    ensures d.result.Jump? ==> |d.rest| < |cs|
    ensures InBounds(d.result, depth)
    decreases |cs|, 2, body, 1
  {
    if Stopping(cs) then Done(Ok, cs[1..])
    else
      var e := EvalExpr(depth + 1, cs);
      if !e.e.Got? then Done(AfterEval(e.e, Ok), e.rest)
      else if !Truthy(e.e.v) then Done(Ok, e.rest)
      else
        var d := Exec(body, depth + 1, e.rest);
        if AfterBody(d.result).Some? then Done(AfterBody(d.result).value, d.rest)
        else ExecWhile(body, depth, d.rest)
  }

  /** From the given turn on. */
  function ExecFor(body: Stmt, depth: nat, turn: nat, limit: int, cs: seq<Outcome>): (d: Done)
    ensures |d.rest| <= |cs|
    ensures d.result.Jump? ==> |d.rest| < |cs|
    ensures InBounds(d.result, depth)
    decreases |cs|, 2, body, 1
  {
    if turn > limit then Done(Ok, cs)
    else if Stopping(cs) then Done(Ok, cs[1..])
    else if turn > MAX_ITERATIONS then Done(Error, cs)
    else
      var a := EvalExpr(depth + 1, cs);
      if !a.e.Got? then Done(AfterEval(a.e, Ok), a.rest)
      else
        var d := Exec(body, depth + 1, a.rest);
        if AfterBody(d.result).Some? then Done(AfterBody(d.result).value, d.rest)
        else ExecFor(body, depth, turn + 1, limit, d.rest)
  }

  function ExecTry(block: Stmt, named: bool, handler: Option<Stmt>, depth: nat, cs: seq<Outcome>): (d: Done)
    ensures |d.rest| <= |cs|
    ensures d.result.Jump? ==> |d.rest| < |cs|
    ensures InBounds(d.result, depth)
    decreases |cs|, 2, Try(block, named, handler), 0
  {
    var d := Exec(block, depth, cs);
    if d.result != Error || handler.None? then d
    else if !named then Exec(handler.value, depth, d.rest)
    else
      var e := EvalExpr(depth, d.rest);
      if !e.e.Got? then Done(AfterEval(e.e, Ok), e.rest) else Exec(handler.value, depth, e.rest)
  }

  /** Of the workers' results the first error counts, then the first break. */
  datatype First = NoneYet | FirstBreak(count: int) | FirstError | Cut

  datatype WorkersDone = WorkersDone(first: First, rest: seq<Outcome>)

  function Noted(first: First, r: Result): First {
    if first == FirstError || r == Error then FirstError
    else if first == NoneYet && r.Breaking? then FirstBreak(r.count)
    else first
  }

  function ParResult(first: First): Result {
    match first
    case NoneYet => Ok
    case FirstBreak(n) => if n > 1 then Breaking(n - 1) else Ok
    case FirstError => Error
    case Cut => Unfinished
  }

  /** The iterations of a parfor, each in an interpreter of its own; some may be skipped once one has broken off. */
  function Workers(body: Stmt, depth: nat, turn: nat, limit: int, first: First, cs: seq<Outcome>): (w: WorkersDone)
    requires first.FirstBreak? ==> 1 <= first.count <= depth + 1
    ensures |w.rest| <= |cs|
    ensures w.first.FirstBreak? ==> 1 <= w.first.count <= depth + 1
    decreases |cs|, 2, body, 1
  {
    if turn > limit then WorkersDone(first, cs)
    else if turn > MAX_ITERATIONS then WorkersDone(FirstError, cs)
    else
      var a := EvalExpr(depth + 1, cs);
      match a.e
      case OutOfRun => WorkersDone(Cut, a.rest)
      case Failed => Workers(body, depth, turn + 1, limit, FirstError, a.rest)
      case Got(v) =>
        if !Truthy(v) then Workers(body, depth, turn + 1, limit, first, a.rest)
        else
          var d := Exec(body, depth + 1, a.rest);
          if d.result == Unfinished then WorkersDone(Cut, d.rest)
          else Workers(body, depth, turn + 1, limit, Noted(first, d.result), d.rest)
  }

  // ----- what control flow guarantees -----

  /** Nothing escapes a program: at the top level, where no loop is around it, no break or continue comes out. */
  lemma NothingEscapes(items: seq<Stmt>, cs: seq<Outcome>)
    ensures !ExecList(items, 0, cs).result.Breaking? && !ExecList(items, 0, cs).result.Continuing?
  {
  }

  /** A function body that breaks or continues ends, and the expression that called it goes on. */
  lemma CallsEndBreaks(body: Stmt, depth: nat, cs: seq<Outcome>)
    requires Exec(body, depth, cs).result.Breaking? || Exec(body, depth, cs).result.Continuing?
    ensures EvalExpr(depth, [Call(body)] + cs) == EvalExpr(depth, Exec(body, depth, cs).rest)
  {
    assert ([Call(body)] + cs)[1..] == cs;
  }
}
