/**
 * The evaluator as it runs: the depth of loops is a counter that every loop raises and, on
 * every way out, lowers again (src/interpreter.c:3656-4453).
 */
module ControlFlowImpl {
  import opened Common
  import opened ControlFlow

  class Interpreter {
    var loopDepth: nat
    var inTryBlock: bool
    /** What the run has not drawn yet. */
    var outcomes: seq<Outcome>

    constructor (outcomes: seq<Outcome>)
      ensures loopDepth == 0 && !inTryBlock && this.outcomes == outcomes
    {
      loopDepth := 0;
      inTryBlock := false;
      this.outcomes := outcomes;
    }

    /** A worker's own interpreter within a parfor. */
    constructor Worker(depth: nat, inTry: bool, outcomes: seq<Outcome>)
      ensures loopDepth == depth && inTryBlock == inTry && this.outcomes == outcomes
    {
      loopDepth := depth;
      inTryBlock := inTry;
      this.outcomes := outcomes;
    }

    method Draw()
      requires outcomes != []
      modifies this`outcomes
      ensures outcomes == old(outcomes)[1..]
    {
      outcomes := outcomes[1..];
    }

    /** eval_expr, with its calls. */
    method Evaluate() returns (e: Evaluated)
      modifies this
      ensures loopDepth == old(loopDepth) && inTryBlock == old(inTryBlock)
      ensures Eval(e, outcomes) == EvalExpr(loopDepth, old(outcomes))
      decreases |outcomes|, 0
    {
      while outcomes != []
        invariant loopDepth == old(loopDepth) && inTryBlock == old(inTryBlock)
        invariant |outcomes| <= |old(outcomes)|
        invariant EvalExpr(loopDepth, outcomes) == EvalExpr(loopDepth, old(outcomes))
        decreases |outcomes|
      {
        match outcomes[0] {
          case Value(v) =>
            Draw();
            return Got(v);
          case Fail =>
            Draw();
            return Failed;
          case StopRequested =>
            Draw();
          case Call(body) =>
            Draw();
            var res := ExecStmt(body);
            if res == Error {
              return Failed;
            }
            if res == Unfinished {
              return OutOfRun;
            }
        }
      }
      return OutOfRun;
    }

    /** exec_stmt */
    method ExecStmt(s: Stmt) returns (res: Result)
      modifies this
      ensures loopDepth == old(loopDepth) && inTryBlock == old(inTryBlock)
      ensures Done(res, outcomes) == Exec(s, loopDepth, old(outcomes))
      decreases |outcomes|, 2, s, 1
    {
      hide EvalExpr, ExecList, ExecIf, ExecWhile, ExecFor, ExecTry, Workers;
      if Stopping(outcomes) {
        Draw();
        return Ok;
      }
      match s {
        case Simple =>
          var e := Evaluate();
          return AfterEval(e, Ok);
        case Block(items) => res := ExecStmtList(items);
        case If(branches, otherwise) => res := ExecIfStmt(branches, otherwise);
        case While(body) => res := ExecWhileStmt(body);
        case For(body) => res := ExecForStmt(body);
        case ParFor(body) => res := ExecParForStmt(body);
        case Try(block, named, handler) => res := ExecTryStmt(block, named, handler);
        case Break => res := ExecBreak();
        case Continue =>
          return if loopDepth == 0 then Error else Continuing;
        case Goto => res := ExecGoto();
        case Gotopoint => return Ok;
        case Return =>
          var e := Evaluate();
          return AfterEval(e, Returned);
      }
    }

    method ExecBreak() returns (res: Result)
      requires !Stopping(outcomes)
      modifies this
      ensures loopDepth == old(loopDepth) && inTryBlock == old(inTryBlock)
      ensures Done(res, outcomes) == Exec(Break, loopDepth, old(outcomes))
      decreases |outcomes|, 1
    {
      hide EvalExpr;
      var e := Evaluate();
      if !e.Got? {
        return AfterEval(e, Ok);
      }
      if !e.v.Int? {
        return Error;
      }
      var bc := e.v.i;
      if bc <= 0 {
        return Error;
      }
      if bc > loopDepth {
        return Error;
      }
      return Breaking(bc);
    }

    method ExecGoto() returns (res: Result)
      requires !Stopping(outcomes)
      modifies this
      ensures loopDepth == old(loopDepth) && inTryBlock == old(inTryBlock)
      ensures Done(res, outcomes) == Exec(Goto, loopDepth, old(outcomes))
      decreases |outcomes|, 1
    {
      hide EvalExpr;
      var e := Evaluate();
      if !e.Got? || !(e.v.Str? || e.v.Int?) || (e.v.Int? && e.v.i < 0) {
        return AfterEval(e, Error);
      }
      var target := Label(outcomes);
      outcomes := target.rest;
      return target.result;
    }

    /** exec_stmt_list */
    method ExecStmtList(items: seq<Stmt>) returns (res: Result)
      modifies this
      ensures loopDepth == old(loopDepth) && inTryBlock == old(inTryBlock)
      ensures Done(res, outcomes) == ExecList(items, loopDepth, old(outcomes))
      decreases |outcomes|, 2, items, |items| + 1
    {
      hide EvalExpr, Exec;
      var i := 0;
      while i < |items|
        invariant i <= |items| && loopDepth == old(loopDepth) && inTryBlock == old(inTryBlock)
        invariant |outcomes| <= |old(outcomes)|
        invariant Labels(items, i, loopDepth, outcomes) == Labels(items, 0, loopDepth, old(outcomes))
      {
        if items[i] == Gotopoint {
          var e := Evaluate();
          if !e.Got? || !(e.v.Str? || (e.v.Int? && e.v.i >= 0)) {
            return AfterEval(e, Error);
          }
        }
        i := i + 1;
      }
      ghost var begun := outcomes;
      i := 0;
      while i < |items|
        invariant i <= |items| && loopDepth == old(loopDepth) && inTryBlock == old(inTryBlock)
        invariant |outcomes| <= |old(outcomes)|
        invariant ExecFrom(items, i, loopDepth, outcomes) == ExecFrom(items, 0, loopDepth, begun)
        decreases |outcomes|, |items| - i
      {
        ghost var before := outcomes;
        res := ExecStmt(items[i]);
        match res {
          case Ok => i := i + 1;
          case Jump(j) =>
            if 0 <= j < |items| {
              i := j;
            } else {
              return;
            }
          case _ => return;
        }
      }
      return Ok;
    }

    /** STMT_IF */
    method ExecIfStmt(branches: seq<Stmt>, otherwise: Option<Stmt>) returns (res: Result)
      modifies this
      ensures loopDepth == old(loopDepth) && inTryBlock == old(inTryBlock)
      ensures Done(res, outcomes) == ExecIf(branches, otherwise, loopDepth, old(outcomes))
      decreases |outcomes|, 2, If(branches, otherwise), 0
    {
      hide EvalExpr, Exec;
      var i := 0;
      assert branches[0..] == branches;
      while i < |branches|
        invariant i <= |branches| && loopDepth == old(loopDepth) && inTryBlock == old(inTryBlock)
        invariant |outcomes| <= |old(outcomes)|
        invariant ExecIf(branches[i..], otherwise, loopDepth, outcomes) ==
                  ExecIf(branches, otherwise, loopDepth, old(outcomes))
      {
        assert branches[i..][1..] == branches[i + 1..];
        var e := Evaluate();
        if !e.Got? {
          return AfterEval(e, Ok);
        }
        if Truthy(e.v) {
          res := ExecStmt(branches[i]);
          return;
        }
        i := i + 1;
      }
      if otherwise.Some? {
        res := ExecStmt(otherwise.value);
        return;
      }
      return Ok;
    }

    /** STMT_WHILE */
    method ExecWhileStmt(body: Stmt) returns (res: Result)
      modifies this
      ensures loopDepth == old(loopDepth) && inTryBlock == old(inTryBlock)
      ensures Done(res, outcomes) == ExecWhile(body, loopDepth, old(outcomes))
      decreases |outcomes|, 2, body, 2
    {
      hide EvalExpr, Exec, ExecWhile;
      ghost var depth := loopDepth;
      loopDepth := loopDepth + 1;
      while true
        invariant loopDepth == depth + 1 && inTryBlock == old(inTryBlock)
        invariant |outcomes| <= |old(outcomes)|
        invariant ExecWhile(body, depth, outcomes) == ExecWhile(body, depth, old(outcomes))
        decreases |outcomes|
      {
        WhileTurn(body, depth, outcomes);
        if Stopping(outcomes) {
          Draw();
          break;
        }
        var cond := Evaluate();
        if !cond.Got? {
          loopDepth := loopDepth - 1;
          return AfterEval(cond, Ok);
        }
        if !Truthy(cond.v) {
          break;
        }
        res := ExecStmt(body);
        if res == Error || res == Returned || res.Jump? || res == Unfinished {
          loopDepth := loopDepth - 1;
          return;
        }
        if res.Breaking? {
          if res.count > 1 {
            res := Breaking(res.count - 1);
            loopDepth := loopDepth - 1;
            return;
          }
          break;
        }
      }
      loopDepth := loopDepth - 1;
      return Ok;
    }

    /** STMT_FOR */
    method ExecForStmt(body: Stmt) returns (res: Result)
      requires !Stopping(outcomes)
      modifies this
      ensures loopDepth == old(loopDepth) && inTryBlock == old(inTryBlock)
      ensures Done(res, outcomes) == Exec(For(body), loopDepth, old(outcomes))
      decreases |outcomes|, 2, For(body), 0
    {
      hide EvalExpr, ExecFor;
      loopDepth := loopDepth + 1;
      var target := Evaluate();
      if !target.Got? || !target.v.Int? {
        loopDepth := loopDepth - 1;
        return AfterEval(target, Error);
      }
      var bound := Evaluate();
      if !bound.Got? {
        loopDepth := loopDepth - 1;
        return AfterEval(bound, Ok);
      }
      res := ForTurns(body, target.v.i);
    }

    /** Its turns; the depth is lowered on every way out. */
    method ForTurns(body: Stmt, limit: int) returns (res: Result)
      requires loopDepth > 0
      modifies this
      ensures loopDepth == old(loopDepth) - 1 && inTryBlock == old(inTryBlock)
      ensures Done(res, outcomes) == ExecFor(body, loopDepth, 1, limit, old(outcomes))
      decreases |outcomes|, 2, body, 2
    {
      hide EvalExpr, Exec, ExecFor;
      ghost var depth := loopDepth - 1;
      var idx: nat := 1;
      while idx <= limit
        invariant 1 <= idx && loopDepth == depth + 1 && inTryBlock == old(inTryBlock)
        invariant |outcomes| <= |old(outcomes)|
        invariant ExecFor(body, depth, idx, limit, outcomes) == ExecFor(body, depth, 1, limit, old(outcomes))
        decreases |outcomes|
      {
        ForTurn(body, depth, idx, limit, outcomes);
        if Stopping(outcomes) {
          Draw();
          break;
        }
        if idx > MAX_ITERATIONS {
          loopDepth := loopDepth - 1;
          return Error;
        }
        var counter := Evaluate();
        if !counter.Got? {
          loopDepth := loopDepth - 1;
          return AfterEval(counter, Ok);
        }
        res := ExecStmt(body);
        if res == Error || res == Returned || res.Jump? || res == Unfinished {
          loopDepth := loopDepth - 1;
          return;
        }
        if res.Breaking? {
          if res.count > 1 {
            res := Breaking(res.count - 1);
            loopDepth := loopDepth - 1;
            return;
          }
          break;
        }
        idx := idx + 1;
      }
      ForEnd(body, depth, idx, limit, outcomes);
      loopDepth := loopDepth - 1;
      return Ok;
    }

    /** STMT_PARFOR: every iteration in a fresh interpreter that starts with this one's depth. */
    method ExecParForStmt(body: Stmt) returns (res: Result)
      requires !Stopping(outcomes)
      modifies this
      ensures loopDepth == old(loopDepth) && inTryBlock == old(inTryBlock)
      ensures Done(res, outcomes) == Exec(ParFor(body), loopDepth, old(outcomes))
      decreases |outcomes|, 2, ParFor(body), 0
    {
      hide EvalExpr, Workers;
      loopDepth := loopDepth + 1;
      var target := Evaluate();
      if !target.Got? || !target.v.Int? || target.v.i < 0 {
        loopDepth := loopDepth - 1;
        return AfterEval(target, Error);
      }
      var first := RunWorkers(body, target.v.i);
      loopDepth := loopDepth - 1;
      return ParResult(first);
    }

    /** Launching the workers and collecting what they report. */
    method RunWorkers(body: Stmt, limit: int) returns (first: First)
      requires loopDepth > 0
      modifies this
      ensures loopDepth == old(loopDepth) && inTryBlock == old(inTryBlock)
      ensures WorkersDone(first, outcomes) == Workers(body, loopDepth - 1, 1, limit, NoneYet, old(outcomes))
      decreases |outcomes|, 2, body, 2
    {
      hide EvalExpr, Exec, Workers, Noted, InBounds, Truthy;
      ghost var depth := loopDepth - 1;
      first := NoneYet;
      var turn: nat := 1;
      while turn <= limit
        invariant 1 <= turn && loopDepth == depth + 1 && inTryBlock == old(inTryBlock)
        invariant |outcomes| <= |old(outcomes)| && (first.FirstBreak? ==> 1 <= first.count <= depth + 1)
        invariant Workers(body, depth, turn, limit, first, outcomes) ==
                  Workers(body, depth, 1, limit, NoneYet, old(outcomes))
        decreases |outcomes|
      {
        WorkerTurn(body, depth, turn, limit, first, outcomes);
        if turn > MAX_ITERATIONS {
          return FirstError;
        }
        var launched := Evaluate();
        if launched.OutOfRun? {
          return Cut;
        }
        if launched.Failed? {
          first := FirstError;
        } else if Truthy(launched.v) {
          var worker := new Interpreter.Worker(loopDepth, inTryBlock, outcomes);
          var status := worker.ExecStmt(body);
          outcomes := worker.outcomes;
          if status == Unfinished {
            return Cut;
          }
          NotedInBounds(first, status, loopDepth);
          first := Noted(first, status);
        }
        turn := turn + 1;
      }
      WorkersEnd(body, depth, turn, limit, first, outcomes);
    }

    /** STMT_TRY */
    method ExecTryStmt(block: Stmt, named: bool, handler: Option<Stmt>) returns (res: Result)
      modifies this
      ensures loopDepth == old(loopDepth) && inTryBlock == old(inTryBlock)
      ensures Done(res, outcomes) == ExecTry(block, named, handler, loopDepth, old(outcomes))
      decreases |outcomes|, 2, Try(block, named, handler), 0
    {
      hide EvalExpr, Exec;
      var prevInTry := inTryBlock;
      inTryBlock := true;
      res := ExecStmt(block);
      inTryBlock := prevInTry;
      if res != Error || handler.None? {
        return;
      }
      if named {
        var bound := Evaluate();
        if !bound.Got? {
          return AfterEval(bound, Ok);
        }
      }
      res := ExecStmt(handler.value);
    }
  }

  /** One turn of a for loop. */
  lemma ForTurn(body: Stmt, depth: nat, turn: nat, limit: int, cs: seq<Outcome>)
    requires turn <= limit
    ensures var a := EvalExpr(depth + 1, cs);
            ExecFor(body, depth, turn, limit, cs) ==
            if Stopping(cs) then Done(Ok, cs[1..])
            else if turn > MAX_ITERATIONS then Done(Error, cs)
            else if !a.e.Got? then Done(AfterEval(a.e, Ok), a.rest)
            else
              var d := Exec(body, depth + 1, a.rest);
              if AfterBody(d.result).Some? then Done(AfterBody(d.result).value, d.rest)
              else ExecFor(body, depth, turn + 1, limit, d.rest)
  {
    hide EvalExpr, Exec;
  }

  lemma ForEnd(body: Stmt, depth: nat, turn: nat, limit: int, cs: seq<Outcome>)
    ensures turn > limit ==> ExecFor(body, depth, turn, limit, cs) == Done(Ok, cs)
  {
  }

  /** One turn of a while loop. */
  lemma WhileTurn(body: Stmt, depth: nat, cs: seq<Outcome>)
    ensures var e := EvalExpr(depth + 1, cs);
            ExecWhile(body, depth, cs) ==
            if Stopping(cs) then Done(Ok, cs[1..])
            else if !e.e.Got? then Done(AfterEval(e.e, Ok), e.rest)
            else if !Truthy(e.e.v) then Done(Ok, e.rest)
            else
              var d := Exec(body, depth + 1, e.rest);
              if AfterBody(d.result).Some? then Done(AfterBody(d.result).value, d.rest)
              else ExecWhile(body, depth, d.rest)
  {
    hide EvalExpr, Exec;
  }

  /** One turn of a parfor. */
  lemma WorkerTurn(body: Stmt, depth: nat, turn: nat, limit: int, first: First, cs: seq<Outcome>)
    requires turn <= limit && (first.FirstBreak? ==> 1 <= first.count <= depth + 1)
    ensures var a := EvalExpr(depth + 1, cs);
            Workers(body, depth, turn, limit, first, cs) ==
            if turn > MAX_ITERATIONS then WorkersDone(FirstError, cs)
            else if a.e.OutOfRun? then WorkersDone(Cut, a.rest)
            else if a.e.Failed? then Workers(body, depth, turn + 1, limit, FirstError, a.rest)
            else if !Truthy(a.e.v) then Workers(body, depth, turn + 1, limit, first, a.rest)
            else
              var d := Exec(body, depth + 1, a.rest);
              if d.result == Unfinished then WorkersDone(Cut, d.rest)
              else Workers(body, depth, turn + 1, limit, Noted(first, d.result), d.rest)
  {
    hide EvalExpr, Exec;
  }

  lemma NotedInBounds(first: First, r: Result, depth: nat)
    requires InBounds(r, depth) && (first.FirstBreak? ==> 1 <= first.count <= depth)
    ensures Noted(first, r).FirstBreak? ==> 1 <= Noted(first, r).count <= depth
  {
  }

  lemma WorkersEnd(body: Stmt, depth: nat, turn: nat, limit: int, first: First, cs: seq<Outcome>)
    requires turn > limit && (first.FirstBreak? ==> 1 <= first.count <= depth + 1)
    ensures Workers(body, depth, turn, limit, first, cs) == WorkersDone(first, cs)
  {
  }

  /**
   * A program from its start: the depth is back at 0, and what comes out is no break and no
   * continue.
   */
  method RunProgram(items: seq<Stmt>, outcomes: seq<Outcome>) returns (res: Result, depth: nat)
    ensures depth == 0 && !res.Breaking? && !res.Continuing?
    ensures res == ExecList(items, 0, outcomes).result
  {
    hide ExecList;
    var interp := new Interpreter(outcomes);
    res := interp.ExecStmtList(items);
    depth := interp.loopDepth;
    NothingEscapes(items, outcomes);
  }
}
