/**
 * How far a break goes, for every run: whatever was executed before it in the blocks around
 * it, in whichever turn, branch, handler or iteration it is reached.
 */
module ControlFlowBreaks {
  import opened Common
  import opened ControlFlow

  /** A statement that is about to be executed in the course of a run. */
  datatype At = At(s: Stmt, depth: nat, cs: seq<Outcome>)

  function Run(a: At): Done {
    Exec(a.s, a.depth, a.cs)
  }

  predicate IsLoop(s: Stmt) {
    s.While? || s.For? || s.ParFor?
  }

  // ----- what a run comes to -----

  /** From statement i on, the list comes to execute b, by way of jumps if need be. */
  predicate ListReaches(items: seq<Stmt>, i: nat, depth: nat, cs: seq<Outcome>, b: At)
    requires i <= |items|
    decreases |cs|, |items| - i
  {
    && i < |items|
    && (|| b == At(items[i], depth, cs)
        || (var d := Exec(items[i], depth, cs);
            match d.result
            case Ok => ListReaches(items, i + 1, depth, d.rest, b)
            case Jump(j) => 0 <= j < |items| && ListReaches(items, j, depth, d.rest, b)
            case _ => false))
  }

  /** Conditions fail until one holds, or all do. */
  predicate IfReaches(branches: seq<Stmt>, otherwise: Option<Stmt>, depth: nat, cs: seq<Outcome>, b: At) {
    if branches == [] then otherwise.Some? && b == At(otherwise.value, depth, cs)
    else
      var e := EvalExpr(depth, cs);
      && e.e.Got?
      && if Truthy(e.e.v) then b == At(branches[0], depth, e.rest)
         else IfReaches(branches[1..], otherwise, depth, e.rest, b)
  }

  /** This turn or, if the body lets the loop go on, a later one. */
  predicate WhileReaches(body: Stmt, depth: nat, cs: seq<Outcome>, b: At)
    decreases |cs|
  {
    && !Stopping(cs)
    && var e := EvalExpr(depth + 1, cs);
    && e.e.Got? && Truthy(e.e.v)
    && (|| b == At(body, depth + 1, e.rest)
        || (var d := Exec(body, depth + 1, e.rest);
            AfterBody(d.result).None? && WhileReaches(body, depth, d.rest, b)))
  }

  predicate ForReaches(body: Stmt, depth: nat, turn: nat, limit: int, cs: seq<Outcome>, b: At)
    decreases |cs|
  {
    && turn <= limit && !Stopping(cs) && turn <= MAX_ITERATIONS
    && var e := EvalExpr(depth + 1, cs);
    && e.e.Got?
    && (|| b == At(body, depth + 1, e.rest)
        || (var d := Exec(body, depth + 1, e.rest);
            AfterBody(d.result).None? && ForReaches(body, depth, turn + 1, limit, d.rest, b)))
  }

  /** Of the iterations b is the first that breaks, and none fails. */
  predicate WorkersReach(body: Stmt, depth: nat, turn: nat, limit: int, cs: seq<Outcome>, b: At)
    decreases |cs|
  {
    && turn <= limit && turn <= MAX_ITERATIONS
    && var e := EvalExpr(depth + 1, cs);
    && e.e.Got?
    && if !Truthy(e.e.v) then WorkersReach(body, depth, turn + 1, limit, e.rest, b)
       else
         var d := Exec(body, depth + 1, e.rest);
         if d.result.Breaking? then
           b == At(body, depth + 1, e.rest)
           && Workers(body, depth, turn + 1, limit, FirstBreak(d.result.count), d.rest).first.FirstBreak?
         else d.result != Error && d.result != Unfinished && WorkersReach(body, depth, turn + 1, limit, d.rest, b)
  }

  predicate TryReaches(block: Stmt, named: bool, handler: Option<Stmt>, depth: nat, cs: seq<Outcome>, b: At) {
    || b == At(block, depth, cs)
    || (var d := Exec(block, depth, cs);
        && d.result == Error && handler.Some?
        && if !named then b == At(handler.value, depth, d.rest)
           else
             var e := EvalExpr(depth, d.rest);
             e.e.Got? && b == At(handler.value, depth, e.rest))
  }

  /** In the course of executing a, its own part b is executed. */
  predicate Inside(a: At, b: At) {
    && !Stopping(a.cs)
    && match a.s
       case Block(items) =>
         var d := Labels(items, 0, a.depth, a.cs);
         d.result == Ok && ListReaches(items, 0, a.depth, d.rest, b)
       case If(branches, otherwise) => IfReaches(branches, otherwise, a.depth, a.cs, b)
       case While(body) => WhileReaches(body, a.depth, a.cs, b)
       case For(body) =>
         var e := EvalExpr(a.depth + 1, a.cs);
         && e.e.Got? && e.e.v.Int?
         && var f := EvalExpr(a.depth + 1, e.rest);
         f.e.Got? && ForReaches(body, a.depth, 1, e.e.v.i, f.rest, b)
       case ParFor(body) =>
         var e := EvalExpr(a.depth + 1, a.cs);
         e.e.Got? && e.e.v.Int? && e.e.v.i >= 0 && WorkersReach(body, a.depth, 1, e.e.v.i, e.rest, b)
       case Try(block, named, handler) => TryReaches(block, named, handler, a.depth, a.cs, b)
       case _ => false
  }

  // ----- one statement around a break -----

  /** A loop takes one off, and is over if none is left. */
  function Passed(s: Stmt, count: int): Result {
    if !IsLoop(s) then Breaking(count) else if count > 1 then Breaking(count - 1) else Ok
  }

  lemma {:induction false} ListBreaks(items: seq<Stmt>, i: nat, depth: nat, cs: seq<Outcome>, b: At)
    requires i <= |items| && ListReaches(items, i, depth, cs, b) && Run(b).result.Breaking?
    ensures b.depth == depth && ExecFrom(items, i, depth, cs).result == Run(b).result
    decreases |cs|, |items| - i
  {
    if b != At(items[i], depth, cs) {
      var d := Exec(items[i], depth, cs);
      if d.result.Ok? {
        ListBreaks(items, i + 1, depth, d.rest, b);
      } else {
        ListBreaks(items, d.result.index, depth, d.rest, b);
      }
    }
  }

  lemma {:induction false} IfBreaks(branches: seq<Stmt>, otherwise: Option<Stmt>, depth: nat, cs: seq<Outcome>, b: At)
    requires IfReaches(branches, otherwise, depth, cs, b)
    ensures b.depth == depth && ExecIf(branches, otherwise, depth, cs) == Run(b)
    decreases |branches|
  {
    if branches != [] {
      var e := EvalExpr(depth, cs);
      if !Truthy(e.e.v) {
        IfBreaks(branches[1..], otherwise, depth, e.rest, b);
      }
    }
  }

  lemma {:induction false} WhileBreaks(body: Stmt, depth: nat, cs: seq<Outcome>, b: At)
    requires WhileReaches(body, depth, cs, b) && Run(b).result.Breaking?
    ensures b.depth == depth + 1 && ExecWhile(body, depth, cs).result == Passed(While(body), Run(b).result.count)
    decreases |cs|
  {
    hide Exec, EvalExpr;
    var e := EvalExpr(depth + 1, cs);
    if b != At(body, depth + 1, e.rest) {
      WhileBreaks(body, depth, Exec(body, depth + 1, e.rest).rest, b);
    }
  }

  lemma {:induction false} ForBreaks(body: Stmt, depth: nat, turn: nat, limit: int, cs: seq<Outcome>, b: At)
    requires ForReaches(body, depth, turn, limit, cs, b) && Run(b).result.Breaking?
    ensures b.depth == depth + 1
            && ExecFor(body, depth, turn, limit, cs).result == Passed(For(body), Run(b).result.count)
    decreases |cs|
  {
    hide Exec, EvalExpr;
    var e := EvalExpr(depth + 1, cs);
    if b != At(body, depth + 1, e.rest) {
      ForBreaks(body, depth, turn + 1, limit, Exec(body, depth + 1, e.rest).rest, b);
    }
  }

  /** The first break stays the first. */
  lemma {:induction false} FirstStays(body: Stmt, depth: nat, turn: nat, limit: int, first: First, cs: seq<Outcome>)
    requires first != NoneYet && (first.FirstBreak? ==> 1 <= first.count <= depth + 1)
    ensures var w := Workers(body, depth, turn, limit, first, cs).first;
            && (w.FirstBreak? ==> w == first)
            && (first == FirstError ==> w == FirstError || w == Cut)
    decreases |cs|
  {
    hide Exec;
    if turn <= limit && turn <= MAX_ITERATIONS {
      var e := EvalExpr(depth + 1, cs);
      match e.e {
        case OutOfRun =>
        case Failed => FirstStays(body, depth, turn + 1, limit, FirstError, e.rest);
        case Got(v) =>
          if !Truthy(v) {
            FirstStays(body, depth, turn + 1, limit, first, e.rest);
          } else {
            var d := Exec(body, depth + 1, e.rest);
            if d.result != Unfinished {
              FirstStays(body, depth, turn + 1, limit, Noted(first, d.result), d.rest);
            }
          }
      }
    }
  }

  lemma {:induction false} WorkersBreak(body: Stmt, depth: nat, turn: nat, limit: int, cs: seq<Outcome>, b: At)
    requires WorkersReach(body, depth, turn, limit, cs, b)
    ensures b.depth == depth + 1 && Run(b).result.Breaking?
    ensures Workers(body, depth, turn, limit, NoneYet, cs).first == FirstBreak(Run(b).result.count)
    decreases |cs|
  {
    hide Exec, EvalExpr;
    var e := EvalExpr(depth + 1, cs);
    if !Truthy(e.e.v) {
      WorkersBreak(body, depth, turn + 1, limit, e.rest, b);
    } else {
      var d := Exec(body, depth + 1, e.rest);
      if d.result.Breaking? {
        FirstStays(body, depth, turn + 1, limit, FirstBreak(d.result.count), d.rest);
      } else {
        WorkersBreak(body, depth, turn + 1, limit, d.rest, b);
      }
    }
  }

  /** One of the iterations fails, or there are too many of them. */
  predicate SomeFails(body: Stmt, depth: nat, turn: nat, limit: int, cs: seq<Outcome>)
    decreases |cs|
  {
    && turn <= limit
    && (turn > MAX_ITERATIONS ||
        var e := EvalExpr(depth + 1, cs);
        match e.e
        case OutOfRun => false
        case Failed => true
        case Got(v) =>
          if !Truthy(v) then SomeFails(body, depth, turn + 1, limit, e.rest)
          else
            var d := Exec(body, depth + 1, e.rest);
            d.result == Error || (d.result != Unfinished && SomeFails(body, depth, turn + 1, limit, d.rest)))
  }

  /** An error of one iteration is that of the whole parfor, whatever breaks came before or after it. */
  lemma {:induction false} WorkersFail(body: Stmt, depth: nat, turn: nat, limit: int, first: First, cs: seq<Outcome>)
    requires first == NoneYet || (first.FirstBreak? && 1 <= first.count <= depth + 1)
    ensures var w := Workers(body, depth, turn, limit, first, cs).first;
            w != Cut ==> (w == FirstError <==> SomeFails(body, depth, turn, limit, cs))
    decreases |cs|
  {
    hide Exec, EvalExpr;
    if turn <= limit && turn <= MAX_ITERATIONS {
      var e := EvalExpr(depth + 1, cs);
      match e.e {
        case OutOfRun =>
        case Failed => FirstStays(body, depth, turn + 1, limit, FirstError, e.rest);
        case Got(v) =>
          if !Truthy(v) {
            WorkersFail(body, depth, turn + 1, limit, first, e.rest);
          } else {
            var d := Exec(body, depth + 1, e.rest);
            if d.result == Error {
              FirstStays(body, depth, turn + 1, limit, FirstError, d.rest);
            } else if d.result != Unfinished {
              WorkersFail(body, depth, turn + 1, limit, Noted(first, d.result), d.rest);
            }
          }
      }
    }
  }

  /** A statement in whose course one of its parts breaks. */
  lemma InsideBreaks(a: At, b: At)
    requires Inside(a, b) && Run(b).result.Breaking?
    ensures b.depth == a.depth + (if IsLoop(a.s) then 1 else 0)
    ensures Run(a).result == Passed(a.s, Run(b).result.count)
  {
    hide ExecFrom, ListReaches, ExecIf, IfReaches, ExecWhile, WhileReaches, ExecFor, ForReaches, Workers,
         WorkersReach, EvalExpr, Labels;
    match a.s {
      case Block(items) =>
        assert Run(a) == ExecList(items, a.depth, a.cs);
        ListBreaks(items, 0, a.depth, Labels(items, 0, a.depth, a.cs).rest, b);
      case If(branches, otherwise) => IfBreaks(branches, otherwise, a.depth, a.cs, b);
      case While(body) => WhileBreaks(body, a.depth, a.cs, b);
      case For(body) =>
        var e := EvalExpr(a.depth + 1, a.cs);
        ForBreaks(body, a.depth, 1, e.e.v.i, EvalExpr(a.depth + 1, e.rest).rest, b);
      case ParFor(body) =>
        var e := EvalExpr(a.depth + 1, a.cs);
        WorkersBreak(body, a.depth, 1, e.e.v.i, e.rest, b);
      case Try(block, named, handler) => assert Run(a) == ExecTry(block, named, handler, a.depth, a.cs);
      case _ =>
    }
  }

  // ----- all statements around a break -----

  /** Each of the statements is executed in the course of the one before it. */
  predicate Nested(p: seq<At>) {
    p != [] && forall i | 0 <= i < |p| - 1 :: Inside(p[i], p[i + 1])
  }

  /** The loops among all but the innermost. */
  function LoopsAround(p: seq<At>): nat
    requires p != []
  {
    if |p| == 1 then 0 else (if IsLoop(p[0].s) then 1 else 0) + LoopsAround(p[1..])
  }

  function Innermost(p: seq<At>): At
    requires p != []
  {
    p[|p| - 1]
  }

  lemma NestedTail(p: seq<At>)
    requires Nested(p) && |p| > 1
    ensures Nested(p[1..]) && Inside(p[0], p[1]) && Innermost(p[1..]) == Innermost(p)
  {
    hide Inside;
    forall i | 0 <= i < |p[1..]| - 1 ensures Inside(p[1..][i], p[1..][i + 1]) {
      assert Inside(p[i + 1], p[i + 2]);
    }
  }

  /**
   * Wherever a run comes to a break, every statement around it is left; each loop takes one
   * off its count.
   */
  lemma {:induction false} BreakPasses(p: seq<At>)
    requires Nested(p) && Run(Innermost(p)).result.Breaking? && Run(Innermost(p)).result.count > LoopsAround(p)
    ensures Run(p[0]).result == Breaking(Run(Innermost(p)).result.count - LoopsAround(p))
    decreases |p|
  {
    hide Inside, Run;
    if |p| > 1 {
      NestedTail(p);
      BreakPasses(p[1..]);
      InsideBreaks(p[0], p[1]);
    }
  }

  /**
   * The n-th loop around a break n is the last that it leaves: that loop is over, and what
   * stands behind it is next.
   */
  lemma BreakLeavesLoops(p: seq<At>)
    requires Nested(p) && |p| > 1 && IsLoop(p[0].s)
    requires Run(Innermost(p)).result == Breaking(LoopsAround(p))
    ensures Run(p[0]).result == Ok
  {
    hide Inside, Run;
    NestedTail(p);
    BreakPasses(p[1..]);
    InsideBreaks(p[0], p[1]);
  }

  // ----- where a break comes from -----

  lemma {:induction false} ListBreakFrom(items: seq<Stmt>, i: nat, depth: nat, cs: seq<Outcome>) returns (b: At)
    requires i <= |items| && ExecFrom(items, i, depth, cs).result.Breaking?
    ensures ListReaches(items, i, depth, cs, b) && Run(b).result == ExecFrom(items, i, depth, cs).result
    ensures b.s in items && |b.cs| <= |cs|
    decreases |cs|, |items| - i
  {
    var d := Exec(items[i], depth, cs);
    if d.result.Ok? {
      b := ListBreakFrom(items, i + 1, depth, d.rest);
    } else if d.result.Jump? {
      b := ListBreakFrom(items, d.result.index, depth, d.rest);
    } else {
      b := At(items[i], depth, cs);
    }
  }

  lemma {:induction false} IfBreakFrom(branches: seq<Stmt>, otherwise: Option<Stmt>, depth: nat, cs: seq<Outcome>)
      returns (b: At)
    requires ExecIf(branches, otherwise, depth, cs).result.Breaking?
    ensures IfReaches(branches, otherwise, depth, cs, b)
            && Run(b).result == ExecIf(branches, otherwise, depth, cs).result
    ensures (b.s in branches || otherwise == Some(b.s)) && |b.cs| <= |cs|
    decreases |branches|
  {
    if branches == [] {
      b := At(otherwise.value, depth, cs);
    } else {
      var e := EvalExpr(depth, cs);
      if Truthy(e.e.v) {
        b := At(branches[0], depth, e.rest);
      } else {
        b := IfBreakFrom(branches[1..], otherwise, depth, e.rest);
      }
    }
  }

  lemma {:induction false} WhileBreakFrom(body: Stmt, depth: nat, cs: seq<Outcome>) returns (b: At)
    requires ExecWhile(body, depth, cs).result.Breaking?
    ensures WhileReaches(body, depth, cs, b) && Run(b).result == Breaking(ExecWhile(body, depth, cs).result.count + 1)
    ensures b.s == body && |b.cs| <= |cs|
    decreases |cs|
  {
    hide Exec, EvalExpr;
    var e := EvalExpr(depth + 1, cs);
    var d := Exec(body, depth + 1, e.rest);
    if AfterBody(d.result).None? {
      b := WhileBreakFrom(body, depth, d.rest);
    } else {
      b := At(body, depth + 1, e.rest);
    }
  }

  lemma {:induction false} ForBreakFrom(body: Stmt, depth: nat, turn: nat, limit: int, cs: seq<Outcome>) returns (b: At)
    requires ExecFor(body, depth, turn, limit, cs).result.Breaking?
    ensures ForReaches(body, depth, turn, limit, cs, b)
    ensures Run(b).result == Breaking(ExecFor(body, depth, turn, limit, cs).result.count + 1)
    ensures b.s == body && |b.cs| <= |cs|
    decreases |cs|
  {
    hide Exec, EvalExpr;
    var e := EvalExpr(depth + 1, cs);
    var d := Exec(body, depth + 1, e.rest);
    if AfterBody(d.result).None? {
      b := ForBreakFrom(body, depth, turn + 1, limit, d.rest);
    } else {
      b := At(body, depth + 1, e.rest);
    }
  }

  lemma {:induction false} WorkersBreakFrom(body: Stmt, depth: nat, turn: nat, limit: int, cs: seq<Outcome>)
      returns (b: At)
    requires Workers(body, depth, turn, limit, NoneYet, cs).first.FirstBreak?
    ensures WorkersReach(body, depth, turn, limit, cs, b)
    ensures b.s == body && |b.cs| <= |cs|
    decreases |cs|
  {
    hide Exec, EvalExpr;
    var e := EvalExpr(depth + 1, cs);
    if e.e.Failed? {
      FirstStays(body, depth, turn + 1, limit, FirstError, e.rest);
      assert false;
    } else if !Truthy(e.e.v) {
      b := WorkersBreakFrom(body, depth, turn + 1, limit, e.rest);
    } else {
      var d := Exec(body, depth + 1, e.rest);
      if d.result.Breaking? {
        b := At(body, depth + 1, e.rest);
      } else if d.result == Error {
        FirstStays(body, depth, turn + 1, limit, FirstError, d.rest);
        assert false;
      } else {
        b := WorkersBreakFrom(body, depth, turn + 1, limit, d.rest);
      }
    }
  }

  /** A statement other than break that breaks, does so because one of its parts does. */
  lemma BreakFrom(a: At) returns (b: At)
    requires Run(a).result.Breaking? && !a.s.Break?
    ensures Inside(a, b) && Run(b).result.Breaking? && Run(a).result == Passed(a.s, Run(b).result.count)
    ensures b.s < a.s && |b.cs| <= |a.cs|
  {
    hide ExecFrom, ListReaches, ExecIf, IfReaches, ExecWhile, WhileReaches, ExecFor, ForReaches, Workers,
         WorkersReach, EvalExpr, Labels;
    match a.s {
      case Block(items) =>
        assert Run(a) == ExecList(items, a.depth, a.cs);
        b := ListBreakFrom(items, 0, a.depth, Labels(items, 0, a.depth, a.cs).rest);
      case If(branches, otherwise) => b := IfBreakFrom(branches, otherwise, a.depth, a.cs);
      case While(body) => b := WhileBreakFrom(body, a.depth, a.cs);
      case For(body) =>
        var e := EvalExpr(a.depth + 1, a.cs);
        b := ForBreakFrom(body, a.depth, 1, e.e.v.i, EvalExpr(a.depth + 1, e.rest).rest);
      case ParFor(body) =>
        var e := EvalExpr(a.depth + 1, a.cs);
        b := WorkersBreakFrom(body, a.depth, 1, e.e.v.i, e.rest);
        WorkersBreak(body, a.depth, 1, e.e.v.i, e.rest, b);
      case Try(block, named, handler) =>
        assert Run(a) == ExecTry(block, named, handler, a.depth, a.cs);
        var d := Exec(block, a.depth, a.cs);
        if d.result != Error {
          b := At(block, a.depth, a.cs);
        } else if !named {
          b := At(handler.value, a.depth, d.rest);
        } else {
          b := At(handler.value, a.depth, EvalExpr(a.depth, d.rest).rest);
        }
      case _ =>
        b := a;
        assert false;
    }
  }

  /**
   * Every break that comes out of a statement comes from a break statement that the run came
   * to, whose count is that of the loops in between and what is left.
   */
  lemma {:induction false} BreakComesFrom(a: At) returns (p: seq<At>)
    requires Run(a).result.Breaking?
    ensures Nested(p) && p[0] == a && Innermost(p).s.Break? && Innermost(p).depth == a.depth + LoopsAround(p)
    ensures Run(Innermost(p)).result == Breaking(Run(a).result.count + LoopsAround(p))
    decreases |a.cs|, a.s
  {
    hide Inside, Run;
    if a.s.Break? {
      p := [a];
    } else {
      var b := BreakFrom(a);
      InsideBreaks(a, b);
      var q := BreakComesFrom(b);
      p := [a] + q;
      assert p[1..] == q && Innermost(p) == Innermost(q);
      forall i | 0 <= i < |p| - 1 ensures Inside(p[i], p[i + 1]) {
        if i > 0 {
          assert Inside(q[i - 1], q[i]);
        }
      }
    }
  }
}
