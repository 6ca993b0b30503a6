/** The constraint algebra of pipedput/constraints.py: leaf predicates over a
    pipeline event, combined with `&` (And) and `|` (Or). Evaluation returns
    the boolean or the exception a leaf raised, and `Calls` lists the leaves
    that evaluation actually invokes, so that short-circuiting can be stated:
    the second operand of And is not evaluated once the first is false, that
    of Or not once the first is true. `p & q` is the constructor `And(p, q)`
    and `p | q` is `Or(p, q)`, operands in the order written. */
module Constraints {
  import opened Common
  import opened Gitlab

  /** The leaf constraints. `Callback` holds the callable (giving the
      truthiness of its return value, or the exception it raised) and the
      expected value; the IsUser leaf is the example constraint of the
      Debian system hooks. */
  datatype Leaf =
    | Callback(callback: Event -> Result<bool>, expected: Scalar)
    | RequireProject(name: string)
    | RequireTag
    | RequireSuccess
    | IsUser(username: string)

  datatype Constraint =
    | Atom(leaf: Leaf)
    | And(first: Constraint, second: Constraint)
    | Or(first: Constraint, second: Constraint)

  /** `Callback(callback)` with the default `expect=True`. */
  function DefaultCallback(callback: Event -> Result<bool>): (l: Leaf)
    ensures l.Callback? && l.expected == SBool(true)
  {
    Callback(callback, SBool(true))
  }

  /** Calling one leaf constraint on an event. */
  function EvalLeaf(l: Leaf, e: Event): (r: Result<bool>)
    // `bool(callback(event)) is expect`: true exactly when the callback's
    // truthiness is the expected boolean; a non-boolean expect never matches
    ensures l.Callback? ==>
      (r == Ok(true) <==> exists b :: l.callback(e) == Ok(b) && l.expected == SBool(b))
    ensures l.Callback? && !l.expected.SBool? ==> r != Ok(true)
    ensures l.RequireProject? ==> (r == Ok(true) <==> e.projectPath == l.name)
    // `tag is True`: only the boolean True passes, not 1 nor "true"
    ensures l.RequireTag? ==> (r == Ok(true) <==> e.tag == SBool(true))
    ensures l.RequireSuccess? ==> (r == Ok(true) <==> e.status == SStr("success"))
    ensures l.IsUser? ==> (r == Ok(true) <==> e.username == l.username)
    // only a callback can raise, and then its exception passes through
    ensures r.Err? ==> l.Callback? && l.callback(e) == Err(r.error)
  {
    match l
    case Callback(callback, expected) =>
      (match callback(e)
       case Err(x) => Err(x)
       case Ok(b) => Ok(expected == SBool(b)))
    case RequireProject(name) => Ok(e.projectPath == name)
    case RequireTag => Ok(e.tag == SBool(true))
    case RequireSuccess => Ok(e.status == SStr("success"))
    case IsUser(username) => Ok(e.username == username)
  }

  /** Calling a constraint: Python's short-circuit `and` / `or` over the
      operands' calls, an exception ending the evaluation. */
  function Eval(c: Constraint, e: Event): Result<bool> {
    match c
    case Atom(l) => EvalLeaf(l, e)
    case And(p, q) =>
      (match Eval(p, e)
       case Err(x) => Err(x)
       case Ok(b) => if !b then Ok(false) else Eval(q, e))
    case Or(p, q) =>
      (match Eval(p, e)
       case Err(x) => Err(x)
       case Ok(b) => if b then Ok(true) else Eval(q, e))
  }

  /** The leaves that calling `c` on `e` invokes, in the order invoked. */
  function Calls(c: Constraint, e: Event): seq<Leaf> {
    match c
    case Atom(l) => [l]
    case And(p, q) => Calls(p, e) + (if Eval(p, e) == Ok(true) then Calls(q, e) else [])
    case Or(p, q) => Calls(p, e) + (if Eval(p, e) == Ok(false) then Calls(q, e) else [])
  }

  /** The number of nodes of a constraint. */
  function Size(c: Constraint): (n: nat)
    ensures n >= 1
  {
    match c
    case Atom(_) => 1
    case And(p, q) => Size(p) + Size(q) + 1
    case Or(p, q) => Size(p) + Size(q) + 1
  }

  /** The plain boolean reading of a constraint, ignoring evaluation order
      and exceptions (a raising leaf reads as false). */
  predicate Holds(c: Constraint, e: Event) {
    match c
    case Atom(l) => EvalLeaf(l, e) == Ok(true)
    case And(p, q) => Holds(p, e) && Holds(q, e)
    case Or(p, q) => Holds(p, e) || Holds(q, e)
  }

  /** No leaf of `c` raises on `e`. */
  predicate NeverRaises(c: Constraint, e: Event) {
    match c
    case Atom(l) => EvalLeaf(l, e).Ok?
    case And(p, q) => NeverRaises(p, e) && NeverRaises(q, e)
    case Or(p, q) => NeverRaises(p, e) && NeverRaises(q, e)
  }

  /** `p & q` is the conjunction of the operands, and `q` is not called when
      `p` is false (nor when `p` raised): whatever `q` would do, even raise,
      does not matter then. */
  lemma AndShortCircuits(p: Constraint, q: Constraint, e: Event)
    ensures Eval(p, e).Ok? && Eval(q, e).Ok? ==>
      Eval(And(p, q), e) == Ok(Eval(p, e).value && Eval(q, e).value)
    ensures Eval(p, e) == Ok(false) ==>
      Eval(And(p, q), e) == Ok(false) && Calls(And(p, q), e) == Calls(p, e)
    ensures Eval(p, e) == Ok(true) ==>
      Eval(And(p, q), e) == Eval(q, e) && Calls(And(p, q), e) == Calls(p, e) + Calls(q, e)
    ensures Eval(p, e).Err? ==>
      Eval(And(p, q), e) == Eval(p, e) && Calls(And(p, q), e) == Calls(p, e)
  {
  }

  /** `p | q` is the disjunction of the operands, and `q` is not called when
      `p` is true (nor when `p` raised). */
  lemma OrShortCircuits(p: Constraint, q: Constraint, e: Event)
    ensures Eval(p, e).Ok? && Eval(q, e).Ok? ==>
      Eval(Or(p, q), e) == Ok(Eval(p, e).value || Eval(q, e).value)
    ensures Eval(p, e) == Ok(true) ==>
      Eval(Or(p, q), e) == Ok(true) && Calls(Or(p, q), e) == Calls(p, e)
    ensures Eval(p, e) == Ok(false) ==>
      Eval(Or(p, q), e) == Eval(q, e) && Calls(Or(p, q), e) == Calls(p, e) + Calls(q, e)
    ensures Eval(p, e).Err? ==>
      Eval(Or(p, q), e) == Eval(p, e) && Calls(Or(p, q), e) == Calls(p, e)
  {
  }

  /** When no leaf raises, the short-circuit evaluation agrees with the
      plain boolean reading of the constraint. */
  lemma {:induction false} EvalMatchesHolds(c: Constraint, e: Event)
    requires NeverRaises(c, e)
    ensures Eval(c, e) == Ok(Holds(c, e))
  {
    match c
    case Atom(l) =>
    case And(p, q) => EvalMatchesHolds(p, e); EvalMatchesHolds(q, e);
    case Or(p, q) => EvalMatchesHolds(p, e); EvalMatchesHolds(q, e);
  }

  /** Evaluation invokes at least one leaf; every leaf before the last one
      invoked returned normally; and the constraint raises exactly when the
      last leaf invoked raised, with that leaf's exception. So an exception
      stops the evaluation at once and propagates unchanged. */
  lemma {:induction false} RaiseStopsEvaluation(c: Constraint, e: Event)
    ensures |Calls(c, e)| > 0
    ensures forall i :: 0 <= i < |Calls(c, e)| - 1 ==> EvalLeaf(Calls(c, e)[i], e).Ok?
    ensures Eval(c, e).Err? <==> EvalLeaf(Calls(c, e)[|Calls(c, e)| - 1], e).Err?
    ensures Eval(c, e).Err? ==> Eval(c, e) == EvalLeaf(Calls(c, e)[|Calls(c, e)| - 1], e)
  {
    match c
    case Atom(l) =>
    case And(p, q) =>
      RaiseStopsEvaluation(p, e);
      RaiseStopsEvaluation(q, e);
      AndStep(p, q, e);
    case Or(p, q) =>
      RaiseStopsEvaluation(p, e);
      RaiseStopsEvaluation(q, e);
      OrStep(p, q, e);
  }

  /** `p & q` keeps the last call deciding when both operands do. */
  lemma AndStep(p: Constraint, q: Constraint, e: Event)
    requires LastCallDecidesRaise(Calls(p, e), Eval(p, e), e)
    requires LastCallDecidesRaise(Calls(q, e), Eval(q, e), e)
    ensures LastCallDecidesRaise(Calls(And(p, q), e), Eval(And(p, q), e), e)
  {
    if Eval(p, e) == Ok(true) {
      ShortCircuitStep(Calls(p, e), Eval(p, e), Calls(q, e), Eval(q, e), e);
    } else {
      assert Calls(And(p, q), e) == Calls(p, e) + [] == Calls(p, e);
    }
  }

  /** `p | q` keeps the last call deciding when both operands do. */
  lemma OrStep(p: Constraint, q: Constraint, e: Event)
    requires LastCallDecidesRaise(Calls(p, e), Eval(p, e), e)
    requires LastCallDecidesRaise(Calls(q, e), Eval(q, e), e)
    ensures LastCallDecidesRaise(Calls(Or(p, q), e), Eval(Or(p, q), e), e)
  {
    if Eval(p, e) == Ok(false) {
      ShortCircuitStep(Calls(p, e), Eval(p, e), Calls(q, e), Eval(q, e), e);
    } else {
      assert Calls(Or(p, q), e) == Calls(p, e) + [] == Calls(p, e);
    }
  }

  /** The calls made so far end with the only leaf that may have raised,
      and the result raised exactly when that leaf did. */
  predicate LastCallDecidesRaise(calls: seq<Leaf>, r: Result<bool>, e: Event) {
    && |calls| > 0
    && (forall i :: 0 <= i < |calls| - 1 ==> EvalLeaf(calls[i], e).Ok?)
    && (r.Err? <==> EvalLeaf(calls[|calls| - 1], e).Err?)
    && (r.Err? ==> r == EvalLeaf(calls[|calls| - 1], e))
  }

  /** Calling a second operand after the first returned normally keeps the
      last call deciding, with the second operand's result as the result. */
  lemma ShortCircuitStep(cp: seq<Leaf>, rp: Result<bool>, cq: seq<Leaf>, rq: Result<bool>, e: Event)
    requires LastCallDecidesRaise(cp, rp, e) && LastCallDecidesRaise(cq, rq, e) && rp.Ok?
    ensures LastCallDecidesRaise(cp + cq, rq, e)
  {
    forall i | 0 <= i < |cp + cq| - 1 ensures EvalLeaf((cp + cq)[i], e).Ok? {
      if i >= |cp| { assert (cp + cq)[i] == cq[i - |cp|]; }
    }
    assert (cp + cq)[|cp + cq| - 1] == cq[|cq| - 1];
  }

  /** Only the leaves actually invoked decide the outcome: two events on
      which every invoked leaf answers alike give the same result and the
      same calls, whatever the uninvoked operands would answer. */
  lemma {:induction false} OnlyInvokedLeavesMatter(c: Constraint, e1: Event, e2: Event)
    requires forall i :: 0 <= i < |Calls(c, e1)| ==>
      EvalLeaf(Calls(c, e1)[i], e1) == EvalLeaf(Calls(c, e1)[i], e2)
    ensures Eval(c, e1) == Eval(c, e2)
    ensures Calls(c, e1) == Calls(c, e2)
    decreases Size(c), 1
  {
    match c
    case Atom(l) =>
      assert Calls(c, e1)[0] == l;
    case And(p, q) =>
      OperandsAgree(p, q, Calls(c, e1), Eval(p, e1) == Ok(true), e1, e2);
    case Or(p, q) =>
      OperandsAgree(p, q, Calls(c, e1), Eval(p, e1) == Ok(false), e1, e2);
  }

  /** The step of OnlyInvokedLeavesMatter for a binary constraint whose
      calls are those of `p`, followed by those of `q` when `q` is reached. */
  lemma {:induction false} OperandsAgree(
    p: Constraint, q: Constraint, calls: seq<Leaf>, reached: bool, e1: Event, e2: Event)
    requires calls == Calls(p, e1) + (if reached then Calls(q, e1) else [])
    requires forall i :: 0 <= i < |calls| ==> EvalLeaf(calls[i], e1) == EvalLeaf(calls[i], e2)
    ensures Eval(p, e1) == Eval(p, e2) && Calls(p, e1) == Calls(p, e2)
    ensures reached ==> Eval(q, e1) == Eval(q, e2) && Calls(q, e1) == Calls(q, e2)
    decreases Size(p) + Size(q) + 1, 0
  {
    var cp := Calls(p, e1);
    forall i | 0 <= i < |cp| ensures EvalLeaf(cp[i], e1) == EvalLeaf(cp[i], e2) {
      assert calls[i] == cp[i];
    }
    OnlyInvokedLeavesMatter(p, e1, e2);
    if reached {
      var cq := Calls(q, e1);
      forall i | 0 <= i < |cq| ensures EvalLeaf(cq[i], e1) == EvalLeaf(cq[i], e2) {
        assert calls[|cp| + i] == cq[i];
      }
      OnlyInvokedLeavesMatter(q, e1, e2);
    }
  }

  /** Constraints compose to any depth: regrouping a chain of `&` changes
      neither the result nor the leaves invoked. */
  lemma AndAssociative(p: Constraint, q: Constraint, r: Constraint, e: Event)
    ensures Eval(And(And(p, q), r), e) == Eval(And(p, And(q, r)), e)
    ensures Calls(And(And(p, q), r), e) == Calls(And(p, And(q, r)), e)
  {
    var cp, cq, cr := Calls(p, e), Calls(q, e), Calls(r, e);
    if Eval(p, e) == Ok(true) {
      if Eval(q, e) == Ok(true) {
        assert cp + cq + cr == cp + (cq + cr);
      } else {
        assert cp + cq + [] == cp + (cq + []);
      }
    } else {
      assert cp + [] + [] == cp + [];
    }
  }

  /** The same for a chain of `|`. */
  lemma OrAssociative(p: Constraint, q: Constraint, r: Constraint, e: Event)
    ensures Eval(Or(Or(p, q), r), e) == Eval(Or(p, Or(q, r)), e)
    ensures Calls(Or(Or(p, q), r), e) == Calls(Or(p, Or(q, r)), e)
  {
    var cp, cq, cr := Calls(p, e), Calls(q, e), Calls(r, e);
    if Eval(p, e) == Ok(false) {
      if Eval(q, e) == Ok(false) {
        assert cp + cq + cr == cp + (cq + cr);
      } else {
        assert cp + cq + [] == cp + (cq + []);
      }
    } else {
      assert cp + [] + [] == cp + [];
    }
  }
}
