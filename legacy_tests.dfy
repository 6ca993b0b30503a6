/** pipedput/tests.py: the older predicate algebra ("tests") that the
    constraint module superseded. It has its own combinators `_OrTest` and
    `_AndTest` and a `CallbackTest` without an expected value. It is given
    its own semantics here and shown to be the constraint algebra under a
    translation, callbacks reading as `Callback(callback, True)`. */
module LegacyTests {
  import opened Common
  import opened Gitlab
  import Constraints

  /** `t1 | t2` is `OrTest(t1, t2)`, `t1 & t2` is `AndTest(t1, t2)`. */
  datatype Test =
    | OrTest(first: Test, second: Test)
    | AndTest(first: Test, second: Test)
    | CallbackTest(callback: Event -> Result<bool>)
    | RequireProject(name: string)
    | RequireTag
    | RequireSuccess

  /** Calling a test on an event. */
  function EvalTest(t: Test, e: Event): Result<bool> {
    match t
    case OrTest(p, q) =>
      (match EvalTest(p, e)
       case Err(x) => Err(x)
       case Ok(b) => if b then Ok(true) else EvalTest(q, e))
    case AndTest(p, q) =>
      (match EvalTest(p, e)
       case Err(x) => Err(x)
       case Ok(b) => if !b then Ok(false) else EvalTest(q, e))
    // `bool(callback(event)) is True`
    case CallbackTest(callback) => callback(e)
    case RequireProject(name) => Ok(e.projectPath == name)
    case RequireTag => Ok(e.tag == SBool(true))
    case RequireSuccess => Ok(e.status == SStr("success"))
  }

  /** The constraint that each test corresponds to. */
  function ToConstraint(t: Test): Constraints.Constraint {
    match t
    case OrTest(p, q) => Constraints.Or(ToConstraint(p), ToConstraint(q))
    case AndTest(p, q) => Constraints.And(ToConstraint(p), ToConstraint(q))
    case CallbackTest(callback) => Constraints.Atom(Constraints.DefaultCallback(callback))
    case RequireProject(name) => Constraints.Atom(Constraints.RequireProject(name))
    case RequireTag => Constraints.Atom(Constraints.RequireTag)
    case RequireSuccess => Constraints.Atom(Constraints.RequireSuccess)
  }

  /** Every test answers as its constraint does, exceptions included: the
      two modules implement one algebra, with the same short-circuit `or` and
      `and`, the same equality and identity tests on the event, and a
      callback test that is a callback constraint expecting True. */
  lemma {:induction false} TestsAreConstraints(t: Test, e: Event)
    ensures EvalTest(t, e) == Constraints.Eval(ToConstraint(t), e)
  {
    match t
    case OrTest(p, q) => TestsAreConstraints(p, e); TestsAreConstraints(q, e);
    case AndTest(p, q) => TestsAreConstraints(p, e); TestsAreConstraints(q, e);
    case CallbackTest(callback) =>
    case RequireProject(name) =>
    case RequireTag =>
    case RequireSuccess =>
  }

  /** `CallbackTest` is true exactly when the callback's result is truthy. */
  lemma CallbackTestIsTruthiness(callback: Event -> Result<bool>, e: Event)
    ensures EvalTest(CallbackTest(callback), e) == Ok(true) <==> callback(e) == Ok(true)
    ensures EvalTest(CallbackTest(callback), e).Err? <==> callback(e).Err?
  {
  }
}
