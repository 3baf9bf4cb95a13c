/**
 * The condition-tree evaluator. Eval and All are the meaning of a condition
 * and of a list of conditions; Tested and TestedAll list, in order, the
 * nodes whose rule an evaluation tests, which is what shows the
 * short-circuiting. The class RuleSet runs the same evaluation with loops
 * and is proved to agree with them.
 */
module RuleSets {
  import opened Wrappers
  import opened Ledger
  import Rules

  type Verdict = Result<bool, Rules.EvalError>

  /** A node fails when its rule's outcome is not the expected one; otherwise all its children must pass. */
  function Eval(c: Cond, a: Action): Verdict
    decreases c, 1
  {
    match Rules.Outcome(c.rule, a)
    case Err(e) => Err(e)
    case Ok(actual) => if actual != c.expected then Ok(false) else All(c.children, a)
  }

  /** Every condition of the list passes, checked left to right and stopping at the first that does not. */
  function All(cs: seq<Cond>, a: Action): Verdict
    decreases cs, 0
  {
    if cs == [] then Ok(true)
    else
      match Eval(cs[0], a)
      case Err(e) => Err(e)
      case Ok(pass) => if !pass then Ok(false) else All(cs[1..], a)
  }

  /** The nodes whose rule Eval(c, a) tests, in the order it tests them. */
  function Tested(c: Cond, a: Action): (t: seq<Cond>)
    decreases c, 1
  {
    [c] + match Rules.Outcome(c.rule, a)
          case Ok(actual) => if actual == c.expected then TestedAll(c.children, a) else []
          case Err(_) => []
  }

  /** The nodes whose rule All(cs, a) tests, in the order it tests them. */
  function TestedAll(cs: seq<Cond>, a: Action): seq<Cond>
    decreases cs, 0
  {
    if cs == [] then []
    else Tested(cs[0], a) + if Eval(cs[0], a) == Ok(true) then TestedAll(cs[1..], a) else []
  }

  /**
   * The top-level loop as it is written: each condition's evaluation is
   * compared with that condition's own expected outcome, instead of being
   * required to pass.
   */
  function AllAsWritten(cs: seq<Cond>, a: Action): Verdict
  {
    if cs == [] then Ok(true)
    else
      match Eval(cs[0], a)
      case Err(e) => Err(e)
      case Ok(pass) => if pass != cs[0].expected then Ok(false) else AllAsWritten(cs[1..], a)
  }

  /** A transfer must pass the rules of both stashes; an alteration those of its stash. */
  function Permitted(a: Action): Verdict
  {
    match All(a.stash.conditions, a)
    case Err(e) => Err(e)
    case Ok(pass) =>
      if !pass then Ok(false)
      else if a.TransAction? then All(a.target.conditions, a)
      else Ok(true)
  }

  // ---------------------------------------------------------------------
  // Properties of the evaluator.

  /** A node whose rule disagrees with its expectation fails, and none of its children is tested. */
  lemma MismatchRejects(c: Cond, a: Action)
    requires Rules.Outcome(c.rule, a).Ok? && Rules.Outcome(c.rule, a).value != c.expected
    ensures Eval(c, a) == Ok(false)
    ensures Tested(c, a) == [c]
  {
  }

  /** A node whose rule agrees with its expectation and that has no children passes. */
  lemma LeafPasses(c: Cond, a: Action)
    requires Rules.Outcome(c.rule, a) == Ok(c.expected) && c.children == []
    ensures Eval(c, a) == Ok(true)
    ensures Tested(c, a) == [c]
  {
  }

  /** A list passes iff every one of its conditions passes. */
  lemma {:induction false} AllPassIff(cs: seq<Cond>, a: Action)
    ensures All(cs, a) == Ok(true) <==> forall i :: 0 <= i < |cs| ==> Eval(cs[i], a) == Ok(true)
  {
    if cs != [] {
      AllPassIff(cs[1..], a);
      if Eval(cs[0], a) == Ok(true) {
        assert forall i :: 1 <= i < |cs| ==> cs[i] == cs[1..][i - 1];
      }
    }
  }

  /** A node whose rule agrees with its expectation passes iff every child passes. */
  lemma MatchingNodePassesIff(c: Cond, a: Action)
    requires Rules.Outcome(c.rule, a) == Ok(c.expected)
    ensures Eval(c, a) == Ok(true) <==> forall i :: 0 <= i < |c.children| ==> Eval(c.children[i], a) == Ok(true)
  {
    AllPassIff(c.children, a);
  }

  /**
   * When the conditions before index i pass and condition i does not, the
   * list has condition i's verdict and no condition after i is tested.
   */
  lemma {:induction false} AllStopsAtFirstFailure(cs: seq<Cond>, a: Action, i: nat)
    requires i < |cs|
    requires forall j :: 0 <= j < i ==> Eval(cs[j], a) == Ok(true)
    requires Eval(cs[i], a) != Ok(true)
    ensures All(cs, a) == Eval(cs[i], a)
    ensures TestedAll(cs, a) == TestedAll(cs[..i + 1], a)
  {
    var prefix := cs[..i + 1];
    assert prefix[0] == cs[0];
    if i > 0 {
      assert forall j :: 0 <= j < i - 1 ==> cs[1..][j] == cs[j + 1];
      AllStopsAtFirstFailure(cs[1..], a, i - 1);
      assert prefix[1..] == cs[1..][..i];
    } else {
      assert prefix[1..] == [];
    }
  }

  /** A rule set without conditions accepts every action and tests no rule. */
  lemma EmptyRuleSetAccepts(a: Action)
    ensures All([], a) == Ok(true)
    ensures AllAsWritten([], a) == Ok(true)
    ensures TestedAll([], a) == []
  {
  }

  /** The written top-level loop agrees with the intended one when every top-level expectation is true. */
  lemma {:induction false} AsWrittenAgreesWhenExpectTrue(cs: seq<Cond>, a: Action)
    requires forall i :: 0 <= i < |cs| ==> cs[i].expected
    ensures AllAsWritten(cs, a) == All(cs, a)
  {
    if cs != [] {
      assert cs[0].expected;
      assert forall i :: 0 <= i < |cs| - 1 ==> cs[1..][i] == cs[i + 1];
      AsWrittenAgreesWhenExpectTrue(cs[1..], a);
    }
  }

  /**
   * An evaluation fails with an error exactly when one of the rules it
   * tested did: an error is never turned into a verdict, and a verdict
   * never comes from nowhere.
   */
  lemma {:induction false} ErrorIffTestedRuleErrs(c: Cond, a: Action)
    ensures Eval(c, a).Err? <==> exists n :: n in Tested(c, a) && Rules.Outcome(n.rule, a).Err?
    decreases c, 1
  {
    if Rules.Outcome(c.rule, a).Err? {
      assert c in Tested(c, a);
    } else if Rules.Outcome(c.rule, a).value != c.expected {
      assert Tested(c, a) == [c];
    } else {
      ErrorIffTestedAllErrs(c.children, a);
      assert Tested(c, a) == [c] + TestedAll(c.children, a);
      if Eval(c, a).Err? {
        var n :| n in TestedAll(c.children, a) && Rules.Outcome(n.rule, a).Err?;
        assert n in Tested(c, a);
      }
    }
  }

  lemma {:induction false} ErrorIffTestedAllErrs(cs: seq<Cond>, a: Action)
    ensures All(cs, a).Err? <==> exists n :: n in TestedAll(cs, a) && Rules.Outcome(n.rule, a).Err?
    decreases cs, 0
  {
    if cs != [] {
      ErrorIffTestedRuleErrs(cs[0], a);
      match Eval(cs[0], a)
      case Err(_) =>
        var n :| n in Tested(cs[0], a) && Rules.Outcome(n.rule, a).Err?;
        assert n in TestedAll(cs, a);
      case Ok(pass) =>
        if !pass {
          assert TestedAll(cs, a) == Tested(cs[0], a);
        } else {
          ErrorIffTestedAllErrs(cs[1..], a);
          assert TestedAll(cs, a) == Tested(cs[0], a) + TestedAll(cs[1..], a);
          if All(cs, a).Err? {
            var n :| n in TestedAll(cs[1..], a) && Rules.Outcome(n.rule, a).Err?;
            assert n in TestedAll(cs, a);
          }
        }
    }
  }

  /** An action is permitted iff its stash's rules pass and, for a transfer, the target stash's rules pass too. */
  lemma PermittedNeedsBothStashes(a: Action)
    ensures Permitted(a) == Ok(true) <==>
      All(a.stash.conditions, a) == Ok(true) && (a.TransAction? ==> All(a.target.conditions, a) == Ok(true))
  {
  }

  /** Eval and Tested of a node, given the outcome of its rule. */
  lemma NodeSteps(c: Cond, a: Action, outcome: Verdict)
    requires outcome == Rules.Outcome(c.rule, a)
    ensures outcome.Err? ==> Eval(c, a) == Err(outcome.error) && Tested(c, a) == [c]
    ensures outcome.Ok? && outcome.value != c.expected ==> Eval(c, a) == Ok(false) && Tested(c, a) == [c]
    ensures outcome == Ok(c.expected) ==> Eval(c, a) == All(c.children, a) && Tested(c, a) == [c] + TestedAll(c.children, a)
  {
  }

  /** One step of a list evaluation that resumes at index i. */
  lemma UnfoldAt(cs: seq<Cond>, a: Action, i: nat)
    requires i < |cs|
    ensures All(cs[i..], a) == match Eval(cs[i], a)
                               case Err(e) => Err(e)
                               case Ok(pass) => if !pass then Ok(false) else All(cs[i + 1..], a)
    ensures TestedAll(cs[i..], a) == Tested(cs[i], a) + if Eval(cs[i], a) == Ok(true) then TestedAll(cs[i + 1..], a) else []
  {
    assert cs[i..][0] == cs[i] && cs[i..][1..] == cs[i + 1..];
  }

  // ---------------------------------------------------------------------
  // The rule set object.

  class RuleSet {
    var conditions: seq<Cond>

    constructor (conditions: seq<Cond>)
      ensures this.conditions == conditions
    {
      this.conditions := conditions;
    }

    /**
     * Evaluates one condition: tests its rule, and when the outcome is the
     * expected one evaluates the children in order, returning at the first
     * that does not pass. `tested` records each node whose rule is tested.
     */
    method TestCondition(action: Action, condition: Cond) returns (r: Verdict, ghost tested: seq<Cond>)
      ensures r == Eval(condition, action)
      ensures tested == Tested(condition, action)
      decreases condition
    {
      var actual := Rules.Test(condition.rule, action);
      NodeSteps(condition, action, actual);
      tested := [condition];
      if actual.Err? {
        return Err(actual.error), tested;
      }
      if condition.expected != actual.value {
        return Ok(false), tested;
      }
      var cs := condition.children;
      assert cs[0..] == cs;
      var i := 0;
      while i < |cs|
        invariant 0 <= i <= |cs|
        invariant All(cs, action) == All(cs[i..], action)
        invariant [condition] + TestedAll(cs, action) == tested + TestedAll(cs[i..], action)
      {
        UnfoldAt(cs, action, i);
        var sub, subTested := TestCondition(action, cs[i]);
        ghost var before := tested;
        tested := tested + subTested;
        if sub != Ok(true) {
          assert TestedAll(cs[i..], action) == subTested;
          assert [condition] + TestedAll(cs, action) == tested;
        } else {
          assert before + TestedAll(cs[i..], action) == tested + TestedAll(cs[i + 1..], action);
        }
        if sub.Err? {
          return sub, tested;
        }
        if !sub.value {
          return Ok(false), tested;
        }
        i := i + 1;
      }
      return Ok(true), tested;
    }

    /** Accepts the action when every top-level condition passes, stopping at the first that does not. */
    method Test(action: Action) returns (r: Verdict, ghost tested: seq<Cond>)
      ensures r == All(conditions, action)
      ensures tested == TestedAll(conditions, action)
    {
      tested := [];
      assert conditions[0..] == conditions;
      var i := 0;
      while i < |conditions|
        invariant 0 <= i <= |conditions|
        invariant All(conditions, action) == All(conditions[i..], action)
        invariant TestedAll(conditions, action) == tested + TestedAll(conditions[i..], action)
      {
        UnfoldAt(conditions, action, i);
        var pass, subTested := TestCondition(action, conditions[i]);
        ghost var before := tested;
        tested := tested + subTested;
        if pass != Ok(true) {
          assert TestedAll(conditions[i..], action) == subTested;
        } else {
          assert before + TestedAll(conditions[i..], action) == tested + TestedAll(conditions[i + 1..], action);
        }
        if pass.Err? {
          return pass, tested;
        }
        if !pass.value {
          return Ok(false), tested;
        }
        i := i + 1;
      }
      return Ok(true), tested;
    }
  }
}
