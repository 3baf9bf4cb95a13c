/**
 * What each rule says about an action (its `test`) and how it describes
 * itself (its `plainRender`).
 */
module Rules {
  import opened Wrappers
  import opened Money
  import opened Ledger

  /** Why a rule could not give a verdict: it was applied to the wrong kind of action, or an amount comparison failed. */
  datatype EvalError = RuleActionTypeMismatch | AmountError(cause: MoneyError)

  /** Some badge of the list has the given id and is held by the given agent. */
  predicate HoldsBadge(badges: seq<Badge>, badgeId: string, agent: AgentId)
  {
    exists i :: 0 <= i < |badges| && badges[i].id == badgeId && badges[i].holder == agent
  }

  /** The outcome of `rule.test(action)`. */
  function Outcome(rule: Rule, action: Action): Result<bool, EvalError>
  {
    match rule
    case TransActionBase => if action.TransAction? then Ok(false) else Err(RuleActionTypeMismatch)
    case AlterActionBase => if action.AlterAction? then Ok(false) else Err(RuleActionTypeMismatch)
    case ActionBase => Ok(false)
    case TransactionLessThanAmount(limit) =>
      if !action.TransAction? then Err(RuleActionTypeMismatch)
      else
        match IsLess(action.amount, limit) {
          case Ok(less) => Ok(less)
          case Err(e) => Err(AmountError(e))
        }
    case AgentHasStashBadge(badgeId) => Ok(HoldsBadge(action.stash.badges, badgeId, action.agent))
  }

  /**
   * The badge scan of AgentHasStashBadgeRule.test: walk the stash's badges
   * and stop at the first one with the wanted id held by the acting agent.
   */
  method ScanBadges(badges: seq<Badge>, badgeId: string, agent: AgentId) returns (found: bool)
    ensures found == HoldsBadge(badges, badgeId, agent)
  {
    var i := 0;
    while i < |badges|
      invariant 0 <= i <= |badges|
      invariant forall j :: 0 <= j < i ==> !(badges[j].id == badgeId && badges[j].holder == agent)
    {
      if badges[i].id == badgeId {
        if badges[i].holder == agent {
          return true;
        }
      }
      i := i + 1;
    }
    return false;
  }

  /**
   * The badge test as it is written: forEach calls the callback on every
   * badge, and the callback's `return true` only ends the callback. Its
   * value is dropped, so the test reaches its final `return false`.
   */
  method HasBadgeForEach(badges: seq<Badge>, badgeId: string, agent: AgentId) returns (r: bool)
    ensures !r
  {
    var i := 0;
    while i < |badges|
      invariant 0 <= i <= |badges|
    {
      var callbackResult := badges[i].id == badgeId && badges[i].holder == agent;
      i := i + 1;
    }
    return false;
  }

  /** For a stash whose one badge "parent" is held by the acting agent, the scan finds it and the written test does not. */
  method AsWrittenMissesHolder() returns (found: bool, asWritten: bool)
    ensures found && !asWritten
  {
    var badges := [Badge("parent", "alice")];
    found := ScanBadges(badges, "parent", "alice");
    assert badges[0].id == "parent" && badges[0].holder == "alice";
    asWritten := HasBadgeForEach(badges, "parent", "alice");
  }

  /** `rule.test(action)`, dispatched on the rule and the action variant. */
  method Test(rule: Rule, action: Action) returns (r: Result<bool, EvalError>)
    ensures r == Outcome(rule, action)
  {
    match rule {
      case AgentHasStashBadge(badgeId) =>
        var found := ScanBadges(action.stash.badges, badgeId, action.agent);
        r := Ok(found);
      case TransactionLessThanAmount(limit) =>
        if !action.TransAction? {
          r := Err(RuleActionTypeMismatch);
        } else if action.amount.token != limit.token {
          r := Err(AmountError(UnitMismatch));
        } else if action.amount.amount < limit.amount {
          r := Ok(true);
        } else {
          r := Ok(false);
        }
      case TransActionBase =>
        r := if action.TransAction? then Ok(false) else Err(RuleActionTypeMismatch);
      case AlterActionBase =>
        r := if action.AlterAction? then Ok(false) else Err(RuleActionTypeMismatch);
      case ActionBase =>
        r := Ok(false);
    }
  }

  /** The base rules deny every action of the kind they accept. */
  lemma BaseRulesDeny(action: Action)
    ensures Outcome(ActionBase, action) == Ok(false)
    ensures action.TransAction? ==> Outcome(TransActionBase, action) == Ok(false)
    ensures action.AlterAction? ==> Outcome(AlterActionBase, action) == Ok(false)
  {
  }

  /** A rule applied to the wrong kind of action is an error, not a denial. */
  lemma MisappliedRuleFails(action: Action, limit: TokenAmount)
    ensures action.AlterAction? ==> Outcome(TransActionBase, action) == Err(RuleActionTypeMismatch)
    ensures action.AlterAction? ==> Outcome(TransactionLessThanAmount(limit), action) == Err(RuleActionTypeMismatch)
    ensures action.TransAction? ==> Outcome(AlterActionBase, action) == Err(RuleActionTypeMismatch)
  {
  }

  /** TransactionLessThanAmount is a strict less-than: an equal amount fails it. */
  lemma LessThanAmountIsStrict(action: Action, limit: TokenAmount)
    requires action.TransAction? && action.amount.token == limit.token
    ensures Outcome(TransactionLessThanAmount(limit), action) == Ok(action.amount.amount < limit.amount)
    ensures action.amount == limit ==> Outcome(TransactionLessThanAmount(limit), action) == Ok(false)
  {
  }

  /** A transfer in another token than the limit's cannot be compared with it. */
  lemma LessThanAmountNeedsToken(action: Action, limit: TokenAmount)
    requires action.TransAction? && action.amount.token != limit.token
    ensures Outcome(TransactionLessThanAmount(limit), action) == Err(AmountError(UnitMismatch))
  {
  }

  /** The badge rule holds iff some badge of the stash matches both the id and the acting agent. */
  lemma BadgeRuleIff(action: Action, badgeId: string)
    ensures Outcome(AgentHasStashBadge(badgeId), action) == Ok(true) <==>
      exists b :: b in action.stash.badges && b.id == badgeId && b.holder == action.agent
  {
    var bs := action.stash.badges;
    if exists b :: b in bs && b.id == badgeId && b.holder == action.agent {
      var b :| b in bs && b.id == badgeId && b.holder == action.agent;
      var i :| 0 <= i < |bs| && bs[i] == b;
      assert HoldsBadge(bs, badgeId, action.agent);
    }
  }

  // ---------------------------------------------------------------------
  // plainRender: a fixed phrase and the rule's parameter as a one-entry map.

  /** A rendered parameter: an amount or a piece of text. */
  datatype Param = AmountParam(amount: TokenAmount) | TextParam(text: string)

  /** The base rules have no plainRender. */
  function PlainRender(rule: Rule): Option<(string, map<string, Param>)>
  {
    match rule
    case TransactionLessThanAmount(limit) => Some(("transation amount is less than", map["token" := AmountParam(limit)]))
    case AgentHasStashBadge(badgeId) => Some(("member holds", map["badge_id" := TextParam(badgeId)]))
    case _ => None
  }

  /** Each built-in rule renders as its phrase with its own parameter as the only entry. */
  lemma RenderShape(rule: Rule)
    ensures rule.TransactionLessThanAmount? ==>
      PlainRender(rule) == Some(("transation amount is less than", map["token" := AmountParam(rule.limit)]))
    ensures rule.AgentHasStashBadge? ==>
      PlainRender(rule) == Some(("member holds", map["badge_id" := TextParam(rule.badgeId)]))
    ensures PlainRender(rule).Some? <==> rule.TransactionLessThanAmount? || rule.AgentHasStashBadge?
    ensures PlainRender(rule).Some? ==> |PlainRender(rule).value.1| == 1
  {
  }

  /** A rendering loses nothing: two rules that render alike are the same rule. */
  lemma RenderInjective(r1: Rule, r2: Rule)
    requires PlainRender(r1).Some? && PlainRender(r1) == PlainRender(r2)
    ensures r1 == r2
  {
    if r1.TransactionLessThanAmount? {
      assert PlainRender(r1).value.1["token"] == AmountParam(r1.limit);
    } else {
      assert PlainRender(r1).value.1["badge_id"] == TextParam(r1.badgeId);
    }
  }
}
