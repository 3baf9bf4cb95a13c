/**
 * The two example rule sets and their verdicts: parent_has_no_limit caps
 * transfers of agents without the "parent" badge below 100.00 USD, and
 * child_has_less_limit lets holders of the "child" badge transfer only
 * 100.00 USD or more.
 */
module Scenarios {
  import opened Wrappers
  import opened Money
  import opened Ledger
  import opened Rules
  import opened RuleSets

  /** The transfer limit both example rule sets use. */
  function Limit(): TokenAmount { MoneyOf(100) }

  /** When the agent does not hold "parent", the transfer must be under the limit. */
  function ParentHasNoLimit(): seq<Cond>
  {
    [Cond(AgentHasStashBadge("parent"), false, [Cond(TransactionLessThanAmount(Limit()), true, [])])]
  }

  /** When the agent holds "child", the transfer must not be under the limit. */
  function ChildHasLessLimit(): seq<Cond>
  {
    [Cond(AgentHasStashBadge("child"), true, [Cond(TransactionLessThanAmount(Limit()), false, [])])]
  }

  /** An agent without the "parent" badge may transfer exactly the amounts under 100.00 USD. */
  lemma NonParentIsLimited(stash: Stash, agent: AgentId, target: Stash, amount: TokenAmount)
    requires !HoldsBadge(stash.badges, "parent", agent) && amount.token == DefaultToken
    ensures All(ParentHasNoLimit(), TransAction(stash, agent, target, amount)) == Ok(amount.amount < 100 * MinorPerMajor)
  {
    var a := TransAction(stash, agent, target, amount);
    var top := ParentHasNoLimit()[0];
    var amountNode := top.children[0];
    assert Eval(amountNode, a) == Ok(amount.amount < 100 * MinorPerMajor);
    assert top.children[1..] == [] && ParentHasNoLimit()[1..] == [];
    assert All(top.children, a) == Eval(amountNode, a);
  }

  /** Sending 50.00 USD passes; sending 100.00 or 150.00 USD fails. */
  lemma NonParentFiftyPassesHundredFiftyFails(stash: Stash, agent: AgentId, target: Stash)
    requires !HoldsBadge(stash.badges, "parent", agent)
    ensures All(ParentHasNoLimit(), TransAction(stash, agent, target, MoneyOf(50))) == Ok(true)
    ensures All(ParentHasNoLimit(), TransAction(stash, agent, target, MoneyOf(100))) == Ok(false)
    ensures All(ParentHasNoLimit(), TransAction(stash, agent, target, MoneyOf(150))) == Ok(false)
  {
    NonParentIsLimited(stash, agent, target, MoneyOf(50));
    NonParentIsLimited(stash, agent, target, MoneyOf(100));
    NonParentIsLimited(stash, agent, target, MoneyOf(150));
  }

  /** A "parent" holder fails at the top node, whatever the action, and the amount rule is never tested. */
  lemma ParentFailsAtRoot(a: Action)
    requires HoldsBadge(a.stash.badges, "parent", a.agent)
    ensures All(ParentHasNoLimit(), a) == Ok(false)
    ensures TestedAll(ParentHasNoLimit(), a) == [ParentHasNoLimit()[0]]
    ensures forall n :: n in TestedAll(ParentHasNoLimit(), a) ==> !n.rule.TransactionLessThanAmount?
  {
    MismatchRejects(ParentHasNoLimit()[0], a);
  }

  /** A "child" holder may transfer exactly the amounts of 100.00 USD or more. */
  lemma ChildNeedsAtLeastLimit(stash: Stash, agent: AgentId, target: Stash, amount: TokenAmount)
    requires HoldsBadge(stash.badges, "child", agent) && amount.token == DefaultToken
    ensures All(ChildHasLessLimit(), TransAction(stash, agent, target, amount)) == Ok(amount.amount >= 100 * MinorPerMajor)
  {
    var a := TransAction(stash, agent, target, amount);
    var top := ChildHasLessLimit()[0];
    var amountNode := top.children[0];
    assert Eval(amountNode, a) == Ok(amount.amount >= 100 * MinorPerMajor);
    assert top.children[1..] == [] && ChildHasLessLimit()[1..] == [];
    assert All(top.children, a) == Eval(amountNode, a);
  }

  /** A "child" holder sending 50.00 USD fails; sending 150.00 USD passes. */
  lemma ChildFiftyFailsHundredFiftyPasses(stash: Stash, agent: AgentId, target: Stash)
    requires HoldsBadge(stash.badges, "child", agent)
    ensures All(ChildHasLessLimit(), TransAction(stash, agent, target, MoneyOf(50))) == Ok(false)
    ensures All(ChildHasLessLimit(), TransAction(stash, agent, target, MoneyOf(150))) == Ok(true)
  {
    ChildNeedsAtLeastLimit(stash, agent, target, MoneyOf(50));
    ChildNeedsAtLeastLimit(stash, agent, target, MoneyOf(150));
  }

  /** An agent without the "child" badge fails at the top node, and the amount rule is never tested. */
  lemma NonChildFailsAtRoot(a: Action)
    requires !HoldsBadge(a.stash.badges, "child", a.agent)
    ensures All(ChildHasLessLimit(), a) == Ok(false)
    ensures TestedAll(ChildHasLessLimit(), a) == [ChildHasLessLimit()[0]]
    ensures forall n :: n in TestedAll(ChildHasLessLimit(), a) ==> !n.rule.TransactionLessThanAmount?
  {
    MismatchRejects(ChildHasLessLimit()[0], a);
  }

  /**
   * parent_has_no_limit run through a RuleSet object: a non-parent's
   * transfers of 50.00 and of 150.00 USD, evaluated one after the other.
   */
  method ParentHasNoLimitVerdicts() returns (fifty: Verdict, hundredFifty: Verdict)
    ensures fifty == Ok(true) && hundredFifty == Ok(false)
  {
    var stash := Stash("bank", [Badge("child", "alice")], ParentHasNoLimit());
    var target := Stash("shop", [], []);
    assert !HoldsBadge(stash.badges, "parent", "alice");
    NonParentFiftyPassesHundredFiftyFails(stash, "alice", target);
    var rules := new RuleSet(stash.conditions);
    ghost var tested;
    fifty, tested := rules.Test(TransAction(stash, "alice", target, MoneyOf(50)));
    hundredFifty, tested := rules.Test(TransAction(stash, "alice", target, MoneyOf(150)));
  }

  /** A transfer out of a parent-limited stash into a child-limited one needs both verdicts. */
  lemma TransferChecksBothStashes()
    ensures var source := Stash("bank", [], ParentHasNoLimit());
            var target := Stash("shop", [], ChildHasLessLimit());
            var a := TransAction(source, "alice", target, MoneyOf(50));
            All(source.conditions, a) == Ok(true) && All(target.conditions, a) == Ok(false) && Permitted(a) == Ok(false)
  {
    var source := Stash("bank", [], ParentHasNoLimit());
    var target := Stash("shop", [], ChildHasLessLimit());
    var a := TransAction(source, "alice", target, MoneyOf(50));
    NonParentIsLimited(source, "alice", target, MoneyOf(50));
    NonChildFailsAtRoot(a);
  }

  // ---------------------------------------------------------------------
  // The top-level loop as written inverts parent_has_no_limit, whose only
  // top-level expectation is false.

  /** The allowed 50.00 USD transfer of a non-parent is refused by the written loop. */
  lemma AsWrittenRefusesAllowedTransfer()
    ensures var a := TransAction(Stash("bank", [], ParentHasNoLimit()), "alice", Stash("shop", [], []), MoneyOf(50));
            All(ParentHasNoLimit(), a) == Ok(true) && AllAsWritten(ParentHasNoLimit(), a) == Ok(false)
  {
    var a := TransAction(Stash("bank", [], ParentHasNoLimit()), "alice", Stash("shop", [], []), MoneyOf(50));
    NonParentIsLimited(a.stash, "alice", a.target, MoneyOf(50));
    assert ParentHasNoLimit()[1..] == [];
  }

  /** The 500.00 USD transfer of a "parent" holder, refused at the root, is accepted by the written loop. */
  lemma AsWrittenAcceptsRefusedTransfer()
    ensures var a := TransAction(Stash("bank", [Badge("parent", "bob")], ParentHasNoLimit()), "bob", Stash("shop", [], []), MoneyOf(500));
            All(ParentHasNoLimit(), a) == Ok(false) && AllAsWritten(ParentHasNoLimit(), a) == Ok(true)
  {
    var a := TransAction(Stash("bank", [Badge("parent", "bob")], ParentHasNoLimit()), "bob", Stash("shop", [], []), MoneyOf(500));
    assert a.stash.badges[0].id == "parent";
    ParentFailsAtRoot(a);
    assert ParentHasNoLimit()[1..] == [];
  }
}
