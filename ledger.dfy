/**
 * The domain that rules test against: agents (by id), badges, stashes and
 * the two kinds of ledger action. Agents are referred to by their id only,
 * which is all any rule reads of them.
 */
module Ledger {
  import opened Wrappers
  import opened Money

  type AgentId = string

  /** A reputation marker with its id and the agent holding it. */
  datatype Badge = Badge(id: string, holder: AgentId)

  /**
   * The rules: the three base rules that deny everything, and the two
   * built-in rules. TransActionBase and TransactionLessThanAmount apply to
   * transfers only, AlterActionBase to alterations only, the others to both.
   */
  datatype Rule =
    | TransActionBase
    | AlterActionBase
    | ActionBase
    | TransactionLessThanAmount(limit: TokenAmount)
    | AgentHasStashBadge(badgeId: string)

  /**
   * A condition-tree node: the rule, the outcome it is expected to have,
   * and the sub-conditions required in addition when it has that outcome.
   */
  datatype Cond = Cond(rule: Rule, expected: bool, children: seq<Cond>)

  /** A stash: its creating agent, its badges and its rule set's conditions. */
  datatype Stash = Stash(owner: AgentId, badges: seq<Badge>, conditions: seq<Cond>)

  /** A proposed ledger entry: a transfer of value, or a change of a stash's rules. */
  datatype Action =
    | TransAction(stash: Stash, agent: AgentId, target: Stash, amount: TokenAmount)
    | AlterAction(stash: Stash, agent: AgentId, oldRule: Option<Rule>, newRule: Option<Rule>)
}
