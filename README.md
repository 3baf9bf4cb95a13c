# Stash policy engine

A model in Dafny of the policy engine of the stash prototype: the part that
decides whether a proposed ledger action is allowed by the rule tree of a
stash (an account).

- **Money** (`money.dfy`). A `TokenAmount` is an exact integer count of minor
  units (hundredths) plus a token string. It has comparisons, add, subtract,
  scaling by an integer, and formatting as `10.00`, `10.00 USD` or `$10.00`.
  Binary operations on amounts of different tokens fail with `UnitMismatch`.
  `MoneyOf(n)` is the source's `money(n)`: n major units of `USD`. The
  source declares `TokenAmount` only as an interface without method bodies
  (types/globals.d.tsx:10-22), and `money` builds one with no token
  (types/global.d.tsx:230-232). Minor units, the default token `USD`,
  `UnitMismatch` and the `-$` form for negative amounts are this model's
  reading of the comments at types/globals.d.tsx:9-12 and 25-26 and
  types/global.d.tsx:235 and 289, not code it follows.
- **Ledger** (`ledger.dfy`). Badges, stashes and the two kinds of action:
  `TransAction` (a transfer to a target stash) and `AlterAction` (a change
  of a stash's rules). Agents appear only as their id, which is all a rule
  reads of them. The condition tree is one datatype, `Cond(rule, expected,
  children)`. The source spells these fields three ways:
  `rule/expect/conditions`, `rule/if/if_true_then` and
  `check_if/is/if_true_then`.
- **Rules** (`rules.dfy`). Rules are a tagged datatype, not a class chain.
  There are the three base rules, which deny everything, and the two built-in
  rules `TransactionLessThanAmount` and `AgentHasStashBadge`. `Outcome` is
  what `rule.test(action)` means. It returns a `Result`, so a rule applied to
  the wrong kind of action gives `RuleActionTypeMismatch` instead of `false`.
  `ScanBadges` is the badge scan as a loop that stops at the first match.
  `PlainRender` is each rule's `plainRender`.
- **Rule sets** (`rule_set.dfy`). `Eval` and `All` give the meaning of a
  condition and of a list of conditions. `Tested` and `TestedAll` list the
  nodes whose rule an evaluation tests, in order, which is how
  short-circuiting is stated. The class `RuleSet` holds the `conditions`
  field. Its `TestCondition` and `Test` methods are the source's loops with
  early returns, proved equal to `Eval`/`All` and to the trace. Neither has a
  `modifies` clause, so neither can change `conditions`. `Permitted`
  requires a transfer to pass the rules of both its stashes.
- **Scenarios** (`scenarios.dfy`). The two example rule sets,
  `parent_has_no_limit` and `child_has_less_limit`, with their verdicts
  proved for all stashes, agents and USD amounts.

`RuleSet`, the base rule classes, `TransactionLessThanAmount`,
`AgentHasStashBadgeRule` and `money` appear twice in the source: in
`entry/stash-api.ts` or `tests/llm_translation_test.ts`, and again in
`types/global.d.tsx`. The copies are identical, so one model covers both.
The table below cites whichever copy each member's property is stated
against.

The `plainRender` phrase is spelled as in the code (`transation amount is
less than`) and its parameter key is `token`. The source's comments mention a rule registry. The source has no
explain walk over a rule set and no recursion-depth guard. None of the
three is modelled.

`Outcome`, `All` and `RuleSet.Test` use the two corrections under
"## Findings": the badge rule is the intended scan, and the top level is the
AND of its conditions. Every verdict of `Permitted` and of the `Scenarios`
lemmas is therefore one of the corrected program. `AllAsWritten` and
`HasBadgeForEach` are the code as written.

Besides those two corrections, the model departs from the code in two places:

- `parent_has_no_limit` names its fields `check_if`/`is`, but `testCondition`
  reads `rule`/`expect`. Taken literally, that rule set would fail on an
  undefined `rule`. The model reads all three spellings as the same fields,
  which is what the surrounding comments mean.
- The JavaScript base `TransActionRule.test` called on an alteration returns
  `false`. `TransactionLessThanAmount.test` on an alteration would throw on
  the missing `amount`. The model gives `RuleActionTypeMismatch` in both
  cases, so a misapplied rule can be told apart from a denial.

## Model

| member | source | states |
|---|---|---|
| `Money.Trichotomy` | types/globals.d.tsx:16-18 | for amounts of one token, exactly one of isLess, isEqual, isGreater holds |
| `Money.ComparisonsConverse` | types/globals.d.tsx:16-18 | a.isLess(b) is b.isGreater(a), and isEqual is symmetric |
| `Money.MismatchFails` | types/globals.d.tsx:16-20 | every comparison and add/subtract of amounts of different tokens fails with UnitMismatch |
| `Money.AddSubtractRoundTrip` | types/globals.d.tsx:19-20 | a.add(b).subtract(b) gives back a, and isEqual confirms it |
| `Money.AddCommutes` | types/globals.d.tsx:19 | adding amounts of one token succeeds, keeps the token and is commutative |
| `Money.MoneyOfAdditive` | types/global.d.tsx:230-232 | money(x).add(money(y)) is money(x + y) |
| `Money.MoneyOfInjective` | tests/llm_translation_test.ts:63-65 | money(n) holds n major units of USD, so distinct n give distinct amounts |
| `Money.TenPlusFiveIsFifteen` | types/globals.d.tsx:27 | money(10).add(money(5)).isEqual(money(15)) is true |
| `Money.ScalarDistributes` | types/globals.d.tsx:21 | multiplying by an integer scalar distributes over add |
| `Money.FormatPlain` | types/globals.d.tsx:26 | the plain form always ends in a point and two digits, starts with a minus sign exactly for negative amounts, has a digit after any sign, and holds no space |
| `Money.NumeralRoundTrip` | types/globals.d.tsx:26 | the decimal numeral of a natural number reads back as that number |
| `Money.PlainRoundTrip` | types/globals.d.tsx:26 | parsing the plain form of an amount gives back the amount |
| `Money.PlainFormatInjective` | types/globals.d.tsx:26 | distinct amounts print differently |
| `Money.FormatTen` | types/globals.d.tsx:26 | amt(10) prints as "10.00", "10.00 USD" and "$10.00" |
| `Money.WithUnitRoundTrip` | types/globals.d.tsx:26 | reading the with-unit form back gives the amount and the token |
| `Money.SymbolicWithoutSymbol` | types/globals.d.tsx:26 | a token with no symbol prints its symbolic form exactly as its with-unit form, and it reads back |
| `Money.SymbolicRoundTrip` | types/globals.d.tsx:26 | reading the symbolic form back gives the amount and the token, for USD with "$" or "-$" and for every other token |
| `Money.FormatRoundTrip` | types/globals.d.tsx:26 | every form reads back: the plain form to the amount, the with-unit and symbolic forms to the whole TokenAmount |
| `Rules.ScanBadges` | types/global.d.tsx:209-218 | the intended badge scan is true iff some badge of the list has the wanted id and is held by the acting agent |
| `Rules.HasBadgeForEach` | tests/llm_translation_test.ts:42-51 | the written badge test walks every badge, drops each callback result and returns false for every input |
| `Rules.AsWrittenMissesHolder` | types/global.d.tsx:210-217 | for a stash whose one badge "parent" is held by the acting agent, the intended scan finds it and the written test does not |
| `Rules.Test` | types/globals.d.tsx:62 | rule.test(action) is the rule's Outcome, running the badge scan loop for badge rules |
| `Rules.BaseRulesDeny` | entry/stash-api.ts:46-72 | ActionRule denies every action, TransActionRule every transfer, AlterActionRule every alteration |
| `Rules.MisappliedRuleFails` | types/globals.d.tsx:67-75 | a transfer-only rule on an alteration, or an alteration-only rule on a transfer, gives RuleActionTypeMismatch |
| `Rules.LessThanAmountIsStrict` | types/global.d.tsx:188-193 | TransactionLessThanAmount is true iff the amount is strictly below the limit, so an equal amount gives false |
| `Rules.LessThanAmountNeedsToken` | tests/llm_translation_test.ts:21-26 | a transfer in a token other than the limit's gives UnitMismatch |
| `Rules.BadgeRuleIff` | types/global.d.tsx:202-219 | the intended badge rule holds iff a badge of the action's stash matches both the id and the acting agent |
| `Rules.RenderShape` | types/global.d.tsx:195-208 | each built-in rule renders as its fixed phrase with its parameter as the only map entry, base rules have no rendering, and no rendering depends on an action |
| `Rules.RenderInjective` | tests/llm_translation_test.ts:28-41 | two rules that render alike are the same rule |
| `RuleSets.MismatchRejects` | entry/stash-api.ts:10-12 | a node whose rule disagrees with its expectation fails and only its own rule is tested |
| `RuleSets.LeafPasses` | entry/stash-api.ts:13-20 | a matching node with no sub-conditions passes |
| `RuleSets.AllPassIff` | entry/stash-api.ts:2 | a list of conditions passes iff every condition in it passes |
| `RuleSets.MatchingNodePassesIff` | entry/stash-api.ts:13-20 | a matching node passes iff every sub-condition passes |
| `RuleSets.AllStopsAtFirstFailure` | entry/stash-api.ts:14-18 | once condition i fails, the list has its verdict and nothing after i is tested |
| `RuleSets.EmptyRuleSetAccepts` | types/global.d.tsx:129-136 | a rule set with no conditions accepts every action and tests no rule |
| `RuleSets.AsWrittenAgreesWhenExpectTrue` | entry/stash-api.ts:23-27 | the written top-level loop agrees with the intended one when every top-level expectation is true |
| `RuleSets.AllAsWritten` | entry/stash-api.ts:22-29 | the top-level loop as written: each condition's result is compared with its own expect; `AsWrittenAgreesWhenExpectTrue`, `AsWrittenRefusesAllowedTransfer` and `AsWrittenAcceptsRefusedTransfer` state how it relates to the intended AND |
| `RuleSets.ErrorIffTestedRuleErrs` | entry/stash-api.ts:9-21 | a condition's evaluation is an error iff the rule of one of the nodes it tested gave an error |
| `RuleSets.ErrorIffTestedAllErrs` | types/global.d.tsx:116-128 | a list's evaluation is an error iff the rule of one of the nodes it tested gave an error |
| `RuleSets.PermittedNeedsBothStashes` | types/globals.d.tsx:36-40 | an action is permitted iff its stash's rules pass and, for a transfer, the target stash's rules pass too |
| `RuleSets.RuleSet.constructor` | entry/stash-api.ts:6-8 | the constructor stores the given conditions unchanged |
| `RuleSets.RuleSet.TestCondition` | entry/stash-api.ts:9-21 | the loop returns the verdict of Eval and tests exactly the nodes of Tested, in order |
| `RuleSets.RuleSet.Test` | entry/stash-api.ts:22-29 | the corrected loop returns the AND of all top-level conditions and tests exactly the nodes of TestedAll, in order |
| `Scenarios.ParentHasNoLimit` | types/global.d.tsx:236-246 | the rule set "if the agent lacks badge parent, the transfer must be under 100.00 USD"; its verdicts are stated by `NonParentIsLimited`, `NonParentFiftyPassesHundredFiftyFails` and `ParentFailsAtRoot` |
| `Scenarios.ChildHasLessLimit` | types/global.d.tsx:257-266 | the rule set "if the agent holds badge child, the transfer must not be under 100.00 USD"; its verdicts are stated by `ChildNeedsAtLeastLimit`, `ChildFiftyFailsHundredFiftyPasses` and `NonChildFailsAtRoot` |
| `Scenarios.NonParentIsLimited` | types/global.d.tsx:235-246 | under parent_has_no_limit, an agent without "parent" passes exactly when sending under 100.00 USD |
| `Scenarios.NonParentFiftyPassesHundredFiftyFails` | tests/llm_translation_test.ts:69-79 | a non-parent sending 50 passes; sending 100 or 150 fails |
| `Scenarios.ParentFailsAtRoot` | tests/llm_translation_test.ts:68-79 | a "parent" holder fails at the top node and the amount rule is never tested |
| `Scenarios.ChildNeedsAtLeastLimit` | types/global.d.tsx:257-266 | under child_has_less_limit, a "child" holder passes exactly when sending 100.00 USD or more |
| `Scenarios.ChildFiftyFailsHundredFiftyPasses` | tests/llm_translation_test.ts:90-99 | a "child" holder sending 50 fails and sending 150 passes |
| `Scenarios.NonChildFailsAtRoot` | tests/llm_translation_test.ts:92-93 | an agent without "child" fails at the top node and the amount rule is never tested |
| `Scenarios.ParentHasNoLimitVerdicts` | tests/llm_translation_test.ts:69-78 | a RuleSet object built from parent_has_no_limit accepts a non-parent's 50 and then refuses their 150 |
| `Scenarios.TransferChecksBothStashes` | types/globals.d.tsx:36 | a transfer that its source stash allows but its target stash refuses is not permitted |
| `Scenarios.AsWrittenRefusesAllowedTransfer` | entry/stash-api.ts:24 | the written loop refuses a non-parent's 50 transfer, which the intended one accepts |
| `Scenarios.AsWrittenAcceptsRefusedTransfer` | types/global.d.tsx:131 | the written loop accepts a "parent" holder's 500 transfer, which the intended one refuses |

## Findings

| source | as written | input that shows it | evidently intended | confidence | as-written member | corrected member |
|---|---|---|---|---|---|---|
| entry/stash-api.ts:24 (also types/global.d.tsx:131) | `test` compares each top-level `testCondition` result with that condition's `expect` | parent_has_no_limit with a non-parent sending 50: refused. The same with a "parent" holder sending 500: accepted | every top-level condition must pass ("if all of the rules pass, then the action is valid") | high; not executed | `RuleSets.AllAsWritten` (shown by `Scenarios.AsWrittenRefusesAllowedTransfer`, `Scenarios.AsWrittenAcceptsRefusedTransfer`) | `RuleSets.RuleSet.Test` (against `RuleSets.All`, with `RuleSets.AllPassIff`) |
| types/global.d.tsx:210-216 (also tests/llm_translation_test.ts:43-49) | the `return true` is inside the `forEach` callback, so it is discarded and the test always returns false | a stash whose badges are `[{id: "parent", agent: alice}]`, with alice acting | return true at the first badge with the wanted id held by the acting agent | high; not executed | `Rules.HasBadgeForEach` (shown by `Rules.AsWrittenMissesHolder`) | `Rules.ScanBadges` (with `Rules.BadgeRuleIff`) |

## Left out

- Rules.BaseRulesDeny: states the typed-error reading, not the code's. The base `TransActionRule.test` on an alteration returns `false` in the code, and the model gives `RuleActionTypeMismatch` there.
- Rules.MisappliedRuleFails: states the typed-error reading, not the code's. In the code the base rule on the wrong action gives `false`, and `TransactionLessThanAmount.test` on an alteration throws on the missing `amount`. The model gives `RuleActionTypeMismatch` for both.
- Floating-point amounts: amounts are exact integers of minor units, so fractions of a hundredth cannot be represented.
- Multiplying or dividing a TokenAmount by another TokenAmount: the product has no unit. Only scaling by an integer is modelled. Division needs a rounding rule, which the source never gives.
- Currency symbols: the source only says that "USD" is shown as "$". Other tokens have no symbol, so their symbolic form falls back to the with-unit form.
- Rule registry: the source only mentions one in a comment. Rules are built directly as datatype values.
- `render()` of rules and rule sets, and an explain walk over a whole rule set: they return React components, and `RuleSet.render` is empty. Only the per-rule `plainRender` is modelled.
- A recursion-depth guard: the source has none. Evaluation terminates because rule trees are finite values.
- The `id` field of rules: it is never set or read.
- `Reply`, `replies`, `Stash.cache`, `Stash.actions`, `Agent.stashes` and every `meta` map: no rule reads them.
- `TRANSACTION_OKAY`: the symbol is undefined. That child list is taken as empty.
- The `condition.conditions?.length` guard: a loop over an empty list does the same, so it is not written out.
- Committing an action to a stash's history: callers do this, not the evaluator. The rule that a rule change must pass the current rules is what `Permitted` checks for an `AlterAction`.
- I/O: the OpenAI client call and the React UI.
