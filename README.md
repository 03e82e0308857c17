# Average action cost of an agent

This project models `agent_avg_action_cost`, the estimator that sizes an
agent's execution budget from its recent credit events, and proves what it
computes.

The estimator reads the credit-event table twice:

1. **Count query.** It counts the distinct `start_message_id` values among the
   agent's *eligible* events. An event is eligible when it belongs to the
   agent, was created no earlier than three days before `now`, has upstream
   type `EXECUTOR`, has event type `MESSAGE` or `SKILL_CALL`, and has a
   non-null `start_message_id`.
2. **Fallback.** Below 10 distinct actions, the result is `1.0`.
3. **Average query.** Otherwise the eligible events are grouped by
   `start_message_id`. The amounts are summed within each group, and the
   group sums are averaged. A NULL average also gives `1.0`.
4. **Rounding.** The mean is quantized to four fractional digits with
   round-half-to-even, the default rounding of Python's decimal context.

Modules:

- `Wrappers` (`wrappers.dfy`): `Option`, standing for SQL NULL.
- `DecimalQuantize` (`decimal_quantize.dfy`): half-even rounding, and
  quantization to a fixed number of fractional digits.
- `AgentCost` (`agent_cost.dfy`): the `Event` row, the shared filter
  `Eligible`, the count query `RecordCount`, the `GROUP BY` rows `GroupRows`,
  the grouped `SUM`/`AVG` query `AvgQuery`, the estimator `AvgActionCost`,
  and the lemmas that equate the grouped sum with the plain eligible total.
- `AgentCostProperties` (`agent_cost_properties.dfy`): the lemmas.

Representation choices:

- The table is one snapshot, given as a `seq<Event>`. The row order carries
  no meaning, and `ResultIndependentOfOrder` proves that the result does not
  depend on it.
- `now` is a parameter. Timestamps are integers in microseconds (UTC), so
  `timedelta(days=3)` is the constant `ThreeDays`.
- Amounts are exact `real`s. The result is an integer number of units of
  0.0001, so the `1.0` fallback is `FallbackUnits = 10000`.
- The source's upstream and event-type enumerations are reduced to the
  members the filter names, plus one "other" member each.

The window has only a lower bound: the code tests
`created_at >= three_days_ago` (app/core/agent.py:95 and :119) and nothing
else, so an event stamped after `now` is still eligible.

## Model

| member | source | states |
|---|---|---|
| `AgentCost.RecordCount` | app/core/agent.py:91-102 | the count query counts the distinct `start_message_id` values of eligible events: never more than the number of events, and zero exactly when no event passes the filter |
| `AgentCost.ActionCost` | app/core/agent.py:116 | `SUM(total_amount)` for one action; an id that is not a counted action costs nothing |
| `AgentCost.GroupRows` | app/core/agent.py:115-123 | `GROUP BY start_message_id` yields each eligible action exactly once (no duplicates, same ids as the distinct count), and as many rows as the count query reports |
| `AgentCost.GroupedSumIsTotal` | app/core/agent.py:115-126 | summing amounts within each action and then over all actions equals the sum of all eligible amounts |
| `AgentCost.AvgQuery` | app/core/agent.py:114-127 | `AVG` over the per-action sums is NULL exactly when no action is counted; otherwise it is the eligible total divided by the number of distinct actions |
| `AgentCost.AvgActionCost` | app/core/agent.py:68-160 | the estimator: exactly 1.0 when fewer than 10 actions are counted, and otherwise the eligible total over the number of actions, quantized half-to-even to four digits |
| `AgentCostProperties.EmptyAggregateUnreachable` | app/core/agent.py:143-151 | both queries use one filter, so the average is non-NULL exactly when the count is positive; a count of at least 10 therefore never reaches the second `1.0` fallback |
| `AgentCostProperties.ResultApproximatesMean` | app/core/agent.py:154 | a computed result lies within 0.00005 of the exact mean action cost, and a tie goes to the even last digit |
| `AgentCostProperties.SparseDataFallback` | app/core/agent.py:104-110 | below 10 distinct actions the result is exactly 1.0 whatever the amounts: two tables that differ only in amounts have the same count and both give 1.0 |
| `AgentCostProperties.AppendEligibleEvent` | app/core/agent.py:92-102 | one more eligible event raises the count by one exactly when its action is new, and by zero when its `start_message_id` was already seen; its amount always joins the total |
| `AgentCostProperties.IneligibleInsertKeepsInputs` | app/core/agent.py:93-99 | inserting an event that `Eligible` rejects, anywhere in the table, leaves the set of actions (`ActionIds`) and the eligible total unchanged |
| `AgentCostProperties.IneligibleEventIgnored` | app/core/agent.py:117-122 | the filter `Eligible`: an event with the wrong agent, `created_at` before the window, upstream other than `EXECUTOR`, a type other than `MESSAGE`/`SKILL_CALL`, or a NULL `start_message_id` changes neither the count, nor the average, nor the result |
| `AgentCostProperties.WindowBoundInclusive` | app/core/agent.py:88-95 | the window start `WindowStart` is inclusive: an event created exactly three days before `now` is in the window, and one created a microsecond earlier is not |
| `AgentCostProperties.EventsAgeOut` | app/core/agent.py:88-98 | with a later `now` the set of counted actions can only shrink, and so can the count |
| `AgentCostProperties.EligibleTotalPermutation` | app/core/agent.py:114-126 | the summed amount of eligible events does not depend on the order of the rows |
| `AgentCostProperties.ResultIndependentOfOrder` | app/core/agent.py:86-160 | with a fixed `now`, two snapshots holding the same rows in any order give the same count, average and result |
| `AgentCostProperties.UniformMean` | app/core/agent.py:114-127 | when every counted action costs `c`, the mean action cost is `c` |
| `AgentCostProperties.UniformActionCosts` | app/core/agent.py:114-154 | with at least 10 actions that each cost `c`, the average is `c` and the result is `c` quantized |
| `AgentCostProperties.TwoPerActionGivesTwo` | app/core/agent.py:114-154 | at least 10 actions of 2.00 each give exactly 2.0000 |
| `AgentCostProperties.TwelveActionsExample` | app/core/agent.py:114-154 | 12 actions totalling 10 × 1.00 + 2 × 4.00 give exactly 1.5000 |
| `DecimalQuantize.RoundHalfEven` | app/core/agent.py:154 | the result is a nearest integer to its argument, and the even one on a tie |
| `DecimalQuantize.HalfEvenRoundingUnique` | app/core/agent.py:154 | only one integer is a nearest, tie-to-even rounding, so the rounding is fully determined |
| `DecimalQuantize.Quantize` | app/core/agent.py:154 | the number of 10^-places units is the half-even rounding of the value scaled by 10^places, and lies within half a unit of the value |
| `DecimalQuantize.QuantizeExact` | app/core/agent.py:154 | a value that already has at most `places` fractional digits is unchanged by quantization |
| `DecimalQuantize.QuantizeFourPlaces` | app/core/agent.py:154 | quantizing to `Decimal("0.0001")` gives the half-even rounding of x × 10000, within 0.00005 of x |

## Left out

- `AgentStore` (app/core/agent.py:17-65) is not modelled. Its get/patch calls only forward to `Agent`, `AgentData` and `AgentQuota`, and those classes are not part of this model.
- The async session, SQLAlchemy query building and parameter binding are replaced by pure functions over one snapshot of the table. Storage errors, which the source lets propagate, are not modelled.
- Logging and `time.time()` latency measurement are not modelled; they are observability only.
- The wall clock `datetime.now(timezone.utc)` is not read; `now` is a parameter.
- The two queries are taken to see the same snapshot, and `total_amount` is taken to be non-NULL. Within the model the second `1.0` fallback (app/core/agent.py:143-151) is therefore unreachable. In the source it is reached in two ways: by concurrent writes between the two queries, and by a snapshot in which every eligible `total_amount` is NULL, so that every `SUM` and hence the `AVG` is NULL. Neither is modelled.
- PostgreSQL computes `AVG` over numerics to a finite scale, and `Decimal(str(avg_cost))` re-parses that value. The model uses the exact rational mean instead. Where PostgreSQL has already rounded a non-terminating mean, the last digit can differ.
- Python's default decimal context has 28 significant digits, and `quantize` fails when the result needs more. That failure is not modelled, since the model's integers are unbounded.
- `Decimal("1.0")` and the quantized `Decimal("1.0000")` compare equal but print differently. Both are the value 10000 in the model.
