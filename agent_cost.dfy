/**
 * The average action cost of an agent (`agent_avg_action_cost`).
 *
 * The credit-event table is one snapshot, a sequence of events whose order
 * carries no meaning. The two SQL statements the estimator issues — the
 * distinct count and the grouped SUM followed by AVG — are functions over
 * that sequence, and the estimate is expressed in units of 0.0001.
 */
module AgentCost {
  import opened Wrappers
  import DecimalQuantize

  /** Upstream of a credit event; only EXECUTOR matters here. */
  datatype UpstreamType = Executor | OtherUpstream

  /** Kind of a credit event; only MESSAGE and SKILL_CALL matter here. */
  datatype EventType = Message | SkillCall | OtherEventType

  /** One row of the credit-event table, restricted to the columns read here. */
  datatype Event = Event(
    agentId: string,
    createdAt: int,                  // microseconds since the epoch, UTC
    upstream: UpstreamType,
    eventType: EventType,
    startMessageId: Option<string>,  // the action the event belongs to; NULL when absent
    amount: real                     // total_amount, an exact decimal
  )

  /** timedelta(days=3) in microseconds. */
  const ThreeDays: int := 3 * 24 * 60 * 60 * 1_000_000

  /** Fewer distinct actions than this and the sample is considered too small. */
  const MinRecords: nat := 10

  /** Fractional digits of the quantized result. */
  const Places: nat := 4

  /** Decimal("1.0") in units of 0.0001. */
  const FallbackUnits: int := 10_000

  /** Lower bound of the look-back window; there is no upper bound. */
  function WindowStart(now: int): int {
    now - ThreeDays
  }

  /** The WHERE clause shared by both queries. */
  predicate Eligible(e: Event, agentId: string, now: int) {
    && e.agentId == agentId
    && e.createdAt >= WindowStart(now)
    && e.upstream == Executor
    && (e.eventType == Message || e.eventType == SkillCall)
    && e.startMessageId.Some?
  }

  /** The distinct start_message_id values among eligible events. */
  function ActionIds(events: seq<Event>, agentId: string, now: int): set<string> {
    set e | e in events && Eligible(e, agentId, now) :: e.startMessageId.value
  }

  /** The actions of two tables put together are the union of their actions. */
  lemma ActionIdsAppend(s: seq<Event>, t: seq<Event>, agentId: string, now: int)
    ensures ActionIds(s + t, agentId, now) == ActionIds(s, agentId, now) + ActionIds(t, agentId, now)
  {
  }

  /** A single event contributes its action exactly when it passes the filter. */
  lemma ActionIdsSingleton(e: Event, agentId: string, now: int)
    ensures ActionIds([e], agentId, now) == if Eligible(e, agentId, now) then {e.startMessageId.value} else {}
  {
  }

  /** A table's actions are those of its first row and those of the rest. */
  lemma ActionIdsCons(events: seq<Event>, agentId: string, now: int)
    requires events != []
    ensures ActionIds(events, agentId, now) ==
      ActionIds([events[0]], agentId, now) + ActionIds(events[1..], agentId, now)
  {
    assert events == [events[0]] + events[1..];
    ActionIdsAppend([events[0]], events[1..], agentId, now);
  }

  /** There are no more distinct actions than events. */
  lemma {:induction false} ActionIdsBound(events: seq<Event>, agentId: string, now: int)
    ensures |ActionIds(events, agentId, now)| <= |events|
  {
    if events != [] {
      ActionIdsCons(events, agentId, now);
      ActionIdsSingleton(events[0], agentId, now);
      ActionIdsBound(events[1..], agentId, now);
    }
  }

  /**
   * The count query: COUNT(DISTINCT start_message_id) under the filter. It
   * counts at most one action per event, and it is zero exactly when no
   * event passes the filter.
   */
  function RecordCount(events: seq<Event>, agentId: string, now: int): (r: nat)
    ensures r <= |events|
    ensures r == 0 <==> forall i :: 0 <= i < |events| ==> !Eligible(events[i], agentId, now)
  {
    ActionIdsBound(events, agentId, now);
    assert forall i :: 0 <= i < |events| && Eligible(events[i], agentId, now) ==>
      events[i].startMessageId.value in ActionIds(events, agentId, now);
    |ActionIds(events, agentId, now)|
  }

  /**
   * SUM(total_amount) of the eligible events of action `id`; an id that is
   * not a counted action has no cost.
   */
  function ActionCost(events: seq<Event>, agentId: string, now: int, id: string): (r: real)
    ensures id !in ActionIds(events, agentId, now) ==> r == 0.0
  {
    if events == [] then 0.0
    else
      var e := events[0];
      ActionIdsCons(events, agentId, now);
      ActionIdsSingleton(e, agentId, now);
      (if Eligible(e, agentId, now) && e.startMessageId == Some(id) then e.amount else 0.0)
      + ActionCost(events[1..], agentId, now, id)
  }

  /** Sum of the amounts of all eligible events. */
  function EligibleTotal(events: seq<Event>, agentId: string, now: int): real {
    if events == [] then 0.0
    else
      (if Eligible(events[0], agentId, now) then events[0].amount else 0.0)
      + EligibleTotal(events[1..], agentId, now)
  }

  /** No value occurs twice in `ids`. */
  predicate NoDuplicates(ids: seq<string>) {
    forall i, j :: 0 <= i < j < |ids| ==> ids[i] != ids[j]
  }

  /**
   * The rows of `GROUP BY start_message_id` over the eligible events: one
   * row per action, each action once, and as many rows as the count query
   * reports.
   */
  function GroupRows(events: seq<Event>, agentId: string, now: int): (rows: seq<string>)
    ensures NoDuplicates(rows)
    ensures forall id :: id in rows <==> id in ActionIds(events, agentId, now)
    ensures |rows| == RecordCount(events, agentId, now)
  {
    if events == [] then []
    else
      var e := events[0];
      var rest := GroupRows(events[1..], agentId, now);
      ActionIdsCons(events, agentId, now);
      ActionIdsSingleton(e, agentId, now);
      if Eligible(e, agentId, now) && e.startMessageId.value !in rest then
        [e.startMessageId.value] + rest
      else
        rest
  }

  /** Sum of the action costs of the listed actions. */
  function SumOfActionCosts(ids: seq<string>, events: seq<Event>, agentId: string, now: int): real {
    if ids == [] then 0.0
    else ActionCost(events, agentId, now, ids[0]) + SumOfActionCosts(ids[1..], events, agentId, now)
  }

  /** Listed actions of an empty table cost nothing. */
  lemma {:induction false} SumOfActionCostsEmpty(ids: seq<string>, agentId: string, now: int)
    ensures SumOfActionCosts(ids, [], agentId, now) == 0.0
  {
    if ids != [] {
      SumOfActionCostsEmpty(ids[1..], agentId, now);
    }
  }

  /**
   * Putting one event in front of a table adds its amount to the summed
   * action costs exactly when it is eligible and its action is listed
   * (once, since the list has no duplicates).
   */
  lemma {:induction false} SumOfActionCostsCons(ids: seq<string>, e: Event, rest: seq<Event>, agentId: string, now: int)
    requires NoDuplicates(ids)
    ensures SumOfActionCosts(ids, [e] + rest, agentId, now) ==
      (if Eligible(e, agentId, now) && e.startMessageId.value in ids then e.amount else 0.0)
      + SumOfActionCosts(ids, rest, agentId, now)
  {
    if ids != [] {
      assert ([e] + rest)[1..] == rest;
      assert NoDuplicates(ids[1..]);
      SumOfActionCostsCons(ids[1..], e, rest, agentId, now);
      if Eligible(e, agentId, now) && e.startMessageId.value == ids[0] {
        assert ids[0] !in ids[1..];
      }
      assert ids == [ids[0]] + ids[1..];
    }
  }

  /**
   * Summing within each group and then over the groups gives the sum of
   * all eligible amounts, whenever every action appears in the list once.
   */
  lemma {:induction false} GroupedSumIsTotal(ids: seq<string>, events: seq<Event>, agentId: string, now: int)
    requires NoDuplicates(ids)
    requires forall id :: id in ActionIds(events, agentId, now) ==> id in ids
    ensures SumOfActionCosts(ids, events, agentId, now) == EligibleTotal(events, agentId, now)
  {
    if events == [] {
      SumOfActionCostsEmpty(ids, agentId, now);
    } else {
      var e := events[0];
      assert events == [e] + events[1..];
      ActionIdsCons(events, agentId, now);
      ActionIdsSingleton(e, agentId, now);
      SumOfActionCostsCons(ids, e, events[1..], agentId, now);
      GroupedSumIsTotal(ids, events[1..], agentId, now);
      if Eligible(e, agentId, now) {
        assert e.startMessageId.value in ActionIds(events, agentId, now);
      }
    }
  }

  /**
   * The average query: AVG over the grouped sums. It is NULL exactly when no
   * action is counted, and otherwise the eligible total divided by the
   * number of actions.
   */
  function AvgQuery(events: seq<Event>, agentId: string, now: int): (r: Option<real>)
    ensures r == if RecordCount(events, agentId, now) == 0 then None
      else Some(EligibleTotal(events, agentId, now) / RecordCount(events, agentId, now) as real)
  {
    var rows := GroupRows(events, agentId, now);
    GroupedSumIsTotal(rows, events, agentId, now);
    if |rows| == 0 then None
    else Some(SumOfActionCosts(rows, events, agentId, now) / |rows| as real)
  }

  /**
   * agent_avg_action_cost, in units of 0.0001: 1.0 when fewer than ten
   * actions are counted, and otherwise the eligible total over the number of
   * actions, quantized half-to-even to four fractional digits.
   */
  function AvgActionCost(events: seq<Event>, agentId: string, now: int): (units: int)
    ensures RecordCount(events, agentId, now) < MinRecords ==> units == FallbackUnits
    ensures RecordCount(events, agentId, now) >= MinRecords ==>
      units == DecimalQuantize.Quantize(EligibleTotal(events, agentId, now) / RecordCount(events, agentId, now) as real, Places)
  {
    var recordCount := RecordCount(events, agentId, now);
    if recordCount < MinRecords then FallbackUnits
    else
      match AvgQuery(events, agentId, now)
      case None => FallbackUnits
      case Some(avgCost) => DecimalQuantize.Quantize(avgCost, Places)
  }
}
