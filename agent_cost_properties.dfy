/**
 * What `agent_avg_action_cost` guarantees: the two queries agree, the
 * grouped mean equals the eligible total over the number of actions, events
 * that fail the filter are invisible, repeated events of one action do not
 * raise the count, and the result depends only on the table's contents.
 */
module AgentCostProperties {
  import opened Wrappers
  import opened AgentCost
  import DecimalQuantize

  // ---------------------------------------------------------------------
  // Sums and id sets over concatenated tables
  // ---------------------------------------------------------------------

  /** The eligible total of two tables put together is the sum of their totals. */
  lemma {:induction false} EligibleTotalAppend(s: seq<Event>, t: seq<Event>, agentId: string, now: int)
    ensures EligibleTotal(s + t, agentId, now) == EligibleTotal(s, agentId, now) + EligibleTotal(t, agentId, now)
  {
    if s == [] {
      assert s + t == t;
    } else {
      assert (s + t)[0] == s[0];
      assert (s + t)[1..] == s[1..] + t;
      EligibleTotalAppend(s[1..], t, agentId, now);
    }
  }

  /**
   * The two queries use one filter, so on one snapshot a count of at least
   * ten always comes with a non-NULL average: the second 1.0 fallback is
   * never taken.
   */
  lemma EmptyAggregateUnreachable(events: seq<Event>, agentId: string, now: int)
    ensures AvgQuery(events, agentId, now).Some? <==> RecordCount(events, agentId, now) > 0
    ensures RecordCount(events, agentId, now) >= MinRecords ==> AvgQuery(events, agentId, now).Some?
  {
  }

  // ---------------------------------------------------------------------
  // The result
  // ---------------------------------------------------------------------

  /**
   * A computed (non-fallback) estimate has four fractional digits, lies
   * within 0.00005 of the exact mean action cost, and breaks ties to even.
   */
  lemma ResultApproximatesMean(events: seq<Event>, agentId: string, now: int)
    requires RecordCount(events, agentId, now) >= MinRecords
    ensures var mean := EligibleTotal(events, agentId, now) / RecordCount(events, agentId, now) as real;
      var units := AvgActionCost(events, agentId, now);
      && -0.00005 <= units as real / 10000.0 - mean <= 0.00005
      && DecimalQuantize.IsHalfEvenRounding(mean * 10000.0, units)
  {
    DecimalQuantize.QuantizeFourPlaces(EligibleTotal(events, agentId, now) / RecordCount(events, agentId, now) as real);
  }

  /** Tables that differ only in amounts. */
  predicate SameExceptAmounts(s1: seq<Event>, s2: seq<Event>) {
    && |s1| == |s2|
    && forall i :: 0 <= i < |s1| ==> s1[i].(amount := s2[i].amount) == s2[i]
  }

  /**
   * Below ten distinct actions the estimate is exactly 1.0, whatever the
   * amounts: changing every amount keeps both the count and the fallback.
   */
  lemma SparseDataFallback(s1: seq<Event>, s2: seq<Event>, agentId: string, now: int)
    requires SameExceptAmounts(s1, s2)
    requires RecordCount(s1, agentId, now) < MinRecords
    ensures RecordCount(s2, agentId, now) == RecordCount(s1, agentId, now)
    ensures AvgActionCost(s1, agentId, now) == FallbackUnits
    ensures AvgActionCost(s2, agentId, now) == FallbackUnits
  {
    forall id | id in ActionIds(s1, agentId, now) ensures id in ActionIds(s2, agentId, now) {
      var e :| e in s1 && Eligible(e, agentId, now) && e.startMessageId.value == id;
      var i :| 0 <= i < |s1| && s1[i] == e;
      assert s2[i] in s2 && Eligible(s2[i], agentId, now);
    }
    forall id | id in ActionIds(s2, agentId, now) ensures id in ActionIds(s1, agentId, now) {
      var e :| e in s2 && Eligible(e, agentId, now) && e.startMessageId.value == id;
      var i :| 0 <= i < |s2| && s2[i] == e;
      assert s1[i] in s1 && Eligible(s1[i], agentId, now);
    }
    assert ActionIds(s1, agentId, now) == ActionIds(s2, agentId, now);
  }

  /**
   * The threshold counts actions, not events: one more eligible event adds
   * one to the count exactly when its action was not seen before, and its
   * amount always joins the total.
   */
  lemma AppendEligibleEvent(events: seq<Event>, e: Event, agentId: string, now: int)
    requires Eligible(e, agentId, now)
    ensures RecordCount(events + [e], agentId, now) ==
      RecordCount(events, agentId, now) + (if e.startMessageId.value in ActionIds(events, agentId, now) then 0 else 1)
    ensures EligibleTotal(events + [e], agentId, now) == EligibleTotal(events, agentId, now) + e.amount
  {
    ActionIdsAppend(events, [e], agentId, now);
    assert ActionIds([e], agentId, now) == {e.startMessageId.value};
    EligibleTotalAppend(events, [e], agentId, now);
  }

  /** Inserting an event the filter rejects leaves the actions and the eligible total alone. */
  lemma IneligibleInsertKeepsInputs(events: seq<Event>, i: nat, e: Event, agentId: string, now: int)
    requires i <= |events|
    requires !Eligible(e, agentId, now)
    ensures ActionIds(events[..i] + [e] + events[i..], agentId, now) == ActionIds(events, agentId, now)
    ensures EligibleTotal(events[..i] + [e] + events[i..], agentId, now) == EligibleTotal(events, agentId, now)
  {
    var pre, post := events[..i], events[i..];
    assert events == pre + post;
    ActionIdsAppend(pre + [e], post, agentId, now);
    ActionIdsAppend(pre, [e], agentId, now);
    ActionIdsAppend(pre, post, agentId, now);
    assert ActionIds([e], agentId, now) == {};
    EligibleTotalAppend(pre + [e], post, agentId, now);
    EligibleTotalAppend(pre, [e], agentId, now);
    EligibleTotalAppend(pre, post, agentId, now);
    assert EligibleTotal([e], agentId, now) == 0.0;
  }

  /**
   * An event that fails any one condition of the filter, inserted anywhere
   * in the table, changes neither query nor the estimate.
   */
  lemma IneligibleEventIgnored(events: seq<Event>, i: nat, e: Event, agentId: string, now: int)
    requires i <= |events|
    requires
      || e.agentId != agentId
      || e.createdAt < WindowStart(now)
      || e.upstream != Executor
      || (e.eventType != Message && e.eventType != SkillCall)
      || e.startMessageId.None?
    ensures var events' := events[..i] + [e] + events[i..];
      && RecordCount(events', agentId, now) == RecordCount(events, agentId, now)
      && AvgQuery(events', agentId, now) == AvgQuery(events, agentId, now)
      && AvgActionCost(events', agentId, now) == AvgActionCost(events, agentId, now)
  {
    var events' := events[..i] + [e] + events[i..];
    IneligibleInsertKeepsInputs(events, i, e, agentId, now);
  }

  /** The window's lower bound is inclusive: an event is in it on the very instant three days back. */
  lemma WindowBoundInclusive(e: Event, agentId: string)
    requires e.agentId == agentId && e.upstream == Executor
    requires e.eventType == Message || e.eventType == SkillCall
    requires e.startMessageId.Some?
    ensures Eligible(e, agentId, e.createdAt + ThreeDays)
    ensures !Eligible(e, agentId, e.createdAt + ThreeDays + 1)
  {
  }

  /** A later `now` only drops events from the window: actions age out, none arrive. */
  lemma EventsAgeOut(events: seq<Event>, agentId: string, now: int, later: int)
    requires now <= later
    ensures ActionIds(events, agentId, later) <= ActionIds(events, agentId, now)
    ensures RecordCount(events, agentId, later) <= RecordCount(events, agentId, now)
  {
    var early := ActionIds(events, agentId, now);
    var late := ActionIds(events, agentId, later);
    assert late <= early;
    SubsetCardinality(late, early);
  }

  /** A subset is no larger than its superset. */
  lemma {:induction false} SubsetCardinality(a: set<string>, b: set<string>)
    requires a <= b
    ensures |a| <= |b|
  {
    if a != {} {
      var x :| x in a;
      SubsetCardinality(a - {x}, b - {x});
    }
  }

  // ---------------------------------------------------------------------
  // Determinism: the estimate depends on the table's contents only
  // ---------------------------------------------------------------------

  /** Taking the row at `i` out of a table takes its amount out of the eligible total. */
  lemma EligibleTotalRemove(s: seq<Event>, i: nat, agentId: string, now: int)
    requires i < |s|
    ensures EligibleTotal(s, agentId, now) ==
      EligibleTotal([s[i]], agentId, now) + EligibleTotal(s[..i] + s[i + 1..], agentId, now)
  {
    assert s == s[..i] + [s[i]] + s[i + 1..];
    EligibleTotalAppend(s[..i] + [s[i]], s[i + 1..], agentId, now);
    EligibleTotalAppend(s[..i], [s[i]], agentId, now);
    EligibleTotalAppend(s[..i], s[i + 1..], agentId, now);
  }

  /** Taking the first row of one table and the same row of a permuted table leaves permuted tables. */
  lemma RemoveMatchingRow(s1: seq<Event>, s2: seq<Event>, i: nat)
    requires multiset(s1) == multiset(s2)
    requires s1 != [] && i < |s2| && s2[i] == s1[0]
    ensures multiset(s1[1..]) == multiset(s2[..i] + s2[i + 1..])
  {
    assert s1 == [s1[0]] + s1[1..];
    assert s2 == s2[..i] + [s2[i]] + s2[i + 1..];
    assert multiset(s1[1..]) == multiset(s1) - multiset{s1[0]};
    assert multiset(s2[..i] + s2[i + 1..]) == multiset(s2) - multiset{s2[i]};
  }

  /** The eligible total does not depend on the order of the rows. */
  lemma {:induction false} EligibleTotalPermutation(s1: seq<Event>, s2: seq<Event>, agentId: string, now: int)
    requires multiset(s1) == multiset(s2)
    ensures EligibleTotal(s1, agentId, now) == EligibleTotal(s2, agentId, now)
  {
    if s1 == [] {
      assert |s2| == |multiset(s2)| == 0;
    } else {
      var x := s1[0];
      assert x in multiset(s2);
      var i :| 0 <= i < |s2| && s2[i] == x;
      var rest2 := s2[..i] + s2[i + 1..];
      RemoveMatchingRow(s1, s2, i);
      EligibleTotalPermutation(s1[1..], rest2, agentId, now);
      EligibleTotalRemove(s1, 0, agentId, now);
      EligibleTotalRemove(s2, i, agentId, now);
    }
  }

  /**
   * With a fixed `now`, two snapshots holding the same rows, in whatever
   * order, give the same count, the same average and the same estimate.
   */
  lemma ResultIndependentOfOrder(s1: seq<Event>, s2: seq<Event>, agentId: string, now: int)
    requires multiset(s1) == multiset(s2)
    ensures RecordCount(s1, agentId, now) == RecordCount(s2, agentId, now)
    ensures AvgQuery(s1, agentId, now) == AvgQuery(s2, agentId, now)
    ensures AvgActionCost(s1, agentId, now) == AvgActionCost(s2, agentId, now)
  {
    forall e ensures e in s1 <==> e in s2 {
      assert e in s1 <==> e in multiset(s1);
      assert e in s2 <==> e in multiset(s2);
    }
    assert ActionIds(s1, agentId, now) == ActionIds(s2, agentId, now);
    EligibleTotalPermutation(s1, s2, agentId, now);
  }

  // ---------------------------------------------------------------------
  // Worked cases
  // ---------------------------------------------------------------------

  /** `n` copies of `c` added up. */
  function Copies(n: nat, c: real): real {
    if n == 0 then 0.0 else c + Copies(n - 1, c)
  }

  /** Listed actions that each cost `c` sum to `n` copies of `c`. */
  lemma {:induction false} SumOfUniformCosts(ids: seq<string>, events: seq<Event>, agentId: string, now: int, c: real)
    requires forall id :: id in ids ==> ActionCost(events, agentId, now, id) == c
    ensures SumOfActionCosts(ids, events, agentId, now) == Copies(|ids|, c)
  {
    if ids != [] {
      assert ids[0] in ids;
      SumOfUniformCosts(ids[1..], events, agentId, now, c);
    }
  }

  /** `n` copies of `c`, averaged over `n`, give back `c`. */
  lemma {:induction false} MeanOfCopies(n: nat, c: real)
    requires n > 0
    ensures Copies(n, c) / n as real == c
  {
    CopiesIsProduct(n, c);
  }

  /** Adding up `n` copies of `c` is multiplying by `n`. */
  lemma {:induction false} CopiesIsProduct(n: nat, c: real)
    ensures Copies(n, c) == n as real * c
  {
    if n > 0 {
      CopiesIsProduct(n - 1, c);
    }
  }

  /** When every counted action costs `c`, the mean action cost is `c`. */
  lemma UniformMean(events: seq<Event>, agentId: string, now: int, c: real)
    requires RecordCount(events, agentId, now) > 0
    requires forall id :: id in ActionIds(events, agentId, now) ==> ActionCost(events, agentId, now, id) == c
    ensures EligibleTotal(events, agentId, now) / RecordCount(events, agentId, now) as real == c
  {
    var rows := GroupRows(events, agentId, now);
    SumOfUniformCosts(rows, events, agentId, now, c);
    GroupedSumIsTotal(rows, events, agentId, now);
    MeanOfCopies(RecordCount(events, agentId, now), c);
  }

  /**
   * When at least ten actions are counted and every one of them costs `c`,
   * the average is `c` and the estimate is `c` quantized.
   */
  lemma UniformActionCosts(events: seq<Event>, agentId: string, now: int, c: real)
    requires RecordCount(events, agentId, now) >= MinRecords
    requires forall id :: id in ActionIds(events, agentId, now) ==> ActionCost(events, agentId, now, id) == c
    ensures AvgQuery(events, agentId, now) == Some(c)
    ensures AvgActionCost(events, agentId, now) == DecimalQuantize.Quantize(c, Places)
  {
    UniformMean(events, agentId, now, c);
  }

  /** Ten or more actions of 2.00 each give exactly 2.0000. */
  lemma TwoPerActionGivesTwo(events: seq<Event>, agentId: string, now: int)
    requires RecordCount(events, agentId, now) >= MinRecords
    requires forall id :: id in ActionIds(events, agentId, now) ==> ActionCost(events, agentId, now, id) == 2.0
    ensures AvgActionCost(events, agentId, now) == 20_000
  {
    UniformActionCosts(events, agentId, now, 2.0);
    assert DecimalQuantize.Pow10(Places) == 10000;
    DecimalQuantize.QuantizeExact(2.0, Places, 20_000);
  }

  /**
   * Twelve actions, ten of them costing 1.00 and two costing 4.00, have a
   * total of 18.00 and give exactly 1.5000.
   */
  lemma TwelveActionsExample(events: seq<Event>, agentId: string, now: int)
    requires RecordCount(events, agentId, now) == 12
    requires EligibleTotal(events, agentId, now) == 10.0 * 1.0 + 2.0 * 4.0
    ensures AvgActionCost(events, agentId, now) == 15_000
  {
    assert EligibleTotal(events, agentId, now) / RecordCount(events, agentId, now) as real == 1.5;
    assert DecimalQuantize.Pow10(Places) == 10000;
    assert 1.5 * 10000.0 == 15000.0;
    DecimalQuantize.QuantizeExact(1.5, Places, 15_000);
  }
}
