/** Usage tracking, quotas, reports and invoices (kurd/billing.py:46-316, 358-362). Money is `real`; rounding of the
    source's floats is not modelled. */
module Billing {
  import opened Options

  // ---------------------------------------------------------------- pricing

  datatype Model = PerRequest | PerLatency | Tiered | Hybrid

  datatype Pricing = Pricing(model: Model, perCall: real, perLatencyMs: real, perToken: real, minimum: real,
                             maximum: Option<real>)

  function Max(a: real, b: real): real {
    if a < b then b else a
  }

  function Min(a: real, b: real): real {
    if b < a then b else a
  }

  /** The price before tokens. Tiered pricing charges nothing here. */
  function BasePrice(p: Pricing, latencyMs: real): real {
    match p.model
    case PerRequest => p.perCall
    case PerLatency => latencyMs * p.perLatencyMs
    case Hybrid => p.perCall + latencyMs * p.perLatencyMs
    case Tiered => 0.0
  }

  function Cost(pricing: map<string, Pricing>, tool: string, latencyMs: real, tokens: int): real {
    if tool !in pricing then 0.0 else
      var p := pricing[tool];
      var raised := Max(BasePrice(p, latencyMs) + if tokens > 0 then tokens as real * p.perToken else 0.0, p.minimum);
      if p.maximum.Some? && p.maximum.value != 0.0 then Min(raised, p.maximum.value) else raised
  }

  method CalculateCost(pricing: map<string, Pricing>, tool: string, latencyMs: real, tokens: int) returns (cost: real)
    ensures cost == Cost(pricing, tool, latencyMs, tokens)
  {
    if tool !in pricing {
      return 0.0;
    }
    var p := pricing[tool];
    cost := 0.0;
    if p.model.PerRequest? {
      cost := p.perCall;
    } else if p.model.PerLatency? {
      cost := latencyMs * p.perLatencyMs;
    } else if p.model.Hybrid? {
      cost := p.perCall + latencyMs * p.perLatencyMs;
    }
    if tokens > 0 {
      cost := cost + tokens as real * p.perToken;
    }
    cost := Max(cost, p.minimum);
    if p.maximum.Some? && p.maximum.value != 0.0 {
      cost := Min(cost, p.maximum.value);
    }
  }

  /** The price of a call, model by model, with no upper bound: the minimum, or what call, latency and tokens cost. */
  lemma {:induction false} PriceByModel(p: Pricing, latencyMs: real, tokens: int)
    ensures var perToken := if tokens > 0 then tokens as real * p.perToken else 0.0;
            var raw := match p.model
                       case PerRequest => p.perCall + perToken
                       case PerLatency => latencyMs * p.perLatencyMs + perToken
                       case Hybrid => p.perCall + latencyMs * p.perLatencyMs + perToken
                       case Tiered => perToken;
            var price := Cost(map["t" := p], "t", latencyMs, tokens);
            var uncapped := if raw < p.minimum then p.minimum else raw;
            if p.maximum.None? || p.maximum.value == 0.0 || uncapped <= p.maximum.value then price == uncapped
            else price == p.maximum.value
    ensures Cost(map[], "t", latencyMs, tokens) == 0.0
  {
  }

  /** Only the price of the tool itself matters. */
  lemma {:induction false} PriceIsOfTool(pricing: map<string, Pricing>, tool: string, latencyMs: real, tokens: int)
    ensures Cost(pricing, tool, latencyMs, tokens) ==
            if tool in pricing then Cost(map["t" := pricing[tool]], "t", latencyMs, tokens) else 0.0
  {
  }

  /** A charge stays between the minimum and a non-zero maximum exactly when they do not cross. */
  lemma {:induction false} ChargeWithinBoundsExactly(p: Pricing)
    requires p.maximum.Some? && p.maximum.value != 0.0
    ensures (forall latencyMs, tokens ::
               p.minimum <= Cost(map["t" := p], "t", latencyMs, tokens) <= p.maximum.value) <==>
            p.minimum <= p.maximum.value
  {
    if p.minimum > p.maximum.value {
      assert Cost(map["t" := p], "t", 0.0, 0) == p.maximum.value;
    }
  }

  // ---------------------------------------------------------------- the ledger

  datatype Record = Record(tenant: string, tool: string, at: int, latencyMs: real, success: bool, cost: real)

  /** A maximum of zero is no maximum, like a missing one. */
  datatype Quota = Quota(maxCalls: Option<int>, maxCost: Option<real>, calls: nat, cost: real)

  datatype Ledger = Ledger(pricing: map<string, Pricing>, records: seq<Record>, quotas: map<string, Quota>)

  predicate Fits(q: Quota, cost: real) {
    && !(q.maxCalls.Some? && q.maxCalls.value != 0 && q.calls >= q.maxCalls.value)
    && !(q.maxCost.Some? && q.maxCost.value != 0.0 && q.cost + cost > q.maxCost.value)
  }

  datatype Op =
    | PriceTools(prices: map<string, Pricing>)
    | SetQuota(tenant: string, maxCalls: Option<int>, maxCost: Option<real>)
    | ResetQuota(tenant: string)
    | TrackCall(tenant: string, tool: string, latencyMs: real, tokens: int, success: bool, at: int)

  function Tracked(l: Ledger, op: Op): (Ledger, bool)
    requires op.TrackCall?
  {
    var cost := Cost(l.pricing, op.tool, op.latencyMs, op.tokens);
    if op.tenant in l.quotas && !Fits(l.quotas[op.tenant], cost) then (l, false) else
      var r := Record(op.tenant, op.tool, op.at, op.latencyMs, op.success, cost);
      (Ledger(l.pricing, l.records + [r],
              if op.tenant !in l.quotas then l.quotas else
                var q := l.quotas[op.tenant];
                l.quotas[op.tenant := q.(calls := q.calls + 1, cost := q.cost + cost)]), true)
  }

  function Step(l: Ledger, op: Op): Ledger {
    match op
    case PriceTools(prices) => l.(pricing := l.pricing + prices)
    case SetQuota(tenant, maxCalls, maxCost) => l.(quotas := l.quotas[tenant := Quota(maxCalls, maxCost, 0, 0.0)])
    case ResetQuota(tenant) =>
      if tenant in l.quotas then l.(quotas := l.quotas[tenant := l.quotas[tenant].(calls := 0, cost := 0.0)]) else l
    case TrackCall(_, _, _, _, _, _) => Tracked(l, op).0
  }

  class BillingManager {
    var pricing: map<string, Pricing>
    var usageRecords: seq<Record>
    var tenantQuotas: map<string, Quota>

    function State(): Ledger
      reads this
    {
      Ledger(pricing, usageRecords, tenantQuotas)
    }

    constructor ()
      ensures State() == Ledger(map[], [], map[])
    {
      pricing, usageRecords, tenantQuotas := map[], [], map[];
    }

    method SetPricing(prices: map<string, Pricing>)
      modifies this`pricing
      ensures State() == Step(old(State()), PriceTools(prices)) && pricing == old(pricing) + prices
    {
      pricing := pricing + prices;
    }

    method SetTenantQuota(tenant: string, maxCalls: Option<int>, maxCost: Option<real>)
      modifies this`tenantQuotas
      ensures State() == Step(old(State()), SetQuota(tenant, maxCalls, maxCost))
      ensures tenantQuotas == old(tenantQuotas)[tenant := Quota(maxCalls, maxCost, 0, 0.0)]
    {
      tenantQuotas := tenantQuotas[tenant := Quota(maxCalls, maxCost, 0, 0.0)];
    }

    method ResetTenantQuota(tenant: string)
      modifies this`tenantQuotas
      ensures State() == Step(old(State()), ResetQuota(tenant))
      ensures tenant !in old(tenantQuotas) ==> tenantQuotas == old(tenantQuotas)
      ensures tenant in old(tenantQuotas) ==>
                var q := old(tenantQuotas)[tenant];
                tenantQuotas == old(tenantQuotas)[tenant := Quota(q.maxCalls, q.maxCost, 0, 0.0)]
    {
      if tenant in tenantQuotas {
        var quota := tenantQuotas[tenant];
        quota := quota.(calls := 0);
        quota := quota.(cost := 0.0);
        tenantQuotas := tenantQuotas[tenant := quota];
      }
    }

    method CheckQuota(tenant: string, additionalCost: real) returns (ok: bool)
      ensures ok <==> tenant !in tenantQuotas || Fits(tenantQuotas[tenant], additionalCost)
      ensures ok <==> tenant in tenantQuotas ==>
                        var q := tenantQuotas[tenant];
                        && (q.maxCalls.None? || q.maxCalls.value == 0 || q.calls < q.maxCalls.value)
                        && (q.maxCost.None? || q.maxCost.value == 0.0 || q.cost + additionalCost <= q.maxCost.value)
    {
      if tenant !in tenantQuotas {
        return true;
      }
      var quota := tenantQuotas[tenant];
      if quota.maxCalls.Some? && quota.maxCalls.value != 0 && quota.calls >= quota.maxCalls.value {
        return false;
      }
      if quota.maxCost.Some? && quota.maxCost.value != 0.0 && quota.cost + additionalCost > quota.maxCost.value {
        return false;
      }
      return true;
    }

    method Track(tenant: string, tool: string, latencyMs: real, tokens: int, success: bool, at: int)
        returns (tracked: bool)
      modifies this`usageRecords, this`tenantQuotas
      ensures (State(), tracked) == Tracked(old(State()), TrackCall(tenant, tool, latencyMs, tokens, success, at))
      ensures var cost := Cost(pricing, tool, latencyMs, tokens);
              usageRecords ==
              old(usageRecords) + if tracked then [Record(tenant, tool, at, latencyMs, success, cost)] else []
    {
      var cost := CalculateCost(pricing, tool, latencyMs, tokens);
      var ok := CheckQuota(tenant, cost);
      if !ok {
        return false;
      }
      usageRecords := usageRecords + [Record(tenant, tool, at, latencyMs, success, cost)];
      if tenant in tenantQuotas {
        var quota := tenantQuotas[tenant];
        quota := quota.(calls := quota.calls + 1);
        quota := quota.(cost := quota.cost + cost);
        tenantQuotas := tenantQuotas[tenant := quota];
      }
      return true;
    }
  }

  // ---------------------------------------------------------------- quota counters over every run

  function Run(ops: seq<Op>): Ledger {
    if ops == [] then Ledger(map[], [], map[]) else Step(Run(ops[..|ops| - 1]), ops[|ops| - 1])
  }

  /** How many records there were when the tenant's quota was last set or reset. */
  function Since(ops: seq<Op>, tenant: string): nat {
    if ops == [] then 0 else
      var init, op := ops[..|ops| - 1], ops[|ops| - 1];
      if (op.SetQuota? || op.ResetQuota?) && op.tenant == tenant then |Run(init).records| else Since(init, tenant)
  }

  function CallsOf(records: seq<Record>, tenant: string): nat {
    if records == [] then 0
    else CallsOf(records[..|records| - 1], tenant) + if records[|records| - 1].tenant == tenant then 1 else 0
  }

  function CostOf(records: seq<Record>, tenant: string): real {
    if records == [] then 0.0
    else CostOf(records[..|records| - 1], tenant) +
         if records[|records| - 1].tenant == tenant then records[|records| - 1].cost else 0.0
  }

  ghost predicate QuotaOk(q: Quota, recent: seq<Record>, tenant: string) {
    && q.calls == CallsOf(recent, tenant)
    && q.cost == CostOf(recent, tenant)
    && (q.maxCalls.Some? && q.maxCalls.value != 0 ==> q.calls <= if q.maxCalls.value > 0 then q.maxCalls.value else 0)
    && (q.maxCost.Some? && q.maxCost.value != 0.0 ==> q.cost <= Max(q.maxCost.value, 0.0))
  }

  ghost predicate LedgerOk(l: Ledger, since: nat, tenant: string) {
    && since <= |l.records|
    && (tenant in l.quotas ==> QuotaOk(l.quotas[tenant], l.records[since..], tenant))
  }

  lemma {:induction false} TrackKeepsQuota(l: Ledger, op: Op, since: nat, tenant: string)
    requires LedgerOk(l, since, tenant) && op.TrackCall?
    ensures LedgerOk(Step(l, op), since, tenant)
  {
    var l' := Step(l, op);
    if l' != l {
      var recent := l'.records[since..];
      assert recent[..|recent| - 1] == l.records[since..];
    }
  }

  /** In every run a tenant's call count and accumulated cost are the count and sum of its records since its quota was
      last set or reset, and neither exceeds a non-zero maximum. Under a negative maximum they stay at or below zero. */
  lemma {:induction false} QuotaCountsRecords(ops: seq<Op>, tenant: string)
    ensures LedgerOk(Run(ops), Since(ops, tenant), tenant)
  {
    if ops == [] {
    } else {
      var init, op := ops[..|ops| - 1], ops[|ops| - 1];
      QuotaCountsRecords(init, tenant);
      if op.TrackCall? {
        TrackKeepsQuota(Run(init), op, Since(init, tenant), tenant);
      }
    }
  }

  /** In every run a call is tracked exactly when its tenant has no quota, or fewer calls than a non-zero maximum and a
      sum of costs that stays within a non-zero maximum have been recorded since the quota was last set or reset. */
  lemma {:induction false} TrackedExactly(ops: seq<Op>, op: Op)
    requires op.TrackCall?
    ensures Since(ops, op.tenant) <= |Run(ops).records|
    ensures var l := Run(ops);
            var cost := Cost(l.pricing, op.tool, op.latencyMs, op.tokens);
            Tracked(l, op).1 <==>
            op.tenant in l.quotas ==>
              var q, recent := l.quotas[op.tenant], l.records[Since(ops, op.tenant)..];
              && (q.maxCalls.None? || q.maxCalls.value == 0 || CallsOf(recent, op.tenant) < q.maxCalls.value)
              && (q.maxCost.None? || q.maxCost.value == 0.0 || CostOf(recent, op.tenant) + cost <= q.maxCost.value)
  {
    QuotaCountsRecords(ops, op.tenant);
  }

  // ---------------------------------------------------------------- reports

  datatype Stats = Stats(calls: nat, successful: nat, failed: nat, cost: real, latencyMs: real)

  const NO_STATS := Stats(0, 0, 0, 0.0, 0.0)

  function Plus(a: Stats, b: Stats): Stats {
    Stats(a.calls + b.calls, a.successful + b.successful, a.failed + b.failed, a.cost + b.cost,
          a.latencyMs + b.latencyMs)
  }

  function One(r: Record): Stats {
    Stats(1, if r.success then 1 else 0, if r.success then 0 else 1, r.cost, r.latencyMs)
  }

  function Totals(records: seq<Record>): Stats {
    if records == [] then NO_STATS else Plus(Totals(records[..|records| - 1]), One(records[|records| - 1]))
  }

  /** The records of one tool. */
  function OfTool(records: seq<Record>, tool: string): seq<Record> {
    if records == [] then [] else
      OfTool(records[..|records| - 1], tool) +
      if records[|records| - 1].tool == tool then [records[|records| - 1]] else []
  }

  /** The records of a tenant from `from` to `to`, both included. */
  function Select(records: seq<Record>, tenant: string, from: int, to: int): seq<Record> {
    if records == [] then [] else
      var last := records[|records| - 1];
      Select(records[..|records| - 1], tenant, from, to) +
      if last.tenant == tenant && from <= last.at <= to then [last] else []
  }

  /** `tools` is the insertion order of the `by_tool` dictionary, and so of the invoice's line items. */
  datatype Report = Report(total: Stats, byTool: map<string, Stats>, tools: seq<string>)

  function SumOver(tools: seq<string>, byTool: map<string, Stats>): Stats
    requires forall t | t in tools :: t in byTool
  {
    if tools == [] then NO_STATS else Plus(SumOver(tools[..|tools| - 1], byTool), byTool[tools[|tools| - 1]])
  }

  function ToolsOf(records: seq<Record>): set<string> {
    set r | r in records :: r.tool
  }

  /** The dictionary with a group for the record's tool, and then with the record in it. */
  function Opened(byTool: map<string, Stats>, r: Record): map<string, Stats> {
    if r.tool in byTool then byTool else byTool[r.tool := NO_STATS]
  }

  function GroupTable(byTool: map<string, Stats>, r: Record): map<string, Stats> {
    var base := Opened(byTool, r);
    base[r.tool := Plus(base[r.tool], One(r))]
  }

  function GroupOrder(byTool: map<string, Stats>, tools: seq<string>, r: Record): seq<string> {
    if r.tool in byTool then tools else tools + [r.tool]
  }

  ghost predicate Distinct(tools: seq<string>) {
    forall i, j | 0 <= i < j < |tools| :: tools[i] != tools[j]
  }

  ghost predicate TotalsByTool(records: seq<Record>, byTool: map<string, Stats>) {
    && byTool.Keys == ToolsOf(records)
    && (forall t | t in byTool :: byTool[t] == Totals(OfTool(records, t)))
  }

  /** The dictionary after grouping some records: one group for each tool, with its records' totals. */
  ghost predicate Grouped(records: seq<Record>, byTool: map<string, Stats>, tools: seq<string>) {
    && Distinct(tools)
    && (forall t :: t in tools <==> t in byTool)
    && TotalsByTool(records, byTool)
  }

  function Groups(records: seq<Record>): (map<string, Stats>, seq<string>) {
    if records == [] then (map[], []) else
      var (byTool, tools) := Groups(records[..|records| - 1]);
      var r := records[|records| - 1];
      (GroupTable(byTool, r), GroupOrder(byTool, tools, r))
  }

  function SumBy(records: seq<Record>, weight: Record -> real): real {
    if records == [] then 0.0
    else SumBy(records[..|records| - 1], weight) + weight(records[|records| - 1])
  }

  function CountBy(records: seq<Record>, holds: Record -> bool): nat {
    if records == [] then 0
    else CountBy(records[..|records| - 1], holds) + if holds(records[|records| - 1]) then 1 else 0
  }

  /** The statistics of some records, field by field. */
  ghost predicate AreStatsOf(stats: Stats, records: seq<Record>) {
    && stats.calls == |records|
    && stats.successful == CountBy(records, (r: Record) => r.success)
    && stats.successful + stats.failed == stats.calls
    && stats.cost == SumBy(records, (r: Record) => r.cost)
    && stats.latencyMs == SumBy(records, (r: Record) => r.latencyMs)
  }

  lemma {:induction false} TotalsAreStats(records: seq<Record>)
    ensures AreStatsOf(Totals(records), records)
  {
    if records == [] {
    } else {
      TotalsAreStats(records[..|records| - 1]);
    }
  }

  /** The selection of a report: each record as often as the ledger has it if it is the tenant's and in the period, both
      ends included, and not at all otherwise. */
  lemma {:induction false} SelectedExactly(records: seq<Record>, tenant: string, from: int, to: int, r: Record)
    ensures multiset(Select(records, tenant, from, to))[r] ==
            if r.tenant == tenant && from <= r.at <= to then multiset(records)[r] else 0
  {
    if records == [] {
    } else {
      var init, last := records[..|records| - 1], records[|records| - 1];
      SelectedExactly(init, tenant, from, to, r);
      LastCounts(records, r);
      KeepsOrNot(Select(init, tenant, from, to), last, last.tenant == tenant && from <= last.at <= to, r);
    }
  }

  lemma {:induction false} LastCounts(records: seq<Record>, r: Record)
    requires records != []
    ensures multiset(records)[r] ==
            multiset(records[..|records| - 1])[r] + if records[|records| - 1] == r then 1 else 0
  {
    assert records == records[..|records| - 1] + [records[|records| - 1]];
    OneMore(records[..|records| - 1], records[|records| - 1], r);
  }

  lemma {:induction false} OneMore(records: seq<Record>, last: Record, r: Record)
    ensures multiset(records + [last])[r] == multiset(records)[r] + if last == r then 1 else 0
  {
  }

  lemma {:induction false} KeepsOrNot(kept: seq<Record>, last: Record, keeps: bool, r: Record)
    ensures multiset(kept + if keeps then [last] else [])[r] ==
            multiset(kept)[r] + if keeps && last == r then 1 else 0
  {
    if keeps {
      OneMore(kept, last, r);
    } else {
      assert kept + [] == kept;
    }
  }

  lemma {:induction false} OfToolExactly(records: seq<Record>, tool: string, r: Record)
    ensures multiset(OfTool(records, tool))[r] == if r.tool == tool then multiset(records)[r] else 0
  {
    if records == [] {
    } else {
      var init, last := records[..|records| - 1], records[|records| - 1];
      OfToolExactly(init, tool, r);
      LastCounts(records, r);
      KeepsOrNot(OfTool(init, tool), last, last.tool == tool, r);
    }
  }

  /** The loop of the report over the selected records. */
  method GroupByTool(records: seq<Record>) returns (byTool: map<string, Stats>, tools: seq<string>)
    ensures Grouped(records, byTool, tools)
    ensures SumOver(tools, byTool) == Totals(records)
    ensures forall t | t in byTool :: AreStatsOf(byTool[t], OfTool(records, t))
  {
    byTool, tools := map[], [];
    for i := 0 to |records|
      invariant (byTool, tools) == Groups(records[..i])
    {
      var record := records[i];
      assert records[..i + 1][..i] == records[..i];
      if record.tool !in byTool {
        byTool := byTool[record.tool := NO_STATS];
        tools := tools + [record.tool];
      }
      byTool := byTool[record.tool := Plus(byTool[record.tool], One(record))];
    }
    assert records[..|records|] == records;
    GroupsSumUp(records);
    GroupsTotalTools(records);
    forall t | t in byTool
      ensures AreStatsOf(byTool[t], OfTool(records, t))
    {
      TotalsAreStats(OfTool(records, t));
    }
  }

  /** Each report groups the selected records by tool, and its totals are the sums over its groups. */
  method GetUsageReport(usageRecords: seq<Record>, tenant: string, from: int, to: int) returns (report: Report)
    ensures var records := Select(usageRecords, tenant, from, to);
            && report.total == Totals(records)
            && Grouped(records, report.byTool, report.tools)
            && report.total == SumOver(report.tools, report.byTool)
            && AreStatsOf(report.total, records)
            && forall t | t in report.byTool :: AreStatsOf(report.byTool[t], OfTool(records, t))
  {
    var records := Select(usageRecords, tenant, from, to);
    var byTool, tools := GroupByTool(records);
    TotalsAreStats(records);
    return Report(Totals(records), byTool, tools);
  }

  lemma {:induction false} TotalsAppend(records: seq<Record>, r: Record)
    ensures Totals(records + [r]) == Plus(Totals(records), One(r))
  {
    assert (records + [r])[..|records|] == records;
  }

  lemma {:induction false} OfToolAppend(records: seq<Record>, r: Record, tool: string)
    ensures OfTool(records + [r], tool) == OfTool(records, tool) + if r.tool == tool then [r] else []
  {
    assert (records + [r])[..|records|] == records;
  }

  lemma {:induction false} OfToolNone(records: seq<Record>, tool: string)
    requires tool !in ToolsOf(records)
    ensures OfTool(records, tool) == []
  {
    if records == [] {
    } else {
      var n := |records| - 1;
      assert records[n] in records;
      assert ToolsOf(records[..n]) <= ToolsOf(records);
      OfToolNone(records[..n], tool);
    }
  }

  lemma {:induction false} SumOverBump(tools: seq<string>, byTool: map<string, Stats>, tool: string, stats: Stats)
    requires Distinct(tools) && tool in byTool && forall t | t in tools :: t in byTool
    ensures var after := byTool[tool := Plus(byTool[tool], stats)];
            SumOver(tools, after) ==
            if tool in tools then Plus(SumOver(tools, byTool), stats) else SumOver(tools, byTool)
  {
    if tools == [] {
    } else {
      var n := |tools| - 1;
      SumOverBump(tools[..n], byTool, tool, stats);
      assert tools == tools[..n] + [tools[n]];
      PlusMoves(SumOver(tools[..n], byTool), byTool[tools[n]], stats);
    }
  }

  lemma {:induction false} PlusMoves(a: Stats, b: Stats, c: Stats)
    ensures Plus(a, Plus(b, c)) == Plus(Plus(a, b), c) == Plus(Plus(a, c), b)
  {
  }

  lemma {:induction false} SumOverAgrees(tools: seq<string>, a: map<string, Stats>, b: map<string, Stats>)
    requires forall t | t in tools :: t in a && t in b && a[t] == b[t]
    ensures SumOver(tools, a) == SumOver(tools, b)
  {
    if tools == [] {
    } else {
      SumOverAgrees(tools[..|tools| - 1], a, b);
    }
  }

  lemma {:induction false} SumOverAppend(tools: seq<string>, tool: string, byTool: map<string, Stats>)
    requires tool in byTool && forall t | t in tools :: t in byTool
    ensures SumOver(tools + [tool], byTool) == Plus(SumOver(tools, byTool), byTool[tool])
  {
    assert (tools + [tool])[..|tools|] == tools;
  }

  ghost predicate Keyed(byTool: map<string, Stats>, tools: seq<string>) {
    Distinct(tools) && forall t :: t in tools <==> t in byTool
  }

  lemma {:induction false} OpenKeys(r: Record, byTool: map<string, Stats>, tools: seq<string>)
    requires Keyed(byTool, tools)
    ensures Keyed(Opened(byTool, r), GroupOrder(byTool, tools, r))
  {
  }

  /** A new group with nothing in it changes no sum. */
  lemma {:induction false} EmptyGroup(tools: seq<string>, tool: string, byTool: map<string, Stats>,
                                      base: map<string, Stats>)
    requires (forall t | t in tools :: t in byTool && t in base && byTool[t] == base[t])
    requires tool in base && base[tool] == NO_STATS
    ensures SumOver(tools + [tool], base) == SumOver(tools, byTool)
  {
    SumOverAgrees(tools, byTool, base);
    SumOverAppend(tools, tool, base);
  }

  lemma {:induction false} OpenSum(r: Record, byTool: map<string, Stats>, tools: seq<string>)
    requires Keyed(byTool, tools) && Keyed(Opened(byTool, r), GroupOrder(byTool, tools, r))
    ensures SumOver(GroupOrder(byTool, tools, r), Opened(byTool, r)) == SumOver(tools, byTool)
  {
    if r.tool !in byTool {
      EmptyGroup(tools, r.tool, byTool, Opened(byTool, r));
    }
  }

  lemma {:induction false} GroupSums(r: Record, byTool: map<string, Stats>, tools: seq<string>)
    requires Distinct(tools) && forall t :: t in tools <==> t in byTool
    ensures var order := GroupOrder(byTool, tools, r);
            && Distinct(order) && (forall t :: t in order <==> t in GroupTable(byTool, r))
            && SumOver(order, GroupTable(byTool, r)) == Plus(SumOver(tools, byTool), One(r))
  {
    OpenKeys(r, byTool, tools);
    OpenSum(r, byTool, tools);
    SumOverBump(GroupOrder(byTool, tools, r), Opened(byTool, r), r.tool, One(r));
  }

  lemma {:induction false} GroupTotals(records: seq<Record>, r: Record, byTool: map<string, Stats>)
    requires TotalsByTool(records, byTool)
    ensures TotalsByTool(records + [r], GroupTable(byTool, r))
  {
    assert ToolsOf(records + [r]) == ToolsOf(records) + {r.tool};
    forall t | t in ToolsOf(records + [r])
      ensures GroupTable(byTool, r)[t] == Totals(OfTool(records + [r], t))
    {
      GroupOneTool(records, r, byTool, t);
    }
  }

  lemma {:induction false} GroupOneTool(records: seq<Record>, r: Record, byTool: map<string, Stats>, t: string)
    requires TotalsByTool(records, byTool) && (t in byTool || t == r.tool)
    ensures GroupTable(byTool, r)[t] == Totals(OfTool(records + [r], t))
  {
    OfToolAppend(records, r, t);
    var before := OfTool(records, t);
    if t == r.tool {
      TotalsAppend(before, r);
      if t !in byTool {
        OfToolNone(records, t);
      }
    } else {
      assert before + [] == before;
    }
  }

  lemma {:induction false} GroupsSumUp(records: seq<Record>)
    ensures var (byTool, tools) := Groups(records);
            Distinct(tools) && (forall t :: t in tools <==> t in byTool) && SumOver(tools, byTool) == Totals(records)
  {
    if records == [] {
    } else {
      var init, r := records[..|records| - 1], records[|records| - 1];
      GroupsSumUp(init);
      GroupSums(r, Groups(init).0, Groups(init).1);
    }
  }

  lemma {:induction false} GroupsTotalTools(records: seq<Record>)
    ensures TotalsByTool(records, Groups(records).0)
  {
    if records == [] {
    } else {
      var init, r := records[..|records| - 1], records[|records| - 1];
      GroupsTotalTools(init);
      GroupTotals(init, r, Groups(init).0);
      assert records == init + [r];
    }
  }

  // ---------------------------------------------------------------- invoices

  const DAY: int := 86_400_000_000   // microseconds

  datatype Month = Month(year: int, month: int)

  predicate IsMonth(m: Month) {
    1 <= m.month <= 12 && m.year >= 1
  }

  /** The branch on December of the source. */
  function Next(m: Month): Month {
    if m.month == 12 then Month(m.year + 1, 1) else Month(m.year, m.month + 1)
  }

  predicate IsLeap(year: int) {
    year % 4 == 0 && (year % 100 != 0 || year % 400 == 0)
  }

  function DaysIn(year: int, month: int): int {
    if month == 2 then if IsLeap(year) then 29 else 28
    else if month == 4 || month == 6 || month == 9 || month == 11 then 30
    else 31
  }

  function DaysBeforeMonth(year: int, month: int): int {
    if month <= 1 then 0 else DaysBeforeMonth(year, month - 1) + DaysIn(year, month - 1)
  }

  function DaysBeforeYear(year: int): int {
    if year <= 1 then 0 else DaysBeforeYear(year - 1) + DaysBeforeMonth(year - 1, 13)
  }

  /** `datetime(year, month, 1)`, in microseconds since the first day of year 1. */
  function Start(m: Month): int
    requires IsMonth(m)
  {
    (DaysBeforeYear(m.year) + DaysBeforeMonth(m.year, m.month)) * DAY
  }

  /** A month ends where the next begins, across the December branch too. */
  lemma {:induction false} MonthsAdvance(m: Month)
    requires IsMonth(m)
    ensures IsMonth(Next(m)) && Start(Next(m)) == Start(m) + DaysIn(m.year, m.month) * DAY
  {
    var y := m.year;
    assert DaysBeforeMonth(y, m.month + 1) == DaysBeforeMonth(y, m.month) + DaysIn(y, m.month);
    if m.month == 12 {
      assert DaysBeforeYear(y + 1) == DaysBeforeYear(y) + DaysBeforeMonth(y, 13);
      assert DaysBeforeMonth(y + 1, 1) == 0;
    }
  }

  /** The Gregorian calendar in closed form: days before a year, and before each month of a common year, with the leap
      day from March on; a day is 86,400 seconds of a million microseconds. */
  lemma {:induction false} YearsInClosedForm(year: int)
    requires year >= 1
    ensures DaysBeforeMonth(year, 13) == if IsLeapYear(year) then 366 else 365
    ensures DaysBeforeYear(year) == 365 * (year - 1) + (year - 1) / 4 - (year - 1) / 100 + (year - 1) / 400
  {
    YearIs(year);
    if year == 1 {
    } else {
      YearsInClosedForm(year - 1);
      LeapCount(year - 2);
    }
  }

  lemma {:induction false} YearIs(year: int)
    ensures DaysBeforeMonth(year, 13) == if IsLeapYear(year) then 366 else 365
  {
    MonthsInClosedForm(year);
  }

  predicate IsLeapYear(year: int) {
    year % 400 == 0 || (year % 4 == 0 && year % 100 != 0)
  }

  lemma {:induction false} NextQuotient(n: nat, d: nat)
    requires d == 4 || d == 100 || d == 400
    ensures (n + 1) / d == n / d + if (n + 1) % d == 0 then 1 else 0
  {
  }

  lemma {:induction false} Multiple100(n: nat, k: nat)
    requires n == 100 * k
    ensures n % 100 == 0
  {
  }

  lemma {:induction false} Multiple4(n: nat, k: nat)
    requires n == 4 * k
    ensures n % 4 == 0
  {
  }

  lemma {:induction false} NestedMultiples(n: nat)
    ensures (n % 400 == 0 ==> n % 100 == 0) && (n % 100 == 0 ==> n % 4 == 0)
  {
    if n % 400 == 0 {
      Multiple100(n, 4 * (n / 400));
    }
    if n % 100 == 0 {
      Multiple4(n, 25 * (n / 100));
    }
  }

  lemma {:induction false} LeapCount(n: nat)
    ensures (n + 1) / 4 - (n + 1) / 100 + (n + 1) / 400 ==
            n / 4 - n / 100 + n / 400 + if IsLeapYear(n + 1) then 1 else 0
  {
    NextQuotient(n, 4);
    NextQuotient(n, 100);
    NextQuotient(n, 400);
    NestedMultiples(n + 1);
  }

  lemma {:induction false} MonthsInClosedForm(year: int)
    ensures var leap := if IsLeapYear(year) then 1 else 0;
            && DaysBeforeMonth(year, 1) == 0 && DaysBeforeMonth(year, 2) == 31
            && DaysBeforeMonth(year, 3) == 59 + leap && DaysBeforeMonth(year, 4) == 90 + leap
            && DaysBeforeMonth(year, 5) == 120 + leap && DaysBeforeMonth(year, 6) == 151 + leap
            && DaysBeforeMonth(year, 7) == 181 + leap && DaysBeforeMonth(year, 8) == 212 + leap
            && DaysBeforeMonth(year, 9) == 243 + leap && DaysBeforeMonth(year, 10) == 273 + leap
            && DaysBeforeMonth(year, 11) == 304 + leap && DaysBeforeMonth(year, 12) == 334 + leap
            && DaysBeforeMonth(year, 13) == 365 + leap
  {
    NextMonth(year, 1, 0);
    NextMonth(year, 2, 31);
    LeapDay(year);
    var march := DaysBeforeMonth(year, 3);
    NextMonth(year, 3, march);
    NextMonth(year, 4, march + 31);
    NextMonth(year, 5, march + 61);
    NextMonth(year, 6, march + 92);
    NextMonth(year, 7, march + 122);
    NextMonth(year, 8, march + 153);
    NextMonth(year, 9, march + 184);
    NextMonth(year, 10, march + 214);
    NextMonth(year, 11, march + 245);
    NextMonth(year, 12, march + 275);
  }

  lemma {:induction false} NextMonth(year: int, month: int, before: int)
    requires 1 <= month <= 12 && DaysBeforeMonth(year, month) == before
    ensures DaysBeforeMonth(year, month + 1) == before + DaysIn(year, month)
  {
  }

  lemma {:induction false} LeapDay(year: int)
    ensures DaysIn(year, 2) == if IsLeapYear(year) then 29 else 28
  {
  }

  lemma {:induction false} StartIs(m: Month)
    requires IsMonth(m)
    ensures Start(m) == (DaysBeforeYear(m.year) + DaysBeforeMonth(m.year, m.month)) * 86_400_000_000
  {
  }

  /** The i-th month after m. */
  function After(m: Month, i: nat): (r: Month)
    requires IsMonth(m)
    ensures IsMonth(r)
  {
    if i == 0 then m else Next(After(m, i - 1))
  }

  lemma {:induction false} BoundariesIncrease(m: Month, i: nat, j: nat)
    requires IsMonth(m) && i <= j
    ensures Start(After(m, i)) <= Start(After(m, j))
    ensures i < j ==> Start(After(m, i)) < Start(After(m, j))
  {
    if i < j {
      BoundariesIncrease(m, i, j - 1);
      MonthsAdvance(After(m, j - 1));
    }
  }

  /** What one record adds to a span. */
  function Pick(r: Record, tenant: string, from: int, to: int): Stats {
    if r.tenant == tenant && from <= r.at <= to then One(r) else NO_STATS
  }

  function Spent(records: seq<Record>, tenant: string, from: int, to: int): Stats {
    if records == [] then NO_STATS else
      Plus(Spent(records[..|records| - 1], tenant, from, to), Pick(records[|records| - 1], tenant, from, to))
  }

  lemma {:induction false} TotalsOfPick(selected: seq<Record>, r: Record, tenant: string, from: int, to: int)
    ensures Totals(selected + if r.tenant == tenant && from <= r.at <= to then [r] else []) ==
            Plus(Totals(selected), Pick(r, tenant, from, to))
  {
    if r.tenant == tenant && from <= r.at <= to {
      TotalsAppend(selected, r);
    } else {
      assert selected + [] == selected;
    }
  }

  /** The totals of a usage report are the sum of what each record adds. */
  lemma {:induction false} ReportAddsUp(records: seq<Record>, tenant: string, from: int, to: int)
    ensures Totals(Select(records, tenant, from, to)) == Spent(records, tenant, from, to)
  {
    if records == [] {
    } else {
      var init, last := records[..|records| - 1], records[|records| - 1];
      ReportAddsUp(init, tenant, from, to);
      TotalsOfPick(Select(init, tenant, from, to), last, tenant, from, to);
    }
  }

  /** The usage of a tenant from one moment to another, both included. */
  function Usage(records: seq<Record>, tenant: string): (int, int) -> Stats {
    (from, to) => Spent(records, tenant, from, to)
  }

  /** A tenant's invoice: the usage from the first of the month to the first of the next. */
  function Invoice(records: seq<Record>, tenant: string, m: Month): Stats
    requires IsMonth(m)
  {
    Usage(records, tenant)(Start(m), Start(Next(m)))
  }

  /** An invoice charges the costs of the tenant's records of the month, first moments of this and the next included. */
  lemma {:induction false} InvoiceIsStats(records: seq<Record>, tenant: string, m: Month)
    requires IsMonth(m)
    ensures AreStatsOf(Invoice(records, tenant, m), Select(records, tenant, Start(m), Start(Next(m))))
  {
    ReportAddsUp(records, tenant, Start(m), Start(Next(m)));
    TotalsAreStats(Select(records, tenant, Start(m), Start(Next(m))));
  }

  /** The sum of n consecutive invoices. */
  function Invoices(records: seq<Record>, tenant: string, m: Month, n: nat): Stats
    requires IsMonth(m)
  {
    if n == 0 then NO_STATS else Plus(Invoices(records, tenant, m, n - 1), Invoice(records, tenant, After(m, n - 1)))
  }

  /** The first moments of the months from m on. */
  function Starts(m: Month): nat -> int
    requires IsMonth(m)
  {
    (i: nat) => Start(After(m, i))
  }

  ghost predicate Increasing(b: nat -> int) {
    forall i, j | i < j :: b(i) < b(j)
  }

  lemma {:induction false} StartsIncrease(m: Month)
    requires IsMonth(m)
    ensures Increasing(Starts(m)) && Starts(m)(0) == Start(m)
  {
    forall i: nat, j: nat | i < j
      ensures Starts(m)(i) < Starts(m)(j)
    {
      BoundariesIncrease(m, i, j);
    }
  }

  /** The sum of n consecutive spans between boundaries. */
  function Spans(usage: (int, int) -> Stats, b: nat -> int, n: nat): Stats {
    if n == 0 then NO_STATS else Plus(Spans(usage, b, n - 1), usage(b(n - 1), b(n)))
  }

  /** The sum of the usage at exactly the n - 1 boundaries inside n consecutive spans. */
  function Inside(usage: (int, int) -> Stats, b: nat -> int, n: nat): Stats {
    if n <= 1 then NO_STATS else Plus(Inside(usage, b, n - 1), usage(b(n - 1), b(n - 1)))
  }

  lemma {:induction false} InvoiceIsSpan(records: seq<Record>, tenant: string, m: Month, n: nat)
    requires IsMonth(m) && n > 0
    ensures Invoice(records, tenant, After(m, n - 1)) == Usage(records, tenant)(Starts(m)(n - 1), Starts(m)(n))
  {
    assert After(m, n) == Next(After(m, n - 1));
  }

  lemma {:induction false} InvoicesAreSpans(records: seq<Record>, tenant: string, m: Month, n: nat)
    requires IsMonth(m)
    ensures Invoices(records, tenant, m, n) == Spans(Usage(records, tenant), Starts(m), n)
  {
    if n == 0 {
    } else {
      InvoicesAreSpans(records, tenant, m, n - 1);
      InvoiceIsSpan(records, tenant, m, n);
    }
  }

  ghost predicate SplitsAt(ab: Stats, bc: Stats, ac: Stats, bb: Stats) {
    Plus(ab, bc) == Plus(ac, bb)
  }

  lemma {:induction false} SplitsAdd(ab: Stats, bc: Stats, ac: Stats, bb: Stats,
                                     ab': Stats, bc': Stats, ac': Stats, bb': Stats)
    requires SplitsAt(ab, bc, ac, bb) && SplitsAt(ab', bc', ac', bb')
    ensures SplitsAt(Plus(ab, ab'), Plus(bc, bc'), Plus(ac, ac'), Plus(bb, bb'))
  {
  }

  lemma {:induction false} PickSplits(r: Record, tenant: string, a: int, b: int, c: int)
    requires a <= b <= c
    ensures SplitsAt(Pick(r, tenant, a, b), Pick(r, tenant, b, c), Pick(r, tenant, a, c), Pick(r, tenant, b, b))
  {
  }

  /** Usage that both of two adjoining spans contain is counted twice: exactly that at the moment they share. */
  lemma {:induction false} SplitSpan(records: seq<Record>, tenant: string, a: int, b: int, c: int)
    requires a <= b <= c
    ensures SplitsAt(Spent(records, tenant, a, b), Spent(records, tenant, b, c),
                     Spent(records, tenant, a, c), Spent(records, tenant, b, b))
  {
    if records == [] {
    } else {
      var init, last := records[..|records| - 1], records[|records| - 1];
      SplitSpan(init, tenant, a, b, c);
      PickSplits(last, tenant, a, b, c);
      SplitsAdd(Spent(init, tenant, a, b), Spent(init, tenant, b, c),
                Spent(init, tenant, a, c), Spent(init, tenant, b, b),
                Pick(last, tenant, a, b), Pick(last, tenant, b, c), Pick(last, tenant, a, c), Pick(last, tenant, b, b));
    }
  }

  ghost predicate SplitsEverywhere(usage: (int, int) -> Stats) {
    forall x, y, z {:trigger SplitsAt(usage(x, y), usage(y, z), usage(x, z), usage(y, y))} | x <= y <= z ::
      SplitsAt(usage(x, y), usage(y, z), usage(x, z), usage(y, y))
  }

  lemma {:induction false} UsageSplits(records: seq<Record>, tenant: string)
    ensures SplitsEverywhere(Usage(records, tenant))
  {
    forall x, y, z | x <= y <= z
      ensures SplitsAt(Spent(records, tenant, x, y), Spent(records, tenant, y, z),
                       Spent(records, tenant, x, z), Spent(records, tenant, y, y))
    {
      SplitSpan(records, tenant, x, y, z);
    }
  }

  lemma {:induction false} SpansCover(usage: (int, int) -> Stats, b: nat -> int, n: nat)
    requires Increasing(b) && n >= 1 && SplitsEverywhere(usage)
    ensures Spans(usage, b, n) == Plus(usage(b(0), b(n)), Inside(usage, b, n))
  {
    if n == 1 {
      assert Spans(usage, b, 0) == NO_STATS;
    } else {
      SpansCover(usage, b, n - 1);
      assert b(0) < b(n - 1) < b(n);
      assert SplitsAt(usage(b(0), b(n - 1)), usage(b(n - 1), b(n)), usage(b(0), b(n)), usage(b(n - 1), b(n - 1)));
    }
  }

  /** The invoices of consecutive months add up to the usage of the whole span plus once more the usage stamped exactly
      at the month boundaries inside it, which two invoices both contain. */
  lemma {:induction false} InvoicesCoverTheSpan(records: seq<Record>, tenant: string, m: Month, n: nat)
    requires IsMonth(m) && n >= 1
    ensures var usage := Usage(records, tenant);
            Invoices(records, tenant, m, n) ==
            Plus(usage(Start(m), Start(After(m, n))), Inside(usage, Starts(m), n))
  {
    var usage := Usage(records, tenant);
    UsageSplits(records, tenant);
    StartsIncrease(m);
    SpansCover(usage, Starts(m), n);
    InvoicesAreSpans(records, tenant, m, n);
  }

  /** How many of n consecutive spans contain a moment. */
  function TimesIn(at: int, b: nat -> int, n: nat): nat {
    if n == 0 then 0 else TimesIn(at, b, n - 1) + if b(n - 1) <= at <= b(n) then 1 else 0
  }

  lemma {:induction false} SpansHoldOnce(at: int, b: nat -> int, n: nat)
    requires Increasing(b)
    ensures !(b(0) <= at <= b(n)) ==> TimesIn(at, b, n) == 0
    ensures n > 0 && b(0) <= at <= b(n) ==>
              TimesIn(at, b, n) == if exists i :: 0 < i < n && at == b(i) then 2 else 1
  {
    if n == 0 {
    } else {
      SpansHoldOnce(at, b, n - 1);
      assert b(n - 1) < b(n);
    }
  }

  /** Every moment of n consecutive months is in exactly one of their invoices, except that one exactly at a month
      boundary inside them is in two. */
  lemma {:induction false} InvoicedOnceExactly(at: int, m: Month, n: nat)
    requires IsMonth(m)
    ensures !(Start(m) <= at <= Start(After(m, n))) ==> TimesIn(at, Starts(m), n) == 0
    ensures n > 0 && Start(m) <= at <= Start(After(m, n)) ==>
              TimesIn(at, Starts(m), n) == if exists i :: 0 < i < n && at == Starts(m)(i) then 2 else 1
  {
    StartsIncrease(m);
    SpansHoldOnce(at, Starts(m), n);
  }
}
