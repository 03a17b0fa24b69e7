/** The budget of a research run, the cost of a provider call, and the limits over whole runs. */
module Budgets {
  import opened Prelude

  datatype CostStatus = Known | Estimated | Unknown

  /** A limit; only the cost limit may be infinite. */
  datatype Cap = Finite(limit: real) | Infinite

  datatype Budget = Budget(
    maxProviderRequests: nat, maxSearchRequests: nat, maxInputTokens: nat, maxOutputTokens: nat,
    maxEstimatedCostUsd: Cap, maxElapsedMs: nat, maxStageAttempts: nat, maxSources: nat, maxDocumentChunks: nat)

  datatype Usage = Usage(
    providerRequests: nat, searchRequests: nat, inputTokens: nat, outputTokens: nat,
    estimatedCostUsd: real, costStatus: CostStatus, elapsedMs: nat, stageAttempts: nat, sources: nat, documentChunks: nat)

  /** The increment a caller projects; a cost status it does not give is the run's own. */
  datatype Next = Next(
    providerRequests: nat, searchRequests: nat, inputTokens: nat, outputTokens: nat,
    estimatedCostUsd: real, costStatus: Option<CostStatus>, elapsedMs: nat, stageAttempts: nat, sources: nat, documentChunks: nat)

  datatype Decision = Decision(allowed: bool, violations: seq<string>)

  function Project(u: Usage, n: Next): (p: Usage)
  {
    Usage(u.providerRequests + n.providerRequests, u.searchRequests + n.searchRequests, u.inputTokens + n.inputTokens,
          u.outputTokens + n.outputTokens, u.estimatedCostUsd + n.estimatedCostUsd,
          if n.costStatus.Some? then n.costStatus.value else u.costStatus, u.elapsedMs + n.elapsedMs,
          u.stageAttempts + n.stageAttempts, u.sources + n.sources, u.documentChunks + n.documentChunks)
  }

  predicate Exceeds(amount: real, cap: Cap)
  {
    cap.Finite? && amount > cap.limit
  }

  datatype Check = Check(amount: real, cap: Cap, code: string)

  function Checks(b: Budget, p: Usage): (checks: seq<Check>)
    ensures |checks| == 9
  {
    [Check(p.providerRequests as real, Finite(b.maxProviderRequests as real), "MAX_PROVIDER_REQUESTS"),
     Check(p.searchRequests as real, Finite(b.maxSearchRequests as real), "MAX_SEARCH_REQUESTS"),
     Check(p.inputTokens as real, Finite(b.maxInputTokens as real), "MAX_INPUT_TOKENS"),
     Check(p.outputTokens as real, Finite(b.maxOutputTokens as real), "MAX_OUTPUT_TOKENS"),
     Check(p.estimatedCostUsd, b.maxEstimatedCostUsd, "MAX_ESTIMATED_COST"),
     Check(p.elapsedMs as real, Finite(b.maxElapsedMs as real), "MAX_ELAPSED_TIME"),
     Check(p.stageAttempts as real, Finite(b.maxStageAttempts as real), "MAX_STAGE_ATTEMPTS"),
     Check(p.sources as real, Finite(b.maxSources as real), "MAX_SOURCES"),
     Check(p.documentChunks as real, Finite(b.maxDocumentChunks as real), "MAX_DOCUMENT_CHUNKS")]
  }

  predicate UnknownCost(b: Budget, u: Usage, n: Next)
  {
    n.providerRequests > 0 && Project(u, n).costStatus == Unknown && b.maxEstimatedCostUsd.Finite?
  }

  /** What "within budget" means, dimension by dimension. */
  predicate WithinBudget(b: Budget, p: Usage)
  {
    && p.providerRequests <= b.maxProviderRequests && p.searchRequests <= b.maxSearchRequests
    && p.inputTokens <= b.maxInputTokens && p.outputTokens <= b.maxOutputTokens
    && (b.maxEstimatedCostUsd.Finite? ==> p.estimatedCostUsd <= b.maxEstimatedCostUsd.limit)
    && p.elapsedMs <= b.maxElapsedMs && p.stageAttempts <= b.maxStageAttempts
    && p.sources <= b.maxSources && p.documentChunks <= b.maxDocumentChunks
  }

  lemma NoneExceeded(b: Budget, p: Usage)
    ensures (forall i :: 0 <= i < 9 ==> !Exceeds(Checks(b, p)[i].amount, Checks(b, p)[i].cap)) <==> WithinBudget(b, p)
  {
    var c := Checks(b, p);
    assert WithinBudget(b, p) <==>
      !Exceeds(c[0].amount, c[0].cap) && !Exceeds(c[1].amount, c[1].cap) && !Exceeds(c[2].amount, c[2].cap) &&
      !Exceeds(c[3].amount, c[3].cap) && !Exceeds(c[4].amount, c[4].cap) && !Exceeds(c[5].amount, c[5].cap) &&
      !Exceeds(c[6].amount, c[6].cap) && !Exceeds(c[7].amount, c[7].cap) && !Exceeds(c[8].amount, c[8].cap);
  }

  lemma CodesDistinct(b: Budget, p: Usage, i: nat, j: nat)
    requires i < j < 9
    ensures Checks(b, p)[i].code != Checks(b, p)[j].code && Checks(b, p)[i].code != "UNKNOWN_MODEL_COST"
    ensures Checks(b, p)[j].code != "UNKNOWN_MODEL_COST"
  {
    var lengths := [21, 19, 16, 17, 18, 16, 18, 11, 19];
    var c := Checks(b, p);
    assert forall k :: 0 <= k < 9 ==> |c[k].code| == lengths[k];
    assert c[1].code[4] == 'S' && c[8].code[4] == 'D' && c[2].code[4] == 'I' && c[5].code[4] == 'E';
    assert c[4].code[4] == 'E' && c[6].code[4] == 'S' && c[0].code[4] == 'P';
    assert |"UNKNOWN_MODEL_COST"| == 18 && "UNKNOWN_MODEL_COST"[4] == 'O';
  }

  /** Violations listed in order, without repetition, each naming a limit that is exceeded, and all of them. */
  ghost predicate Exact(b: Budget, u: Usage, n: Next, violations: seq<string>)
  {
    var checks := Checks(b, Project(u, n));
    && (forall i, j :: 0 <= i < j < |violations| ==> violations[i] != violations[j])
    && (forall i :: 0 <= i < 9 ==> (checks[i].code in violations <==> Exceeds(checks[i].amount, checks[i].cap)))
    && ("UNKNOWN_MODEL_COST" in violations <==> UnknownCost(b, u, n))
    && (forall v :: v in violations ==> v == "UNKNOWN_MODEL_COST" || exists i :: 0 <= i < 9 && checks[i].code == v)
  }

  /** Which limit each code names. */
  lemma CodesMean(b: Budget, u: Usage, n: Next, violations: seq<string>)
    requires Exact(b, u, n, violations)
    ensures "MAX_PROVIDER_REQUESTS" in violations <==> u.providerRequests + n.providerRequests > b.maxProviderRequests
    ensures "MAX_SEARCH_REQUESTS" in violations <==> u.searchRequests + n.searchRequests > b.maxSearchRequests
    ensures "MAX_INPUT_TOKENS" in violations <==> u.inputTokens + n.inputTokens > b.maxInputTokens
    ensures "MAX_OUTPUT_TOKENS" in violations <==> u.outputTokens + n.outputTokens > b.maxOutputTokens
    ensures "MAX_ESTIMATED_COST" in violations <==>
            b.maxEstimatedCostUsd.Finite? && u.estimatedCostUsd + n.estimatedCostUsd > b.maxEstimatedCostUsd.limit
    ensures "MAX_ELAPSED_TIME" in violations <==> u.elapsedMs + n.elapsedMs > b.maxElapsedMs
    ensures "MAX_STAGE_ATTEMPTS" in violations <==> u.stageAttempts + n.stageAttempts > b.maxStageAttempts
    ensures "MAX_SOURCES" in violations <==> u.sources + n.sources > b.maxSources
    ensures "MAX_DOCUMENT_CHUNKS" in violations <==> u.documentChunks + n.documentChunks > b.maxDocumentChunks
  {
    var c := Checks(b, Project(u, n));
    assert forall i :: 0 <= i < 9 ==> (c[i].code in violations <==> Exceeds(c[i].amount, c[i].cap));
    assert c[0].code in violations <==> Exceeds(c[0].amount, c[0].cap);
    assert c[1].code in violations <==> Exceeds(c[1].amount, c[1].cap);
    assert c[2].code in violations <==> Exceeds(c[2].amount, c[2].cap);
    assert c[3].code in violations <==> Exceeds(c[3].amount, c[3].cap);
    assert c[4].code in violations <==> Exceeds(c[4].amount, c[4].cap);
    assert c[5].code in violations <==> Exceeds(c[5].amount, c[5].cap);
    assert c[6].code in violations <==> Exceeds(c[6].amount, c[6].cap);
    assert c[7].code in violations <==> Exceeds(c[7].amount, c[7].cap);
    assert c[8].code in violations <==> Exceeds(c[8].amount, c[8].cap);
  }

  /** The loop over the nine limits. */
  method Exceeded(checks: seq<Check>) returns (violations: seq<string>)
    requires forall i, j :: 0 <= i < j < |checks| ==> checks[i].code != checks[j].code
    ensures forall i, j :: 0 <= i < j < |violations| ==> violations[i] != violations[j]
    ensures forall i :: 0 <= i < |checks| ==> (checks[i].code in violations <==> Exceeds(checks[i].amount, checks[i].cap))
    ensures forall v :: v in violations ==> exists i :: 0 <= i < |checks| && checks[i].code == v
  {
    violations := [];
    for k := 0 to |checks|
      invariant forall i, j :: 0 <= i < j < |violations| ==> violations[i] != violations[j]
      invariant forall i :: 0 <= i < k ==> (checks[i].code in violations <==> Exceeds(checks[i].amount, checks[i].cap))
      invariant forall v :: v in violations ==> exists i :: 0 <= i < k && checks[i].code == v
    {
      assert checks[k].code !in violations;
      if Exceeds(checks[k].amount, checks[k].cap) {
        violations := violations + [checks[k].code];
      }
    }
  }

  /**
    Each of the nine amounts, with what the caller adds to it, is within its limit; and if the caller
    adds a request under a finite cost limit, the cost status it gives, or else the run's, is known.
   */
  ghost predicate Fits(b: Budget, u: Usage, n: Next)
  {
    && u.providerRequests + n.providerRequests <= b.maxProviderRequests && u.searchRequests + n.searchRequests <= b.maxSearchRequests
    && u.inputTokens + n.inputTokens <= b.maxInputTokens && u.outputTokens + n.outputTokens <= b.maxOutputTokens
    && u.elapsedMs + n.elapsedMs <= b.maxElapsedMs && u.stageAttempts + n.stageAttempts <= b.maxStageAttempts
    && u.sources + n.sources <= b.maxSources && u.documentChunks + n.documentChunks <= b.maxDocumentChunks
    && (b.maxEstimatedCostUsd.Infinite? ||
        (u.estimatedCostUsd + n.estimatedCostUsd <= b.maxEstimatedCostUsd.limit &&
         (n.providerRequests == 0 || Unknown != if n.costStatus.Some? then n.costStatus.value else u.costStatus)))
  }

  lemma AllowsIff(b: Budget, u: Usage, n: Next)
    ensures WithinBudget(b, Project(u, n)) && !UnknownCost(b, u, n) <==> Fits(b, u, n)
  {
  }

  method CheckRunBudget(b: Budget, u: Usage, n: Next) returns (d: Decision)
    ensures Exact(b, u, n, d.violations)
    ensures d.allowed <==> d.violations == []
    ensures d.allowed <==> WithinBudget(b, Project(u, n)) && !UnknownCost(b, u, n)
    ensures d.allowed <==> Fits(b, u, n)
  {
    AllowsIff(b, u, n);
    var projected := Project(u, n);
    var checks := Checks(b, projected);
    NoneExceeded(b, projected);
    forall i, j | 0 <= i < j < 9
      ensures checks[i].code != checks[j].code && checks[i].code != "UNKNOWN_MODEL_COST" && checks[j].code != "UNKNOWN_MODEL_COST"
    {
      CodesDistinct(b, projected, i, j);
    }
    var unknown := "UNKNOWN_MODEL_COST";
    assert checks[0].code != unknown && forall i :: 0 < i < 9 ==> checks[0].code != checks[i].code && checks[i].code != unknown;
    hide Checks, Project, Exceeds, WithinBudget, UnknownCost, Fits;
    var violations := Exceeded(checks);
    assert unknown !in violations;
    assert violations == [] <==> forall i :: 0 <= i < 9 ==> !Exceeds(checks[i].amount, checks[i].cap) by {
      assert violations != [] ==> violations[0] in violations;
    }
    if UnknownCost(b, u, n) {
      violations := violations + [unknown];
    }
    assert unknown in violations <==> UnknownCost(b, u, n);
    d := Decision(violations == [], violations);
  }

  // ---------------------------------------------------------------- the cost of one call

  /** A price is never negative and its status is never unknown, as `parseModelPrices` makes sure. */
  type Usd = r: real | r >= 0.0
  type PriceStatus = s: CostStatus | s != Unknown witness Known

  datatype Price = Price(provider: string, model: string, inputUsdPerMillion: Usd, outputUsdPerMillion: Usd, status: PriceStatus)

  predicate IsPriceOf(p: Price, provider: string, model: string)
  {
    p.provider == provider && p.model == model
  }

  ghost predicate IsFirst(prices: seq<Price>, i: nat, provider: string, model: string)
    requires i < |prices|
  {
    IsPriceOf(prices[i], provider, model) && forall j :: 0 <= j < i ==> !IsPriceOf(prices[j], provider, model)
  }

  /** The first entry for the model, as `find` picks it. */
  function FindPrice(prices: seq<Price>, provider: string, model: string): (r: Option<Price>)
    ensures r.None? <==> forall i :: 0 <= i < |prices| ==> !IsPriceOf(prices[i], provider, model)
    ensures r.Some? ==> r.value.provider == provider && r.value.model == model
    ensures r.None? ==> forall p :: p in prices ==> p.provider != provider || p.model != model
    ensures r.Some? ==> exists i :: 0 <= i < |prices| && prices[i] == r.value && IsFirst(prices, i, provider, model)
  {
    if prices == [] then None
    else if IsPriceOf(prices[0], provider, model) then Some(prices[0])
    else
      var rest := FindPrice(prices[1..], provider, model);
      assert forall i :: 0 <= i < |prices[1..]| ==> prices[1..][i] == prices[i + 1];
      assert forall i :: 0 <= i < |prices[1..]| && IsFirst(prices[1..], i, provider, model) ==>
                           prices[1..][i] == prices[i + 1] && IsFirst(prices, i + 1, provider, model);
      rest
  }

  function ConfiguredCostStatus(prices: seq<Price>, provider: string, model: string): (s: CostStatus)
  {
    match FindPrice(prices, provider, model) case Some(p) => p.status case None => Unknown
  }

  datatype Cost = Cost(status: CostStatus, estimatedCostUsd: Option<real>)

  /** Prices are in USD for a million tokens, so this is in millionths of a dollar. */
  function MicroUsd(p: Price, inputTokens: nat, outputTokens: nat): (cost: real)
    ensures cost >= 0.0
  {
    inputTokens as real * p.inputUsdPerMillion + outputTokens as real * p.outputUsdPerMillion
  }

  /** A cost is given exactly when the model has a price and the provider reported both token counts. */
  function EstimateProviderCost(prices: seq<Price>, provider: string, model: string,
                                inputTokens: Option<nat>, outputTokens: Option<nat>): (c: Cost)
    ensures c.status == Unknown <==> c.estimatedCostUsd.None?
    ensures c.status != Unknown ==> c.status == ConfiguredCostStatus(prices, provider, model)
    ensures c.status == Unknown <==>
            ConfiguredCostStatus(prices, provider, model) == Unknown || inputTokens.None? || outputTokens.None?
    ensures c.estimatedCostUsd.Some? ==>
      && c.estimatedCostUsd.value >= 0.0
      && c.estimatedCostUsd.value * 1000000.0 ==
         MicroUsd(FindPrice(prices, provider, model).value, inputTokens.value, outputTokens.value)
  {
    match FindPrice(prices, provider, model)
    case None => Cost(Unknown, None)
    case Some(p) =>
      if inputTokens.None? || outputTokens.None? then Cost(Unknown, None)
      else
        Cost(p.status, Some(MicroUsd(p, inputTokens.value, outputTokens.value) / 1000000.0))
  }

  // ---------------------------------------------------------------- accumulated usage

  /** The totals a run row accumulates. */
  datatype Totals = Totals(
    providerRequests: nat, searchRequests: nat, inputTokens: nat, outputTokens: nat, estimatedCostUsd: real, costStatus: CostStatus)

  datatype Call = Call(inputTokens: nat, outputTokens: nat, cost: Cost)

  function Combine(requests: nat, s: CostStatus, t: CostStatus): CostStatus
  {
    if requests == 0 then t
    else if s == Unknown || t == Unknown then Unknown
    else if s == Estimated || t == Estimated then Estimated
    else Known
  }

  /** One recorded provider attempt. */
  function Charge(t: Totals, c: Call): (r: Totals)
  {
    Totals(t.providerRequests + 1, t.searchRequests, t.inputTokens + c.inputTokens, t.outputTokens + c.outputTokens,
           if c.cost.estimatedCostUsd.Some? then t.estimatedCostUsd + c.cost.estimatedCostUsd.value else t.estimatedCostUsd,
           Combine(t.providerRequests, t.costStatus, c.cost.status))
  }

  /** What the preflight establishes about the totals before a call is made. */
  predicate MayCall(b: Budget, t: Totals)
  {
    && t.providerRequests < b.maxProviderRequests
    && t.inputTokens <= b.maxInputTokens && t.outputTokens <= b.maxOutputTokens
    && (b.maxEstimatedCostUsd.Finite? ==> t.estimatedCostUsd <= b.maxEstimatedCostUsd.limit)
  }

  /** One stage attempt as the run row sees it: nothing recorded, or one call recorded after its preflight. */
  ghost predicate Attempt(b: Budget, t: Totals, call: Option<Call>, r: Totals)
  {
    match call
    case None => r == t
    case Some(c) => MayCall(b, t) && r == Charge(t, c)
  }

  ghost predicate Ledger(b: Budget, totals: seq<Totals>, calls: seq<Option<Call>>)
  {
    |totals| == |calls| + 1 && forall i :: 0 <= i < |calls| ==> Attempt(b, totals[i], calls[i], totals[i + 1])
  }

  /** The limits a run row can be held to. */
  ghost predicate WithinTotals(b: Budget, t: Totals)
  {
    && t.providerRequests <= b.maxProviderRequests
    && t.inputTokens <= b.maxInputTokens && t.outputTokens <= b.maxOutputTokens
    && (b.maxEstimatedCostUsd.Finite? ==> t.estimatedCostUsd <= b.maxEstimatedCostUsd.limit)
  }

  /** What a run has consumed: its recorded calls, added up. */
  function Consumed(calls: seq<Option<Call>>): (t: Totals)
  {
    if calls == [] then Totals(0, 0, 0, 0, 0.0, Known)
    else
      var t, last := Consumed(calls[..|calls| - 1]), calls[|calls| - 1];
      if last.None? then t
      else
        Totals(t.providerRequests + 1, 0, t.inputTokens + last.value.inputTokens, t.outputTokens + last.value.outputTokens,
               t.estimatedCostUsd + (if last.value.cost.estimatedCostUsd.Some? then last.value.cost.estimatedCostUsd.value else 0.0), Known)
  }

  /** Conservation: the totals of the run are its first totals and everything consumed since. */
  lemma {:induction false} TotalsAddUp(b: Budget, totals: seq<Totals>, calls: seq<Option<Call>>, j: nat)
    requires Ledger(b, totals, calls) && j < |totals|
    ensures var used := Consumed(calls[..j]);
      && totals[j].providerRequests == totals[0].providerRequests + used.providerRequests
      && totals[j].searchRequests == totals[0].searchRequests
      && totals[j].inputTokens == totals[0].inputTokens + used.inputTokens
      && totals[j].outputTokens == totals[0].outputTokens + used.outputTokens
      && totals[j].estimatedCostUsd == totals[0].estimatedCostUsd + used.estimatedCostUsd
  {
    if j > 0 {
      TotalsAddUp(b, totals, calls, j - 1);
      assert Attempt(b, totals[j - 1], calls[j - 1], totals[j]);
      assert calls[..j][..j - 1] == calls[..j - 1];
    }
  }

  /** A known status is the worst of the statuses that were recorded; `Unknown` is worse than `Estimated`. */
  ghost predicate IsWorst(s: CostStatus, calls: seq<Option<Call>>)
  {
    && (exists i :: 0 <= i < |calls| && calls[i].Some? && calls[i].value.cost.status == s)
    && (forall i :: 0 <= i < |calls| && calls[i].Some? ==>
          match s
          case Unknown => true
          case Estimated => calls[i].value.cost.status != Unknown
          case Known => calls[i].value.cost.status == Known)
  }

  /** The cost status of a run that starts without requests is the worst of its recorded calls. */
  lemma {:induction false} CostStatusIsWorst(b: Budget, totals: seq<Totals>, calls: seq<Option<Call>>, j: nat)
    requires Ledger(b, totals, calls) && j < |totals| && totals[0].providerRequests == 0
    ensures totals[j].providerRequests == 0 <==> forall i :: 0 <= i < j ==> calls[i] == None
    ensures totals[j].providerRequests > 0 ==> IsWorst(totals[j].costStatus, calls[..j])
  {
    if j > 0 {
      CostStatusIsWorst(b, totals, calls, j - 1);
      assert Attempt(b, totals[j - 1], calls[j - 1], totals[j]);
      assert forall i :: 0 <= i < j - 1 ==> calls[..j][i] == calls[..j - 1][i];
      assert calls[..j][j - 1] == calls[j - 1];
    }
  }

  /** Requests never pass the cap, however many attempts are made. */
  lemma {:induction false} RequestsWithinCap(b: Budget, totals: seq<Totals>, calls: seq<Option<Call>>, i: nat)
    requires Ledger(b, totals, calls) && i < |totals| && totals[0].providerRequests <= b.maxProviderRequests
    ensures totals[i].providerRequests <= b.maxProviderRequests
  {
    if i > 0 {
      RequestsWithinCap(b, totals, calls, i - 1);
      assert Attempt(b, totals[i - 1], calls[i - 1], totals[i]);
    }
  }

  /** Once a limit is passed nothing is recorded any more. */
  lemma {:induction false} FrozenOnceOver(b: Budget, totals: seq<Totals>, calls: seq<Option<Call>>, i: nat, j: nat)
    requires Ledger(b, totals, calls) && i <= j < |totals| && !WithinTotals(b, totals[i])
    ensures totals[j] == totals[i] && forall k :: i <= k < j ==> calls[k] == None
    decreases j
  {
    if i < j {
      FrozenOnceOver(b, totals, calls, i, j - 1);
      assert Attempt(b, totals[j - 1], calls[j - 1], totals[j]);
    }
  }

  /**
    Overshoot is one call. In any run that starts within its limits, at every moment either all
    limits hold, or they held up to a single last call: the totals are what that one call made of
    totals within the limits, and nothing has been recorded since.
   */
  lemma {:induction false} OvershootIsOneCall(b: Budget, totals: seq<Totals>, calls: seq<Option<Call>>, j: nat)
    requires Ledger(b, totals, calls) && j < |totals| && WithinTotals(b, totals[0])
    ensures WithinTotals(b, totals[j]) || exists k: nat ::
      && k < j && WithinTotals(b, totals[k]) && calls[k].Some? && totals[j] == Charge(totals[k], calls[k].value)
      && forall i :: k < i < j ==> calls[i] == None
  {
    if j > 0 {
      OvershootIsOneCall(b, totals, calls, j - 1);
      assert Attempt(b, totals[j - 1], calls[j - 1], totals[j]);
      if !WithinTotals(b, totals[j]) {
        if WithinTotals(b, totals[j - 1]) {
          assert calls[j - 1].Some? && totals[j] == Charge(totals[j - 1], calls[j - 1].value);
        } else {
          FrozenOnceOver(b, totals, calls, j - 1, j);
          var k: nat :| && k < j - 1 && WithinTotals(b, totals[k]) && calls[k].Some?
                        && totals[j - 1] == Charge(totals[k], calls[k].value)
                        && forall i :: k < i < j - 1 ==> calls[i] == None;
          assert forall i :: k < i < j ==> calls[i] == None;
        }
      }
    }
  }
}
