/** The whole QA run, and what approval means. */
module QaApproval {
  import opened Prelude
  import opened Text
  import opened Qa
  import opened QaSources
  import R = Research

  // ---------------------------------------------------------------- the remaining rules

  function CitationRule(): R.Issue -> seq<Finding>
  {
    (issue: R.Issue) => [Found(InvalidCitationId, Citation(issue))]
  }

  function ConflictRule(): Conflict -> seq<Finding>
  {
    (c: Conflict) => if c.resolved then [] else [Found(UnresolvedSourceConflict, Entity(c.id))]
  }

  ghost predicate IsRecorded(ctx: Context, n: nat, claimId: string)
    requires n <= |ctx.conflicts|
  {
    exists i :: 0 <= i < n && IsTruthy(ctx.conflicts[i].claimId) && ctx.conflicts[i].claimId.value == claimId
  }

  ghost predicate IsOpenContest(ctx: Context, c: Claim)
  {
    IsContested(ctx, |ctx.claims|, c.id) && !IsRecorded(ctx, |ctx.conflicts|, c.id)
  }

  ghost function ContestedRule(ctx: Context): Claim -> seq<Finding>
  {
    (c: Claim) => if IsOpenContest(ctx, c) then [Found(UnresolvedSourceConflict, ContestedClaim(c.id))] else []
  }

  function StatementRule(): Statement -> seq<Finding>
  {
    (s: Statement) =>
      (if s.mixed then [Found(FactInferenceMix, Entity(s.id))] else []) +
      (if s.withinScope then [] else [Found(OutOfScopeContent, Entity(s.id))])
  }

  /** The number names evidence that exists and is verified. */
  ghost predicate IsNumberBacked(ctx: Context, q: Quantity)
  {
    IsTruthy(q.evidenceId) && exists e :: IsVerifiedEvidence(ctx, e) && e.id == q.evidenceId.value
  }

  ghost function QuantityRule(ctx: Context): Quantity -> seq<Finding>
  {
    (q: Quantity) =>
      (if IsNumberBacked(ctx, q) then [] else [Found(UnsupportedNumber, Entity(q.id))]) +
      (if q.dateMatches == Some(false) || q.unitMatches == Some(false) then [Found(DateOrUnitMismatch, Entity(q.id))] else []) +
      (if q.valueMatches == Some(false) then [Found(SourceNumberMismatch, Entity(q.id))] else [])
  }

  ghost function UnreferencedRule(ctx: Context): Source -> seq<Finding>
  {
    (s: Source) => if s.id in Cited(ctx) then [] else [Found(UnreferencedSource, Entity(s.id))]
  }

  function GapRule(): Gap -> seq<Finding>
  {
    (g: Gap) => if g.status == Open then [Found(OpenResearchGap, Entity(g.id))] else []
  }

  predicate IsEmptyRequired(s: Section)
  {
    s.required && |Trim(s.content)| == 0
  }

  function SectionRule(): Section -> seq<Finding>
  {
    (s: Section) => if IsEmptyRequired(s) then [Found(EmptyRequiredSection, Entity(s.id))] else []
  }

  method CheckConflicts(ctx: Context) returns (findings: seq<Finding>, recorded: set<string>)
    ensures findings == FlatMap(ctx.conflicts, ConflictRule())
    ensures forall id :: id in recorded <==> IsRecorded(ctx, |ctx.conflicts|, id)
  {
    findings, recorded := [], {};
    for i := 0 to |ctx.conflicts|
      invariant findings == FlatMap(ctx.conflicts[..i], ConflictRule())
      invariant forall id :: id in recorded <==> IsRecorded(ctx, i, id)
    {
      FlatMapNext(ctx.conflicts, i, ConflictRule());
      var conflict := ctx.conflicts[i];
      if IsTruthy(conflict.claimId) {
        recorded := recorded + {conflict.claimId.value};
      }
      if !conflict.resolved {
        findings := findings + [Found(UnresolvedSourceConflict, Entity(conflict.id))];
      }
    }
    assert ctx.conflicts[..|ctx.conflicts|] == ctx.conflicts;
  }

  method CheckContested(ctx: Context, support: map<string, R.Support>, recorded: set<string>) returns (findings: seq<Finding>)
    requires forall id :: (id in support && support[id] == R.Contested) <==> IsContested(ctx, |ctx.claims|, id)
    requires forall id :: id in recorded <==> IsRecorded(ctx, |ctx.conflicts|, id)
    ensures findings == FlatMap(ctx.claims, ContestedRule(ctx))
  {
    findings := [];
    hide IsContested, IsRecorded, Found;
    for i := 0 to |ctx.claims|
      invariant findings == FlatMap(ctx.claims[..i], ContestedRule(ctx))
    {
      FlatMapNext(ctx.claims, i, ContestedRule(ctx));
      var claim := ctx.claims[i];
      if claim.id !in support || support[claim.id] != R.Contested {
        continue;
      }
      if claim.id !in recorded {
        findings := findings + [Found(UnresolvedSourceConflict, ContestedClaim(claim.id))];
      }
    }
    assert ctx.claims[..|ctx.claims|] == ctx.claims;
  }

  method CheckStatements(statements: seq<Statement>) returns (findings: seq<Finding>)
    ensures findings == FlatMap(statements, StatementRule())
  {
    findings := [];
    for i := 0 to |statements|
      invariant findings == FlatMap(statements[..i], StatementRule())
    {
      FlatMapNext(statements, i, StatementRule());
      if statements[i].mixed {
        findings := findings + [Found(FactInferenceMix, Entity(statements[i].id))];
      }
      if !statements[i].withinScope {
        findings := findings + [Found(OutOfScopeContent, Entity(statements[i].id))];
      }
    }
    assert statements[..|statements|] == statements;
  }

  /** One number, judged through the lookup table. */
  method CheckQuantity(ctx: Context, ix: Index, q: Quantity) returns (findings: seq<Finding>)
    requires ix == IndexOf(ctx)
    ensures findings == QuantityRule(ctx)(q)
  {
    NumberBackedByIndex(ctx, q);
    hide IndexOf, Found, IsNumberBacked;
    findings := [];
    if !IsTruthy(q.evidenceId) || q.evidenceId.value !in ix.evidence || ix.evidence[q.evidenceId.value].verification != R.Verified {
      findings := findings + [Found(UnsupportedNumber, Entity(q.id))];
    }
    if q.dateMatches == Some(false) || q.unitMatches == Some(false) {
      findings := findings + [Found(DateOrUnitMismatch, Entity(q.id))];
    }
    if q.valueMatches == Some(false) {
      findings := findings + [Found(SourceNumberMismatch, Entity(q.id))];
    }
  }

  method CheckQuantities(ctx: Context, ix: Index) returns (findings: seq<Finding>)
    requires ix == IndexOf(ctx)
    ensures findings == FlatMap(ctx.quantities, QuantityRule(ctx))
  {
    findings := [];
    hide IndexOf, QuantityRule;
    for i := 0 to |ctx.quantities|
      invariant findings == FlatMap(ctx.quantities[..i], QuantityRule(ctx))
    {
      FlatMapNext(ctx.quantities, i, QuantityRule(ctx));
      hide FlatMap;
      var found := CheckQuantity(ctx, ix, ctx.quantities[i]);
      findings := findings + found;
    }
    assert ctx.quantities[..|ctx.quantities|] == ctx.quantities;
  }

  lemma NumberBackedByIndex(ctx: Context, q: Quantity)
    ensures var ix := IndexOf(ctx);
      IsNumberBacked(ctx, q) <==>
        IsTruthy(q.evidenceId) && q.evidenceId.value in ix.evidence && ix.evidence[q.evidenceId.value].verification == R.Verified
  {
    if IsTruthy(q.evidenceId) {
      EvidenceFound(ctx.evidence, q.evidenceId.value);
    }
    if IsNumberBacked(ctx, q) {
      var e :| IsVerifiedEvidence(ctx, e) && e.id == q.evidenceId.value;
      IndexFindsLast(ctx, e);
    }
  }

  method CheckUnreferenced(ctx: Context, cited: seq<string>) returns (findings: seq<Finding>)
    requires cited == Cited(ctx)
    ensures findings == FlatMap(ctx.sources, UnreferencedRule(ctx))
  {
    findings := [];
    hide Cited;
    for i := 0 to |ctx.sources|
      invariant findings == FlatMap(ctx.sources[..i], UnreferencedRule(ctx))
    {
      FlatMapNext(ctx.sources, i, UnreferencedRule(ctx));
      if ctx.sources[i].id !in cited {
        findings := findings + [Found(UnreferencedSource, Entity(ctx.sources[i].id))];
      }
    }
    assert ctx.sources[..|ctx.sources|] == ctx.sources;
  }

  method CheckGaps(gaps: seq<Gap>) returns (findings: seq<Finding>)
    ensures findings == FlatMap(gaps, GapRule())
  {
    findings := [];
    for i := 0 to |gaps|
      invariant findings == FlatMap(gaps[..i], GapRule())
    {
      FlatMapNext(gaps, i, GapRule());
      if gaps[i].status == Open {
        findings := findings + [Found(OpenResearchGap, Entity(gaps[i].id))];
      }
    }
    assert gaps[..|gaps|] == gaps;
  }

  method CheckSections(sections: seq<Section>) returns (findings: seq<Finding>)
    ensures findings == FlatMap(sections, SectionRule())
  {
    findings := [];
    hide Trim;
    for i := 0 to |sections|
      invariant findings == FlatMap(sections[..i], SectionRule())
    {
      FlatMapNext(sections, i, SectionRule());
      if sections[i].required && |Trim(sections[i].content)| == 0 {
        findings := findings + [Found(EmptyRequiredSection, Entity(sections[i].id))];
      }
    }
    assert sections[..|sections|] == sections;
  }

  method ReportIssues(issues: seq<R.Issue>) returns (findings: seq<Finding>)
    ensures findings == FlatMap(issues, CitationRule())
  {
    findings := [];
    for i := 0 to |issues|
      invariant findings == FlatMap(issues[..i], CitationRule())
    {
      FlatMapNext(issues, i, CitationRule());
      findings := findings + [Found(InvalidCitationId, Citation(issues[i]))];
    }
    assert issues[..|issues|] == issues;
  }

  // ---------------------------------------------------------------- the run

  ghost function Issues(ctx: Context): seq<R.Issue>
  {
    R.IssuesUpTo(ctx.citationIds, IndexOf(ctx).sources.Keys, |ctx.citationIds|)
  }

  ghost function CitedPublishers(ctx: Context): seq<string>
  {
    Publishers(Cited(ctx), IndexOf(ctx).sources)
  }

  ghost function SourceFindings(ctx: Context): seq<Finding>
  {
    FlatMap(Cited(ctx), OutdatedRule(ctx)) + DuplicateFindings(ctx.sources) + ConcentrationFindings(CitedPublishers(ctx))
  }

  ghost function LateFindings(ctx: Context): seq<Finding>
  {
    FlatMap(ctx.conflicts, ConflictRule()) + FlatMap(ctx.claims, ContestedRule(ctx)) +
    FlatMap(ctx.statements, StatementRule()) + FlatMap(ctx.quantities, QuantityRule(ctx)) +
    FlatMap(ctx.sources, UnreferencedRule(ctx)) + FlatMap(ctx.gaps, GapRule()) + FlatMap(ctx.sections, SectionRule())
  }

  /** Everything the rules report, in order. */
  ghost function AllFindings(ctx: Context): seq<Finding>
  {
    FlatMap(ctx.claims, UnsourcedRule(ctx)) + FlatMap(Issues(ctx), CitationRule()) + SourceFindings(ctx) + LateFindings(ctx)
  }

  /** Every source the rules look at has a usable date. */
  ghost predicate Assessable(ctx: Context)
  {
    Datable(ctx, |ctx.claims|) && CitedDatable(ctx)
  }

  method CheckSources(ctx: Context, ix: Index, cited: seq<string>) returns (r: Result<seq<Finding>, R.DomainError>)
    requires ix == IndexOf(ctx) && cited == Cited(ctx)
    ensures r.Success? <==> CitedDatable(ctx)
    ensures r.Success? ==> r.value == SourceFindings(ctx)
  {
    hide IndexOf, Cited, CitedDatable, OutdatedRule, FlatMap, MarkedFindings, HashFindings, ConcentrationFindings, Publishers;
    var outdated := CheckOutdated(ctx, ix, cited);
    if outdated.Failure? {
      return Failure(outdated.error);
    }
    var marked, ids := CheckMarked(ctx.sources);
    var hashed := CheckHashes(ctx.sources, ids);
    var concentrated := CheckConcentration(Publishers(cited, ix.sources));
    r := Success(outdated.value + (marked + hashed) + concentrated);
  }

  method CheckLate(ctx: Context, ix: Index, cited: seq<string>, support: map<string, R.Support>) returns (findings: seq<Finding>)
    requires ix == IndexOf(ctx) && cited == Cited(ctx)
    requires forall id :: (id in support && support[id] == R.Contested) <==> IsContested(ctx, |ctx.claims|, id)
    ensures findings == LateFindings(ctx)
  {
    hide IndexOf, Cited, IsContested, IsRecorded, FlatMap, ConflictRule, ContestedRule, StatementRule, QuantityRule, UnreferencedRule,
         GapRule, SectionRule;
    var conflicts, recorded := CheckConflicts(ctx);
    var contested := CheckContested(ctx, support, recorded);
    var statements := CheckStatements(ctx.statements);
    var quantities := CheckQuantities(ctx, ix);
    var unreferenced := CheckUnreferenced(ctx, cited);
    var gaps := CheckGaps(ctx.gaps);
    var sections := CheckSections(ctx.sections);
    findings := conflicts + contested + statements + quantities + unreferenced + gaps + sections;
  }

  /** `runQaRules`: it fails exactly when some source it looks at has no usable date. */
  method RunQaRules(ctx: Context) returns (r: Result<seq<Finding>, R.DomainError>)
    ensures r.Success? <==> Assessable(ctx)
    ensures r.Success? ==> r.value == AllFindings(ctx)
  {
    var ix := IndexOf(ctx);
    hide IndexOf, Cited, CitedDatable, Datable, IsContested, FlatMap, UnsourcedRule, CitationRule, SourceFindings, LateFindings;
    var claims := CheckClaims(ctx, ix);
    if claims.Failure? {
      return Failure(claims.error);
    }
    var issues := R.FindCitationIdIssues(ctx.citationIds, ix.sources.Keys);
    var citations := ReportIssues(issues);
    var cited := Cited(ctx);
    var sources := CheckSources(ctx, ix, cited);
    if sources.Failure? {
      return Failure(sources.error);
    }
    var late := CheckLate(ctx, ix, cited, claims.value.1);
    r := Success(claims.value.0 + citations + sources.value + late);
  }

  // ---------------------------------------------------------------- approval

  lemma AllowedAppend(a: seq<Finding>, b: seq<Finding>)
    ensures ApprovalAllowed(a + b) <==> ApprovalAllowed(a) && ApprovalAllowed(b)
  {
    assert forall i :: 0 <= i < |a| ==> (a + b)[i] == a[i];
    assert forall i :: 0 <= i < |b| ==> (a + b)[|a| + i] == b[i];
  }

  lemma {:induction false} AllowedFlatMap<A>(xs: seq<A>, f: A -> seq<Finding>)
    ensures ApprovalAllowed(FlatMap(xs, f)) <==> forall i :: 0 <= i < |xs| ==> ApprovalAllowed(f(xs[i]))
  {
    hide ApprovalAllowed;
    if xs == [] {
      assert ApprovalAllowed([]) by {
        AllowedEmpty();
      }
    } else {
      AllowedFlatMap(xs[1..], f);
      AllowedAppend(f(xs[0]), FlatMap(xs[1..], f));
      assert forall i :: 0 < i < |xs| ==> xs[i] == xs[1..][i - 1];
      assert forall i :: 0 <= i < |xs[1..]| ==> xs[1..][i] == xs[i + 1];
    }
  }

  lemma AllowedEmpty()
    ensures ApprovalAllowed([])
  {
  }

  /** What a report must satisfy to be approved, said of the context alone. */
  ghost predicate Approvable(ctx: Context)
  {
    && (forall i :: 0 <= i < |ctx.claims| && ctx.claims[i].includeInReport && ctx.claims[i].importance in {Critical, High} ==>
          Backed(ctx, ctx.claims[i].id, R.Supports))
    && R.GoodCitations(ctx.citationIds, set s | s in ctx.sources :: s.id)
    && (forall i :: 0 <= i < |ctx.conflicts| ==> ctx.conflicts[i].resolved)
    && (forall i :: 0 <= i < |ctx.claims| && IsContested(ctx, |ctx.claims|, ctx.claims[i].id) ==>
          IsRecorded(ctx, |ctx.conflicts|, ctx.claims[i].id))
    && (forall i :: 0 <= i < |ctx.quantities| ==> IsNumberBacked(ctx, ctx.quantities[i]) && ctx.quantities[i].valueMatches != Some(false))
    && (forall i :: 0 <= i < |ctx.gaps| ==> ctx.gaps[i].status != Open)
    && (forall i :: 0 <= i < |ctx.sections| && ctx.sections[i].required ==> exists c :: c in ctx.sections[i].content && !IsSpace(c))
  }

  lemma ClaimsAllowed(ctx: Context)
    ensures ApprovalAllowed(FlatMap(ctx.claims, UnsourcedRule(ctx))) <==>
      forall i :: 0 <= i < |ctx.claims| && ctx.claims[i].includeInReport && ctx.claims[i].importance in {Critical, High} ==>
                    Backed(ctx, ctx.claims[i].id, R.Supports)
  {
    hide ApprovalAllowed, FlatMap, UnsourcedRule, Backed;
    AllowedFlatMap(ctx.claims, UnsourcedRule(ctx));
    forall i | 0 <= i < |ctx.claims| ensures ApprovalAllowed(UnsourcedRule(ctx)(ctx.claims[i])) <==> !IsUnsourced(ctx, ctx.claims[i]) {
      ClaimAllowed(ctx, ctx.claims[i]);
    }
  }

  lemma ClaimAllowed(ctx: Context, c: Claim)
    ensures ApprovalAllowed(UnsourcedRule(ctx)(c)) <==> !IsUnsourced(ctx, c)
  {
    hide IsUnsourced;
    assert IsUnsourced(ctx, c) ==> IsBlocking(UnsourcedRule(ctx)(c)[0]);
  }

  lemma CitationsAllowed(ctx: Context)
    ensures ApprovalAllowed(FlatMap(Issues(ctx), CitationRule())) <==> R.GoodCitations(ctx.citationIds, set s | s in ctx.sources :: s.id)
  {
    AllowedFlatMap(Issues(ctx), CitationRule());
    R.NoIssuesIff(ctx.citationIds, IndexOf(ctx).sources.Keys);
    assert IndexOf(ctx).sources.Keys == set s | s in ctx.sources :: s.id;
    hide FlatMap, R.GoodCitations, R.IssuesUpTo, IndexOf;
    var issues := Issues(ctx);
    forall i | 0 <= i < |issues| ensures !ApprovalAllowed(CitationRule()(issues[i])) {
      assert IsBlocking(CitationRule()(issues[i])[0]);
    }
  }

  lemma ConflictsAllowed(ctx: Context)
    ensures ApprovalAllowed(FlatMap(ctx.conflicts, ConflictRule())) <==> forall i :: 0 <= i < |ctx.conflicts| ==> ctx.conflicts[i].resolved
  {
    hide ApprovalAllowed, FlatMap, ConflictRule;
    AllowedFlatMap(ctx.conflicts, ConflictRule());
    forall i | 0 <= i < |ctx.conflicts| ensures ApprovalAllowed(ConflictRule()(ctx.conflicts[i])) <==> ctx.conflicts[i].resolved {
      ConflictAllowed(ctx.conflicts[i]);
    }
  }

  lemma ConflictAllowed(c: Conflict)
    ensures ApprovalAllowed(ConflictRule()(c)) <==> c.resolved
  {
    assert !c.resolved ==> IsBlocking(ConflictRule()(c)[0]);
  }

  lemma ContestsAllowed(ctx: Context)
    ensures ApprovalAllowed(FlatMap(ctx.claims, ContestedRule(ctx))) <==>
      forall i :: 0 <= i < |ctx.claims| && IsContested(ctx, |ctx.claims|, ctx.claims[i].id) ==>
                    IsRecorded(ctx, |ctx.conflicts|, ctx.claims[i].id)
  {
    hide ApprovalAllowed, FlatMap, ContestedRule, IsContested, IsRecorded;
    AllowedFlatMap(ctx.claims, ContestedRule(ctx));
    forall i | 0 <= i < |ctx.claims| ensures ApprovalAllowed(ContestedRule(ctx)(ctx.claims[i])) <==> !IsOpenContest(ctx, ctx.claims[i]) {
      ContestAllowed(ctx, ctx.claims[i]);
    }
  }

  lemma ContestAllowed(ctx: Context, c: Claim)
    ensures ApprovalAllowed(ContestedRule(ctx)(c)) <==> !IsOpenContest(ctx, c)
  {
    hide IsOpenContest;
    assert IsOpenContest(ctx, c) ==> IsBlocking(ContestedRule(ctx)(c)[0]);
  }

  lemma StatementsAllowed(statements: seq<Statement>)
    ensures ApprovalAllowed(FlatMap(statements, StatementRule()))
  {
    AllowedFlatMap(statements, StatementRule());
  }

  lemma QuantityAllowed(ctx: Context, q: Quantity)
    ensures ApprovalAllowed(QuantityRule(ctx)(q)) <==> IsNumberBacked(ctx, q) && q.valueMatches != Some(false)
  {
    hide IsNumberBacked;
    var fs := QuantityRule(ctx)(q);
    assert !IsNumberBacked(ctx, q) ==> IsBlocking(fs[0]);
    assert q.valueMatches == Some(false) ==> IsBlocking(fs[|fs| - 1]);
  }

  lemma QuantitiesAllowed(ctx: Context)
    ensures ApprovalAllowed(FlatMap(ctx.quantities, QuantityRule(ctx))) <==>
      forall i :: 0 <= i < |ctx.quantities| ==> IsNumberBacked(ctx, ctx.quantities[i]) && ctx.quantities[i].valueMatches != Some(false)
  {
    hide ApprovalAllowed, FlatMap, QuantityRule, IsNumberBacked;
    AllowedFlatMap(ctx.quantities, QuantityRule(ctx));
    forall i | 0 <= i < |ctx.quantities|
      ensures ApprovalAllowed(QuantityRule(ctx)(ctx.quantities[i])) <==> IsNumberBacked(ctx, ctx.quantities[i]) && ctx.quantities[i].valueMatches != Some(false)
    {
      QuantityAllowed(ctx, ctx.quantities[i]);
    }
  }

  lemma UnreferencedAllowed(ctx: Context)
    ensures ApprovalAllowed(FlatMap(ctx.sources, UnreferencedRule(ctx)))
  {
    hide Cited, FlatMap;
    AllowedFlatMap(ctx.sources, UnreferencedRule(ctx));
  }

  lemma GapsAllowed(gaps: seq<Gap>)
    ensures ApprovalAllowed(FlatMap(gaps, GapRule())) <==> forall i :: 0 <= i < |gaps| ==> gaps[i].status != Open
  {
    hide ApprovalAllowed, FlatMap, GapRule;
    AllowedFlatMap(gaps, GapRule());
    forall i | 0 <= i < |gaps| ensures ApprovalAllowed(GapRule()(gaps[i])) <==> gaps[i].status != Open {
      GapAllowed(gaps[i]);
    }
  }

  lemma GapAllowed(g: Gap)
    ensures ApprovalAllowed(GapRule()(g)) <==> g.status != Open
  {
    assert g.status == Open ==> IsBlocking(GapRule()(g)[0]);
  }

  lemma SectionsAllowed(sections: seq<Section>)
    ensures ApprovalAllowed(FlatMap(sections, SectionRule())) <==>
      forall i :: 0 <= i < |sections| && sections[i].required ==> exists c :: c in sections[i].content && !IsSpace(c)
  {
    hide ApprovalAllowed, FlatMap, SectionRule, IsSpace, Trim;
    AllowedFlatMap(sections, SectionRule());
    forall i | 0 <= i < |sections|
      ensures ApprovalAllowed(SectionRule()(sections[i])) <==> sections[i].required ==> exists c :: c in sections[i].content && !IsSpace(c)
    {
      SectionAllowed(sections[i]);
      assert |Trim(sections[i].content)| == 0 <==> Trim(sections[i].content) == [];
    }
  }

  lemma SectionAllowed(s: Section)
    ensures ApprovalAllowed(SectionRule()(s)) <==> !IsEmptyRequired(s)
  {
    assert IsEmptyRequired(s) ==> IsBlocking(SectionRule()(s)[0]);
  }

  lemma {:induction false} MarkedAllowed(sources: seq<Source>, n: nat)
    requires n <= |sources|
    ensures ApprovalAllowed(MarkedFindings(sources, n))
  {
    hide ApprovalAllowed, IsMarked, Duplicate;
    AllowedEmpty();
    if n > 0 {
      MarkedAllowed(sources, n - 1);
      DuplicateAllowed(sources[n - 1]);
      var added := if IsMarked(sources[n - 1]) then [Duplicate(sources[n - 1])] else [];
      AllowedAppend(MarkedFindings(sources, n - 1), added);
    }
  }

  lemma {:induction false} HashesAllowed(sources: seq<Source>, n: nat)
    requires n <= |sources|
    ensures ApprovalAllowed(HashFindings(sources, n))
  {
    hide ApprovalAllowed, IsReported, Duplicate;
    AllowedEmpty();
    if n > 0 {
      HashesAllowed(sources, n - 1);
      DuplicateAllowed(sources[n - 1]);
      var added := if IsReported(sources, n - 1) then [Duplicate(sources[n - 1])] else [];
      AllowedAppend(HashFindings(sources, n - 1), added);
    }
  }

  lemma DuplicateAllowed(s: Source)
    ensures ApprovalAllowed([Duplicate(s)])
  {
  }

  lemma OutdatedAllowed(ctx: Context)
    ensures ApprovalAllowed(FlatMap(Cited(ctx), OutdatedRule(ctx)))
  {
    hide Cited, IsOutdated, FlatMap;
    AllowedFlatMap(Cited(ctx), OutdatedRule(ctx));
  }

  lemma ConcentrationAllowed(ps: seq<string>)
    ensures ApprovalAllowed(ConcentrationFindings(ps))
  {
    hide Distinct, FlatMap;
    AllowedFlatMap(Distinct(ps), ConcentrationRule(ps));
  }

  lemma SourcesAllowed(ctx: Context)
    ensures ApprovalAllowed(SourceFindings(ctx))
  {
    hide FlatMap, OutdatedRule, MarkedFindings, HashFindings, ConcentrationFindings, CitedPublishers, Cited, ApprovalAllowed;
    OutdatedAllowed(ctx);
    MarkedAllowed(ctx.sources, |ctx.sources|);
    HashesAllowed(ctx.sources, |ctx.sources|);
    ConcentrationAllowed(CitedPublishers(ctx));
    AllowedAppend(MarkedFindings(ctx.sources, |ctx.sources|), HashFindings(ctx.sources, |ctx.sources|));
    AllowedAppend(FlatMap(Cited(ctx), OutdatedRule(ctx)), DuplicateFindings(ctx.sources));
    AllowedAppend(FlatMap(Cited(ctx), OutdatedRule(ctx)) + DuplicateFindings(ctx.sources), ConcentrationFindings(CitedPublishers(ctx)));
  }

  lemma Allowed7(a: seq<Finding>, b: seq<Finding>, c: seq<Finding>, d: seq<Finding>, e: seq<Finding>, f: seq<Finding>, g: seq<Finding>)
    ensures ApprovalAllowed(a + b + c + d + e + f + g) <==>
      && ApprovalAllowed(a) && ApprovalAllowed(b) && ApprovalAllowed(c) && ApprovalAllowed(d)
      && ApprovalAllowed(e) && ApprovalAllowed(f) && ApprovalAllowed(g)
  {
    AllowedAppend(a, b);
    AllowedAppend(a + b, c);
    AllowedAppend(a + b + c, d);
    AllowedAppend(a + b + c + d, e);
    AllowedAppend(a + b + c + d + e, f);
    AllowedAppend(a + b + c + d + e + f, g);
    hide ApprovalAllowed;
  }

  lemma LateAllowed(ctx: Context)
    ensures ApprovalAllowed(LateFindings(ctx)) <==>
      && (forall i :: 0 <= i < |ctx.conflicts| ==> ctx.conflicts[i].resolved)
      && (forall i :: 0 <= i < |ctx.claims| && IsContested(ctx, |ctx.claims|, ctx.claims[i].id) ==>
            IsRecorded(ctx, |ctx.conflicts|, ctx.claims[i].id))
      && (forall i :: 0 <= i < |ctx.quantities| ==> IsNumberBacked(ctx, ctx.quantities[i]) && ctx.quantities[i].valueMatches != Some(false))
      && (forall i :: 0 <= i < |ctx.gaps| ==> ctx.gaps[i].status != Open)
      && (forall i :: 0 <= i < |ctx.sections| && ctx.sections[i].required ==> exists c :: c in ctx.sections[i].content && !IsSpace(c))
  {
    hide FlatMap, ApprovalAllowed, ConflictRule, ContestedRule, StatementRule, QuantityRule, UnreferencedRule, GapRule, SectionRule,
         IsContested, IsRecorded, IsNumberBacked, IsSpace;
    ConflictsAllowed(ctx);
    ContestsAllowed(ctx);
    StatementsAllowed(ctx.statements);
    QuantitiesAllowed(ctx);
    UnreferencedAllowed(ctx);
    GapsAllowed(ctx.gaps);
    SectionsAllowed(ctx.sections);
    Allowed7(FlatMap(ctx.conflicts, ConflictRule()), FlatMap(ctx.claims, ContestedRule(ctx)), FlatMap(ctx.statements, StatementRule()),
             FlatMap(ctx.quantities, QuantityRule(ctx)), FlatMap(ctx.sources, UnreferencedRule(ctx)), FlatMap(ctx.gaps, GapRule()),
             FlatMap(ctx.sections, SectionRule()));
  }

  /** Approval is allowed exactly for a report that satisfies the declared conditions. */
  lemma ApprovalIff(ctx: Context)
    ensures ApprovalAllowed(AllFindings(ctx)) <==> Approvable(ctx)
  {
    ClaimsAllowed(ctx);
    CitationsAllowed(ctx);
    SourcesAllowed(ctx);
    LateAllowed(ctx);
    var claims, citations := FlatMap(ctx.claims, UnsourcedRule(ctx)), FlatMap(Issues(ctx), CitationRule());
    AllowedAppend(claims, citations);
    AllowedAppend(claims + citations, SourceFindings(ctx));
    AllowedAppend(claims + citations + SourceFindings(ctx), LateFindings(ctx));
    hide FlatMap, SourceFindings, LateFindings, Backed, R.GoodCitations, IsContested, IsRecorded, IsNumberBacked, IsSpace, ApprovalAllowed, Issues;
  }

  // ---------------------------------------------------------------- sources in the whole run

  lemma NotFromRule<A>(xs: seq<A>, f: A -> seq<Finding>, y: Finding)
    requires forall i :: 0 <= i < |xs| ==> y !in f(xs[i])
    ensures multiset(FlatMap(xs, f))[y] == 0
  {
    FlatMapMember(xs, f, y);
    hide FlatMap;
    assert y !in FlatMap(xs, f);
  }

  lemma NoLateDuplicates(ctx: Context, y: Finding)
    requires y.rule == DuplicateSource
    ensures multiset(LateFindings(ctx))[y] == 0
  {
    hide FlatMap, IsContested, IsRecorded, IsNumberBacked, Cited, IsEmptyRequired;
    NotFromRule(ctx.conflicts, ConflictRule(), y);
    NotFromRule(ctx.claims, ContestedRule(ctx), y);
    NotFromRule(ctx.statements, StatementRule(), y);
    NotFromRule(ctx.quantities, QuantityRule(ctx), y);
    NotFromRule(ctx.sources, UnreferencedRule(ctx), y);
    NotFromRule(ctx.gaps, GapRule(), y);
    NotFromRule(ctx.sections, SectionRule(), y);
  }

  /** In the whole run only the two duplicate rules report duplicates. */
  lemma DuplicatesOfRun(ctx: Context, y: Finding)
    requires y.rule == DuplicateSource
    ensures Occurrences(AllFindings(ctx), y) == Occurrences(DuplicateFindings(ctx.sources), y)
  {
    hide FlatMap, IsUnsourced, IsOutdated, Cited, Issues, Publishers, Distinct, DuplicateFindings, LateFindings;
    NotFromRule(ctx.claims, UnsourcedRule(ctx), y);
    NotFromRule(Issues(ctx), CitationRule(), y);
    NotFromRule(Cited(ctx), OutdatedRule(ctx), y);
    var ps := CitedPublishers(ctx);
    NotFromRule(Distinct(ps), ConcentrationRule(ps), y);
    NoLateDuplicates(ctx, y);
  }

  /** With unique source ids, the run reports a source as a duplicate exactly once if it is one, and otherwise never. */
  lemma RunReportsDuplicatesOnce(ctx: Context, k: nat)
    requires UniqueIds(ctx.sources) && k < |ctx.sources|
    ensures Occurrences(AllFindings(ctx), Duplicate(ctx.sources[k])) == One(IsMarked(ctx.sources[k]) || RepeatsHash(ctx.sources, k))
  {
    DuplicatesOfRun(ctx, Duplicate(ctx.sources[k]));
    DuplicateExactlyOnce(ctx.sources, k);
  }
}
