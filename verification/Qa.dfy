/** The QA rules of a report, and when they allow approval. */
module Qa {
  import opened Prelude
  import R = Research

  datatype Source = Source(
    id: string, publisher: Option<string>, publishedAt: Option<R.DateInput>, contentHash: Option<string>, duplicateOf: Option<string>)

  datatype Evidence = Evidence(id: string, sourceId: string, verification: R.Verification)

  datatype Link = Link(claimId: string, evidenceId: string, relationship: R.Relationship, extent: Option<R.Extent>)

  datatype Importance = Critical | High | Medium | Low

  datatype Claim = Claim(id: string, importance: Importance, includeInReport: bool, verificationPossible: Option<bool>)

  datatype Conflict = Conflict(id: string, claimId: Option<string>, resolved: bool)

  datatype Statement = Statement(id: string, mixed: bool, withinScope: bool)

  datatype Quantity = Quantity(
    id: string, evidenceId: Option<string>, dateMatches: Option<bool>, unitMatches: Option<bool>, valueMatches: Option<bool>)

  datatype Section = Section(id: string, required: bool, content: string)

  datatype GapStatus = NoGap | Open | AcceptedGap | ResolvedGap

  datatype Gap = Gap(id: string, status: GapStatus)

  datatype Context = Context(
    researchDate: R.DateInput, sourceMaxAgeDays: int, sources: seq<Source>, evidence: seq<Evidence>, claims: seq<Claim>,
    links: seq<Link>, conflicts: seq<Conflict>, gaps: seq<Gap>, citationIds: seq<R.Value>,
    sections: seq<Section>, statements: seq<Statement>, quantities: seq<Quantity>)

  datatype Severity = Blocker | HighSeverity | MediumSeverity | LowSeverity

  datatype Rule =
    | UnsourcedKeyClaim | InvalidCitationId | OutdatedSource | DuplicateSource | SourceConcentration
    | UnresolvedSourceConflict | FactInferenceMix | UnsupportedNumber | DateOrUnitMismatch | OutOfScopeContent
    | UnreferencedSource | SourceNumberMismatch | OpenResearchGap | EmptyRequiredSection

  function SeverityOf(r: Rule): Severity
  {
    match r
    case UnsourcedKeyClaim => Blocker
    case InvalidCitationId => Blocker
    case UnresolvedSourceConflict => Blocker
    case UnsupportedNumber => Blocker
    case SourceNumberMismatch => Blocker
    case OpenResearchGap => Blocker
    case EmptyRequiredSection => Blocker
    case DuplicateSource => MediumSeverity
    case UnreferencedSource => LowSeverity
    case _ => HighSeverity
  }

  /** What a finding is about. */
  datatype Subject = Entity(id: string) | Citation(issue: R.Issue) | ContestedClaim(claimId: string)

  datatype Resolution = OpenFinding | ResolvedFinding | AcceptedRisk

  datatype Finding = Finding(rule: Rule, subject: Subject, severity: Severity, resolution: Resolution)

  function Found(rule: Rule, subject: Subject): (f: Finding)
    ensures IsBlocking(f) <==> SeverityOf(rule) == Blocker
  {
    Finding(rule, subject, SeverityOf(rule), OpenFinding)
  }

  predicate IsBlocking(f: Finding)
  {
    f.severity == Blocker && f.resolution != ResolvedFinding
  }

  predicate ApprovalAllowed(findings: seq<Finding>)
  {
    forall i :: 0 <= i < |findings| ==> !IsBlocking(findings[i])
  }

  // ---------------------------------------------------------------- lookups

  /** The two lookup tables; of several records with one id the last is found. */
  datatype Index = Index(sources: map<string, Source>, evidence: map<string, Evidence>)

  function SourcesById(sources: seq<Source>): (m: map<string, Source>)
    ensures forall id :: id in m <==> exists i :: 0 <= i < |sources| && sources[i].id == id
    ensures forall id :: id in m ==> m[id].id == id && m[id] in sources
  {
    if sources == [] then map[]
    else
      var n := |sources| - 1;
      var m := SourcesById(sources[..n])[sources[n].id := sources[n]];
      assert forall i :: 0 <= i < n ==> sources[..n][i] == sources[i];
      m
  }

  function EvidenceById(evidence: seq<Evidence>): (m: map<string, Evidence>)
  {
    if evidence == [] then map[]
    else
      var n := |evidence| - 1;
      EvidenceById(evidence[..n])[evidence[n].id := evidence[n]]
  }

  lemma LastOfPrefix(evidence: seq<Evidence>, e: Evidence)
    requires evidence != [] && IsLastEvidence(evidence[..|evidence| - 1], e) && e.id != evidence[|evidence| - 1].id
    ensures IsLastEvidence(evidence, e)
  {
    var n := |evidence| - 1;
    var i :| 0 <= i < n && evidence[..n][i] == e && forall j :: i < j < n ==> evidence[..n][j].id != e.id;
    forall j | i < j < |evidence| ensures evidence[j].id != e.id {
      assert j < n ==> evidence[..n][j] == evidence[j];
    }
    assert evidence[i] == e;
  }

  /** A lookup finds the last record with the id, if there is one. */
  lemma {:induction false} EvidenceFound(evidence: seq<Evidence>, id: string)
    ensures id in EvidenceById(evidence) <==> exists i :: 0 <= i < |evidence| && evidence[i].id == id
    ensures id in EvidenceById(evidence) ==> IsLastEvidence(evidence, EvidenceById(evidence)[id]) && EvidenceById(evidence)[id].id == id
  {
    if evidence != [] {
      var n := |evidence| - 1;
      var shorter := evidence[..n];
      EvidenceFound(shorter, id);
      if id == evidence[n].id {
        assert IsLastEvidence(evidence, evidence[n]);
      } else {
        hide IsLastEvidence;
        if i :| 0 <= i < |evidence| && evidence[i].id == id {
          assert shorter[i] == evidence[i];
        }
        if id in EvidenceById(shorter) {
          var i :| 0 <= i < n && shorter[i].id == id;
          assert evidence[i].id == id;
          LastOfPrefix(evidence, EvidenceById(shorter)[id]);
        }
      }
    }
  }

  ghost predicate IsLastEvidence(evidence: seq<Evidence>, e: Evidence)
  {
    exists i :: 0 <= i < |evidence| && evidence[i] == e && forall j :: i < j < |evidence| ==> evidence[j].id != e.id
  }

  lemma LastEvidenceUnique(evidence: seq<Evidence>, a: Evidence, b: Evidence)
    requires IsLastEvidence(evidence, a) && IsLastEvidence(evidence, b) && a.id == b.id
    ensures a == b
  {
  }

  function IndexOf(ctx: Context): (ix: Index)
  {
    Index(SourcesById(ctx.sources), EvidenceById(ctx.evidence))
  }

  predicate Resolves(ix: Index, l: Link)
  {
    l.evidenceId in ix.evidence && ix.evidence[l.evidenceId].sourceId in ix.sources
  }

  predicate Verifies(ix: Index, l: Link, r: R.Relationship)
  {
    Resolves(ix, l) && l.relationship == r && ix.evidence[l.evidenceId].verification == R.Verified
  }

  ghost predicate AnyVerifies(ix: Index, links: seq<Link>, r: R.Relationship)
  {
    exists l :: l in links && Verifies(ix, l, r)
  }

  /** Evidence that exists under this id and is verified. */
  ghost predicate IsVerifiedEvidence(ctx: Context, e: Evidence)
  {
    IsLastEvidence(ctx.evidence, e) && e.verification == R.Verified
  }

  ghost predicate HasSource(ctx: Context, id: string)
  {
    exists i :: 0 <= i < |ctx.sources| && ctx.sources[i].id == id
  }

  /** Some link of the claim has that relationship, through verified evidence and an existing source. */
  ghost predicate Backed(ctx: Context, claimId: string, r: R.Relationship)
  {
    exists l, e :: && l in ctx.links && l.claimId == claimId && l.relationship == r
                   && IsVerifiedEvidence(ctx, e) && e.id == l.evidenceId && HasSource(ctx, e.sourceId)
  }

  lemma IndexFindsLast(ctx: Context, e: Evidence)
    requires IsLastEvidence(ctx.evidence, e)
    ensures e.id in IndexOf(ctx).evidence && IndexOf(ctx).evidence[e.id] == e
  {
    var i :| 0 <= i < |ctx.evidence| && ctx.evidence[i] == e && forall j :: i < j < |ctx.evidence| ==> ctx.evidence[j].id != e.id;
    EvidenceFound(ctx.evidence, e.id);
    LastEvidenceUnique(ctx.evidence, e, EvidenceById(ctx.evidence)[e.id]);
  }

  /** What the lookup tables compute. */
  lemma BackedByIndex(ctx: Context, claimId: string, r: R.Relationship)
    ensures Backed(ctx, claimId, r) <==> AnyVerifies(IndexOf(ctx), LinksOf(ctx.links, claimId), r)
  {
    var ix := IndexOf(ctx);
    if Backed(ctx, claimId, r) {
      var l, e :| && l in ctx.links && l.claimId == claimId && l.relationship == r
                  && IsVerifiedEvidence(ctx, e) && e.id == l.evidenceId && HasSource(ctx, e.sourceId);
      IndexFindsLast(ctx, e);
      assert Verifies(ix, l, r) && l in LinksOf(ctx.links, claimId);
    }
    if AnyVerifies(ix, LinksOf(ctx.links, claimId), r) {
      var l :| l in LinksOf(ctx.links, claimId) && Verifies(ix, l, r);
      var e := ix.evidence[l.evidenceId];
      EvidenceFound(ctx.evidence, l.evidenceId);
      assert IsVerifiedEvidence(ctx, e) && e.id == l.evidenceId && HasSource(ctx, e.sourceId);
    }
  }

  function Freshness(ctx: Context, s: Source): (r: Result<R.Freshness, R.DomainError>)
  {
    R.AssessFreshness(s.publishedAt, ctx.researchDate, ctx.sourceMaxAgeDays)
  }

  // ---------------------------------------------------------------- key claims

  ghost predicate IsUnsourced(ctx: Context, c: Claim)
  {
    c.includeInReport && c.importance in {Critical, High} && !Backed(ctx, c.id, R.Supports)
  }

  ghost function UnsourcedRule(ctx: Context): Claim -> seq<Finding>
  {
    (c: Claim) => if IsUnsourced(ctx, c) then [Found(UnsourcedKeyClaim, Entity(c.id))] else []
  }

  predicate Possible(c: Claim)
  {
    c.verificationPossible != Some(false)
  }

  ghost predicate IsLastClaim(ctx: Context, n: nat, k: nat)
    requires k < n <= |ctx.claims|
  {
    forall j :: k < j < n ==> ctx.claims[j].id != ctx.claims[k].id
  }

  ghost predicate LatestPossible(ctx: Context, n: nat, id: string)
    requires n <= |ctx.claims|
  {
    exists k :: 0 <= k < n && IsLastClaim(ctx, n, k) && ctx.claims[k].id == id && Possible(ctx.claims[k])
  }

  lemma LatestNext(ctx: Context, i: nat, id: string)
    requires i < |ctx.claims|
    ensures LatestPossible(ctx, i + 1, id) <==> if id == ctx.claims[i].id then Possible(ctx.claims[i]) else LatestPossible(ctx, i, id)
  {
    assert IsLastClaim(ctx, i + 1, i);
    if LatestPossible(ctx, i + 1, id) {
      var k :| 0 <= k < i + 1 && IsLastClaim(ctx, i + 1, k) && ctx.claims[k].id == id && Possible(ctx.claims[k]);
      assert k < i ==> IsLastClaim(ctx, i, k) && ctx.claims[k].id != ctx.claims[i].id;
    }
    if LatestPossible(ctx, i, id) && id != ctx.claims[i].id {
      var k :| 0 <= k < i && IsLastClaim(ctx, i, k) && ctx.claims[k].id == id && Possible(ctx.claims[k]);
      assert IsLastClaim(ctx, i + 1, k);
    }
  }

  /** Of the first `n` claims, the last with this id can be verified and is both supported and refuted. */
  ghost predicate IsContested(ctx: Context, n: nat, id: string)
    requires n <= |ctx.claims|
  {
    LatestPossible(ctx, n, id) && Backed(ctx, id, R.Supports) && Backed(ctx, id, R.Refutes)
  }

  function LinksOf(links: seq<Link>, claimId: string): (r: seq<Link>)
    ensures forall l :: l in r <==> l in links && l.claimId == claimId
  {
    if links == [] then []
    else
      var n := |links| - 1;
      LinksOf(links[..n], claimId) + (if links[n].claimId == claimId then [links[n]] else [])
  }

  lemma LinksNext(links: seq<Link>, i: nat)
    requires i < |links|
    ensures forall id :: LinksOf(links[..i + 1], id) == LinksOf(links[..i], id) + (if links[i].claimId == id then [links[i]] else [])
  {
    assert links[..i + 1][..i] == links[..i];
  }

  method GroupLinks(links: seq<Link>) returns (byClaim: map<string, seq<Link>>)
    ensures forall id :: (if id in byClaim then byClaim[id] else []) == LinksOf(links, id)
  {
    byClaim := map[];
    assert forall id :: LinksOf(links[..0], id) == [];
    hide LinksOf;
    for i := 0 to |links|
      invariant forall id :: (if id in byClaim then byClaim[id] else []) == LinksOf(links[..i], id)
    {
      var link := links[i];
      var group := if link.claimId in byClaim then byClaim[link.claimId] else [];
      LinksNext(links, i);
      byClaim := byClaim[link.claimId := group + [link]];
    }
    assert links[..|links|] == links;
  }

  /** The assessments of one claim; a source whose freshness cannot be assessed ends the run. */
  method Assess(ctx: Context, ix: Index, links: seq<Link>) returns (r: Result<seq<R.Assessment>, R.DomainError>)
    requires ix == IndexOf(ctx)
    ensures r.Failure? <==> exists l :: l in links && Resolves(ix, l) && Freshness(ctx, ix.sources[ix.evidence[l.evidenceId].sourceId]).Failure?
    ensures r.Success? ==> forall rel :: R.AnyCounts(r.value, rel) <==> AnyVerifies(ix, links, rel)
  {
    var assessments: seq<R.Assessment> := [];
    hide IndexOf, R.AssessFreshness;
    for i := 0 to |links|
      invariant forall l :: l in links[..i] && Resolves(ix, l) ==> Freshness(ctx, ix.sources[ix.evidence[l.evidenceId].sourceId]).Success?
      invariant forall rel :: R.AnyCounts(assessments, rel) <==> AnyVerifies(ix, links[..i], rel)
    {
      var link := links[i];
      ghost var before := assessments;
      assert links[..i + 1] == links[..i] + [link];
      if Resolves(ix, link) {
        var evidence := ix.evidence[link.evidenceId];
        var freshness := Freshness(ctx, ix.sources[evidence.sourceId]);
        if freshness.Failure? {
          assert link in links;
          return Failure(freshness.error);
        }
        var a := R.Assessment(link.relationship, evidence.verification, freshness.value, link.extent);
        assessments := assessments + [a];
        assert forall rel :: R.Counts(a, rel) <==> Verifies(ix, link, rel);
      }
      AppendedCounts(before, assessments, links[..i], links[..i + 1], ix);
    }
    assert links[..|links|] == links;
    r := Success(assessments);
  }

  lemma AppendedCounts(before: seq<R.Assessment>, after: seq<R.Assessment>, links: seq<Link>, longer: seq<Link>, ix: Index)
    requires forall rel :: R.AnyCounts(before, rel) <==> AnyVerifies(ix, links, rel)
    requires |longer| > 0 && longer == links + [longer[|longer| - 1]]
    requires var link := longer[|longer| - 1];
      if Resolves(ix, link) then |after| > 0 && after == before + [after[|after| - 1]] && forall rel :: R.Counts(after[|after| - 1], rel) <==> Verifies(ix, link, rel)
      else after == before
    ensures forall rel :: R.AnyCounts(after, rel) <==> AnyVerifies(ix, longer, rel)
  {
    var link := longer[|longer| - 1];
    forall rel ensures R.AnyCounts(after, rel) <==> AnyVerifies(ix, longer, rel) {
      assert R.AnyCounts(before, rel) <==> AnyVerifies(ix, links, rel);
      assert AnyVerifies(ix, longer, rel) <==> AnyVerifies(ix, links, rel) || Verifies(ix, link, rel) by {
        assert link in longer && forall l :: l in longer <==> l in links || l == link;
      }
      if Resolves(ix, link) {
        var last := after[|after| - 1];
        assert forall a :: a in after <==> a in before || a == last;
        assert R.AnyCounts(after, rel) <==> R.AnyCounts(before, rel) || R.Counts(last, rel);
      }
    }
  }

  /** The claim has a link to a source whose freshness cannot be assessed. */
  ghost predicate IsUndatable(ctx: Context, claimId: string)
  {
    exists l :: && l in LinksOf(ctx.links, claimId) && Resolves(IndexOf(ctx), l)
                && Freshness(ctx, IndexOf(ctx).sources[IndexOf(ctx).evidence[l.evidenceId].sourceId]).Failure?
  }

  ghost predicate Datable(ctx: Context, n: nat)
    requires n <= |ctx.claims|
  {
    forall i :: 0 <= i < n ==> !IsUndatable(ctx, ctx.claims[i].id)
  }

  method CheckClaims(ctx: Context, ix: Index) returns (r: Result<(seq<Finding>, map<string, R.Support>), R.DomainError>)
    requires ix == IndexOf(ctx)
    ensures r.Success? <==> Datable(ctx, |ctx.claims|)
    ensures r.Success? ==> r.value.0 == FlatMap(ctx.claims, UnsourcedRule(ctx))
    ensures r.Success? ==> forall id :: (id in r.value.1 && r.value.1[id] == R.Contested) <==> IsContested(ctx, |ctx.claims|, id)
  {
    var byClaim := GroupLinks(ctx.links);
    var findings: seq<Finding> := [];
    var support: map<string, R.Support> := map[];
    hide IndexOf, Freshness, Resolves, Verifies, Backed, FlatMap, Found, LinksOf;
    assert FlatMap(ctx.claims[..0], UnsourcedRule(ctx)) == [] by {
      EmptyFlatMap(ctx.claims[..0], UnsourcedRule(ctx));
    }
    for i := 0 to |ctx.claims|
      invariant Datable(ctx, i)
      invariant findings == FlatMap(ctx.claims[..i], UnsourcedRule(ctx))
      invariant forall id :: (id in support && support[id] == R.Contested) <==> IsContested(ctx, i, id)
    {
      var claim := ctx.claims[i];
      var links := if claim.id in byClaim then byClaim[claim.id] else [];
      assert links == LinksOf(ctx.links, claim.id);
      var assessed := Assess(ctx, ix, links);
      if assessed.Failure? {
        assert IsUndatable(ctx, claim.id);
        return Failure(assessed.error);
      }
      BackedByIndex(ctx, claim.id, R.Supports);
      BackedByIndex(ctx, claim.id, R.Refutes);
      var assessments := assessed.value;
      assert R.AnyCounts(assessments, R.Supports) <==> AnyVerifies(ix, links, R.Supports);
      assert R.AnyCounts(assessments, R.Refutes) <==> AnyVerifies(ix, links, R.Refutes);
      var status := R.ClaimSupport(assessments, Possible(claim));
      ContestedNext(ctx, i);
      support := support[claim.id := status];
      FlatMapNext(ctx.claims, i, UnsourcedRule(ctx));
      var hasVerifiedSupport := exists a :: a in assessments && R.Counts(a, R.Supports);
      if claim.includeInReport && claim.importance in {Critical, High} && !hasVerifiedSupport {
        findings := findings + [Found(UnsourcedKeyClaim, Entity(claim.id))];
      }
    }
    assert ctx.claims[..|ctx.claims|] == ctx.claims;
    r := Success((findings, support));
  }

  /** How one more claim changes which ids are contested. */
  lemma ContestedNext(ctx: Context, i: nat)
    requires i < |ctx.claims|
    ensures forall id :: IsContested(ctx, i + 1, id) <==>
      if id == ctx.claims[i].id then Possible(ctx.claims[i]) && Backed(ctx, id, R.Supports) && Backed(ctx, id, R.Refutes)
      else IsContested(ctx, i, id)
  {
    hide Backed, LatestPossible;
    forall id
      ensures IsContested(ctx, i + 1, id) <==>
        if id == ctx.claims[i].id then Possible(ctx.claims[i]) && Backed(ctx, id, R.Supports) && Backed(ctx, id, R.Refutes)
        else IsContested(ctx, i, id)
    {
      LatestNext(ctx, i, id);
    }
  }
}
