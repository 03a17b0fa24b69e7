/** What the QA run reports, rule by rule, said of the context alone. */
module QaMeaning {
  import opened Prelude
  import opened Text
  import opened Qa
  import opened QaSources
  import opened QaApproval
  import R = Research

  // ---------------------------------------------------------------- what a finding says

  /** Of several records with one id the last stands for it. */
  ghost predicate IsLastSource(ctx: Context, s: Source)
  {
    IsLastOf(ctx.sources, s)
  }

  ghost predicate IsLastOf(sources: seq<Source>, s: Source)
  {
    exists i :: 0 <= i < |sources| && sources[i] == s && forall j :: i < j < |sources| ==> sources[j].id != s.id
  }

  /** The report cites the source by a well-formed id. */
  ghost predicate IsCitedId(ctx: Context, id: string)
  {
    R.Text(id) in ctx.citationIds && R.IsCitationId(R.Text(id)) && exists s :: s in ctx.sources && s.id == id
  }

  ghost predicate IsOld(ctx: Context, s: Source)
  {
    R.Age(s.publishedAt, ctx.researchDate).Some? && R.Age(s.publishedAt, ctx.researchDate).value > ctx.sourceMaxAgeDays
  }

  /** Marked as a duplicate, or with the content hash of an earlier source, white space around it aside. */
  ghost predicate IsDuplicate(sources: seq<Source>, k: nat)
    requires k < |sources|
  {
    || (sources[k].duplicateOf.Some? && sources[k].duplicateOf.value != "")
    || exists j :: 0 <= j < k && SameHash(sources[j], sources[k])
  }

  ghost predicate SameHash(a: Source, b: Source)
  {
    && a.contentHash.Some? && b.contentHash.Some?
    && Trim(a.contentHash.value) == Trim(b.contentHash.value) && Trim(b.contentHash.value) != ""
  }

  ghost predicate IsPublishedBy(ctx: Context, id: string, publisher: string)
  {
    && IsCitedId(ctx, id) && publisher != ""
    && exists s :: IsLastSource(ctx, s) && s.id == id && s.publisher.Some? && Trim(s.publisher.value) == publisher
  }

  ghost predicate NamesPublisher(ctx: Context, id: string)
  {
    exists p :: IsPublishedBy(ctx, id, p)
  }

  /** The cited sources that name a publisher. */
  ghost predicate AreNamed(ctx: Context, named: set<string>)
  {
    forall id :: id in named <==> NamesPublisher(ctx, id)
  }

  /** The cited sources that name this publisher. */
  ghost predicate AreOwn(ctx: Context, publisher: string, own: set<string>)
  {
    forall id :: id in own <==> IsPublishedBy(ctx, id, publisher)
  }

  /** Of the cited sources that name a publisher, at least three, more than half name this one. */
  ghost predicate Dominates(ctx: Context, publisher: string)
  {
    exists named, own :: AreNamed(ctx, named) && AreOwn(ctx, publisher, own) && |named| >= 3 && 2 * |own| > |named|
  }

  ghost predicate HasConflict(ctx: Context, claimId: string)
  {
    claimId != "" && exists k :: k in ctx.conflicts && k.claimId == Some(claimId)
  }

  /** The citation at the position of the issue is not well formed, repeats an earlier one, or names no source. */
  ghost predicate IsIssue(ctx: Context, issue: R.Issue)
  {
    && issue.index < |ctx.citationIds|
    && var v := ctx.citationIds[issue.index];
    && issue.citationId == (if v.Text? then Some(v.text) else None)
    && match issue.code
       case Malformed => !R.IsCitationId(v)
       case Duplicate => R.IsCitationId(v) && exists j :: 0 <= j < issue.index && ctx.citationIds[j] == v
       case Unknown => R.IsCitationId(v) && forall s :: s in ctx.sources ==> s.id != v.text
  }

  ghost function SeverityIn(r: Rule): (s: Severity)
  {
    if r == OutdatedSource || r == SourceConcentration || r == FactInferenceMix || r == DateOrUnitMismatch || r == OutOfScopeContent
    then HighSeverity
    else if r == DuplicateSource then MediumSeverity
    else if r == UnreferencedSource then LowSeverity
    else Blocker
  }

  /** When a rule speaks of a subject. */
  ghost predicate Speaks(ctx: Context, rule: Rule, subject: Subject)
  {
    match rule
    case UnsourcedKeyClaim =>
      exists c :: && c in ctx.claims && subject == Entity(c.id) && c.includeInReport && (c.importance == Critical || c.importance == High)
                  && !Backed(ctx, c.id, R.Supports)
    case InvalidCitationId => subject.Citation? && IsIssue(ctx, subject.issue)
    case OutdatedSource => exists s :: IsLastSource(ctx, s) && subject == Entity(s.id) && IsCitedId(ctx, s.id) && IsOld(ctx, s)
    case DuplicateSource => exists k :: 0 <= k < |ctx.sources| && subject == Entity(ctx.sources[k].id) && IsDuplicate(ctx.sources, k)
    case SourceConcentration => subject.Entity? && Dominates(ctx, subject.id)
    case UnresolvedSourceConflict =>
      || (exists k :: k in ctx.conflicts && subject == Entity(k.id) && !k.resolved)
      || (exists c :: c in ctx.claims && subject == ContestedClaim(c.id) && IsContested(ctx, |ctx.claims|, c.id) && !HasConflict(ctx, c.id))
    case FactInferenceMix => exists s :: s in ctx.statements && subject == Entity(s.id) && s.mixed
    case OutOfScopeContent => exists s :: s in ctx.statements && subject == Entity(s.id) && !s.withinScope
    case UnsupportedNumber =>
      exists q :: q in ctx.quantities && subject == Entity(q.id) &&
                  !exists e :: IsVerifiedEvidence(ctx, e) && q.evidenceId == Some(e.id) && e.id != ""
    case DateOrUnitMismatch =>
      exists q :: q in ctx.quantities && subject == Entity(q.id) && (q.dateMatches == Some(false) || q.unitMatches == Some(false))
    case SourceNumberMismatch => exists q :: q in ctx.quantities && subject == Entity(q.id) && q.valueMatches == Some(false)
    case UnreferencedSource => exists s :: s in ctx.sources && subject == Entity(s.id) && !IsCitedId(ctx, s.id)
    case OpenResearchGap => exists g :: g in ctx.gaps && subject == Entity(g.id) && g.status == Open
    case EmptyRequiredSection =>
      exists s :: s in ctx.sections && subject == Entity(s.id) && s.required && forall c :: c in s.content ==> IsSpace(c)
  }

  lemma SeverityIs(r: Rule)
    ensures SeverityOf(r) == SeverityIn(r)
  {
  }

  // ---------------------------------------------------------------- lookups

  lemma {:induction false} SourceFound(sources: seq<Source>, s: Source)
    ensures IsLastOf(sources, s) <==> s.id in SourcesById(sources) && SourcesById(sources)[s.id] == s
  {
    hide IsLastOf;
    if sources == [] {
      NoneIsLast(s);
    } else {
      var n := |sources| - 1;
      SourceFound(sources[..n], s);
      LastSnoc(sources[..n], sources[n], s);
      assert sources == sources[..n] + [sources[n]];
    }
  }

  lemma NoneIsLast(s: Source)
    ensures !IsLastOf([], s)
  {
  }

  lemma LastSnoc(shorter: seq<Source>, last: Source, s: Source)
    ensures IsLastOf(shorter + [last], s) <==> if s.id == last.id then s == last else IsLastOf(shorter, s)
  {
    var longer, n := shorter + [last], |shorter|;
    assert longer[n] == last && forall i :: 0 <= i < n ==> longer[i] == shorter[i];
    if IsLastOf(longer, s) {
      var i :| 0 <= i < |longer| && longer[i] == s && forall j :: i < j < |longer| ==> longer[j].id != s.id;
      assert i < n ==> shorter[i] == s;
    }
    if s.id != last.id && IsLastOf(shorter, s) {
      var i :| 0 <= i < n && shorter[i] == s && forall j :: i < j < n ==> shorter[j].id != s.id;
      assert longer[i] == s;
    }
  }

  lemma LastSourceIff(ctx: Context, s: Source)
    ensures IsLastSource(ctx, s) <==> s.id in IndexOf(ctx).sources && IndexOf(ctx).sources[s.id] == s
  {
    SourceFound(ctx.sources, s);
    hide SourcesById, IsLastOf;
  }

  lemma KnownId(ctx: Context, id: string)
    ensures id in IndexOf(ctx).sources <==> exists s :: s in ctx.sources && s.id == id
  {
    hide SourcesById;
    if s :| s in ctx.sources && s.id == id {
      var i :| 0 <= i < |ctx.sources| && ctx.sources[i] == s;
      assert ctx.sources[i].id == id;
    }
  }

  lemma CitedIff(ctx: Context, id: string)
    ensures id in Cited(ctx) <==> IsCitedId(ctx, id)
  {
    KnownId(ctx, id);
    hide IndexOf, R.IsCitationId, Distinct;
    var sources := IndexOf(ctx).sources;
    assert id in Cited(ctx) <==> id in KnownCitations(ctx.citationIds, sources);
    hide KnownCitations;
    if R.Text(id) in ctx.citationIds && R.IsCitationId(R.Text(id)) && id in sources {
      var i :| 0 <= i < |ctx.citationIds| && ctx.citationIds[i] == R.Text(id);
      assert id in KnownCitations(ctx.citationIds, sources);
    }
  }

  // ---------------------------------------------------------------- the rules one by one

  lemma FromRule<A>(xs: seq<A>, rule: A -> seq<Finding>, f: Finding)
    ensures f in FlatMap(xs, rule) <==> exists x :: x in xs && f in rule(x)
  {
    FlatMapMember(xs, rule, f);
    hide FlatMap;
    if x :| x in xs && f in rule(x) {
      var i :| 0 <= i < |xs| && xs[i] == x;
      assert f in rule(xs[i]);
    }
  }

  lemma ClaimsSpeak(ctx: Context, f: Finding)
    ensures f in FlatMap(ctx.claims, UnsourcedRule(ctx)) <==>
            f == Found(UnsourcedKeyClaim, f.subject) && Speaks(ctx, UnsourcedKeyClaim, f.subject)
  {
    FromRule(ctx.claims, UnsourcedRule(ctx), f);
    hide FlatMap, Backed, SeverityOf;
    assert forall c :: f in UnsourcedRule(ctx)(c) <==> IsUnsourced(ctx, c) && f == Found(UnsourcedKeyClaim, Entity(c.id));
  }

  lemma ContestsSpeak(ctx: Context, f: Finding)
    ensures f in FlatMap(ctx.claims, ContestedRule(ctx)) <==>
            f == Found(UnresolvedSourceConflict, f.subject) && f.subject.ContestedClaim? && Speaks(ctx, UnresolvedSourceConflict, f.subject)
  {
    FromRule(ctx.claims, ContestedRule(ctx), f);
    hide FlatMap, IsContested, SeverityOf;
    forall id ensures IsRecorded(ctx, |ctx.conflicts|, id) <==> HasConflict(ctx, id) {
      RecordedIff(ctx, id);
    }
    hide IsRecorded, HasConflict;
    assert forall c :: f in ContestedRule(ctx)(c) <==> IsOpenContest(ctx, c) && f == Found(UnresolvedSourceConflict, ContestedClaim(c.id));
  }

  lemma RecordedIff(ctx: Context, id: string)
    ensures IsRecorded(ctx, |ctx.conflicts|, id) <==> HasConflict(ctx, id)
  {
    if HasConflict(ctx, id) {
      var k :| k in ctx.conflicts && k.claimId == Some(id);
      var i :| 0 <= i < |ctx.conflicts| && ctx.conflicts[i] == k;
      assert IsTruthy(ctx.conflicts[i].claimId);
    }
  }

  lemma ConflictsSpeak(ctx: Context, f: Finding)
    ensures f in FlatMap(ctx.conflicts, ConflictRule()) <==>
            f == Found(UnresolvedSourceConflict, f.subject) && f.subject.Entity? && Speaks(ctx, UnresolvedSourceConflict, f.subject)
  {
    FromRule(ctx.conflicts, ConflictRule(), f);
    hide FlatMap, IsContested, SeverityOf, HasConflict;
    assert forall c :: f in ConflictRule()(c) <==> !c.resolved && f == Found(UnresolvedSourceConflict, Entity(c.id));
  }

  lemma StatementsSpeak(ctx: Context, f: Finding)
    ensures f in FlatMap(ctx.statements, StatementRule()) <==>
            f == Found(f.rule, f.subject) && (f.rule == FactInferenceMix || f.rule == OutOfScopeContent) && Speaks(ctx, f.rule, f.subject)
  {
    FromRule(ctx.statements, StatementRule(), f);
    hide FlatMap, SeverityOf;
    assert forall s :: f in StatementRule()(s) <==>
      (s.mixed && f == Found(FactInferenceMix, Entity(s.id))) || (!s.withinScope && f == Found(OutOfScopeContent, Entity(s.id)));
  }

  lemma BackedNumberIff(ctx: Context, q: Quantity)
    ensures IsNumberBacked(ctx, q) <==> exists e :: IsVerifiedEvidence(ctx, e) && q.evidenceId == Some(e.id) && e.id != ""
  {
    hide IsVerifiedEvidence;
  }

  ghost predicate IsWrong(q: Quantity, rule: Rule)
  {
    || (rule == DateOrUnitMismatch && (q.dateMatches == Some(false) || q.unitMatches == Some(false)))
    || (rule == SourceNumberMismatch && q.valueMatches == Some(false))
  }

  lemma QuantitiesSpeak(ctx: Context, f: Finding)
    ensures f in FlatMap(ctx.quantities, QuantityRule(ctx)) <==>
            && f == Found(f.rule, f.subject) && (f.rule == UnsupportedNumber || f.rule == DateOrUnitMismatch || f.rule == SourceNumberMismatch)
            && Speaks(ctx, f.rule, f.subject)
  {
    FromRule(ctx.quantities, QuantityRule(ctx), f);
    hide FlatMap, IsVerifiedEvidence, SeverityOf;
    forall q ensures IsNumberBacked(ctx, q) <==> exists e :: IsVerifiedEvidence(ctx, e) && q.evidenceId == Some(e.id) && e.id != "" {
      BackedNumberIff(ctx, q);
    }
    hide IsNumberBacked;
    forall q ensures f in QuantityRule(ctx)(q) <==>
      f == Found(f.rule, f.subject) && f.subject == Entity(q.id) && (IsWrong(q, f.rule) || (f.rule == UnsupportedNumber && !IsNumberBacked(ctx, q)))
    {
      QuantitySpeaks(ctx, q, f);
    }
    hide QuantityRule, Found;
  }

  lemma QuantitySpeaks(ctx: Context, q: Quantity, f: Finding)
    ensures f in QuantityRule(ctx)(q) <==>
      f == Found(f.rule, f.subject) && f.subject == Entity(q.id) && (IsWrong(q, f.rule) || (f.rule == UnsupportedNumber && !IsNumberBacked(ctx, q)))
  {
    hide IsNumberBacked;
  }

  lemma UnreferencedSpeak(ctx: Context, f: Finding)
    ensures f in FlatMap(ctx.sources, UnreferencedRule(ctx)) <==>
            f == Found(UnreferencedSource, f.subject) && Speaks(ctx, UnreferencedSource, f.subject)
  {
    FromRule(ctx.sources, UnreferencedRule(ctx), f);
    hide FlatMap, Cited, IsCitedId, SeverityOf;
    forall id ensures id in Cited(ctx) <==> IsCitedId(ctx, id) {
      CitedIff(ctx, id);
    }
    assert forall s :: f in UnreferencedRule(ctx)(s) <==> s.id !in Cited(ctx) && f == Found(UnreferencedSource, Entity(s.id));
  }

  lemma GapsSpeak(ctx: Context, f: Finding)
    ensures f in FlatMap(ctx.gaps, GapRule()) <==> f == Found(OpenResearchGap, f.subject) && Speaks(ctx, OpenResearchGap, f.subject)
  {
    FromRule(ctx.gaps, GapRule(), f);
    hide FlatMap, SeverityOf;
    assert forall g :: f in GapRule()(g) <==> g.status == Open && f == Found(OpenResearchGap, Entity(g.id));
  }

  lemma SectionsSpeak(ctx: Context, f: Finding)
    ensures f in FlatMap(ctx.sections, SectionRule()) <==>
            f == Found(EmptyRequiredSection, f.subject) && Speaks(ctx, EmptyRequiredSection, f.subject)
  {
    FromRule(ctx.sections, SectionRule(), f);
    hide FlatMap, SeverityOf, IsSpace, Trim, IsEmptyRequired;
    forall s: Section ensures IsEmptyRequired(s) <==> s.required && forall c :: c in s.content ==> IsSpace(c) {
      EmptyRequiredIff(s);
    }
    assert forall s :: f in SectionRule()(s) <==> IsEmptyRequired(s) && f == Found(EmptyRequiredSection, Entity(s.id));
  }

  lemma EmptyRequiredIff(s: Section)
    ensures IsEmptyRequired(s) <==> s.required && forall c :: c in s.content ==> IsSpace(c)
  {
    hide IsSpace;
    assert |Trim(s.content)| == 0 <==> Trim(s.content) == [];
  }

  lemma OutdatedSpeak(ctx: Context, f: Finding)
    requires CitedDatable(ctx)
    ensures f in FlatMap(Cited(ctx), OutdatedRule(ctx)) <==> f == Found(OutdatedSource, f.subject) && Speaks(ctx, OutdatedSource, f.subject)
  {
    FromRule(Cited(ctx), OutdatedRule(ctx), f);
    hide FlatMap, Cited, SeverityOf, IsOutdated;
    assert forall id :: f in OutdatedRule(ctx)(id) <==> IsOutdated(ctx, id) && f == Found(OutdatedSource, Entity(id));
    forall id ensures id in Cited(ctx) && IsOutdated(ctx, id) <==> IsCitedId(ctx, id) && exists s :: IsLastSource(ctx, s) && s.id == id && IsOld(ctx, s) {
      OutdatedIff(ctx, id);
    }
    hide IsLastSource, IsCitedId, IsOld, CitedDatable, OutdatedRule;
  }

  lemma OutdatedIff(ctx: Context, id: string)
    requires CitedDatable(ctx)
    ensures id in Cited(ctx) && IsOutdated(ctx, id) <==> IsCitedId(ctx, id) && exists s :: IsLastSource(ctx, s) && s.id == id && IsOld(ctx, s)
  {
    CitedIff(ctx, id);
    SourceIds(ctx);
    var cited, sources := Cited(ctx), IndexOf(ctx).sources;
    if id in cited {
      var i :| 0 <= i < |cited| && cited[i] == id;
      assert Freshness(ctx, sources[cited[i]]).Success?;
    }
    forall s ensures IsLastSource(ctx, s) <==> s.id in sources && sources[s.id] == s {
      LastSourceIff(ctx, s);
    }
    hide Cited, IndexOf, IsLastSource, IsCitedId, CitedDatable;
  }

  lemma SourceIds(ctx: Context)
    ensures forall id :: id in IndexOf(ctx).sources ==> IndexOf(ctx).sources[id].id == id
  {
    hide SourcesById;
  }

  lemma IssuesSpeak(ctx: Context, f: Finding)
    ensures f in FlatMap(Issues(ctx), CitationRule()) <==> f == Found(InvalidCitationId, f.subject) && Speaks(ctx, InvalidCitationId, f.subject)
  {
    var issues := Issues(ctx);
    FromRule(issues, CitationRule(), f);
    hide Issues, FlatMap, SeverityOf, IsIssue;
    forall issue ensures issue in issues <==> IsIssue(ctx, issue) {
      IssuesIff(ctx, issue);
    }
    assert forall issue :: f in CitationRule()(issue) <==> f == Found(InvalidCitationId, Citation(issue));
  }

  lemma IssuesIff(ctx: Context, issue: R.Issue)
    ensures issue in Issues(ctx) <==> IsIssue(ctx, issue)
  {
    var known := IndexOf(ctx).sources.Keys;
    forall id ensures id in known <==> exists s :: s in ctx.sources && s.id == id {
      KnownId(ctx, id);
    }
    hide IndexOf, R.IsCitationId;
    IssueAmong(ctx.citationIds, known, |ctx.citationIds|, issue);
    hide R.IssuesUpTo;
  }

  lemma {:induction false} IssueAmong(ids: seq<R.Value>, known: set<string>, n: nat, issue: R.Issue)
    requires n <= |ids|
    ensures issue in R.IssuesUpTo(ids, known, n) <==> issue.index < n && issue in R.IssuesAt(ids, known, issue.index)
  {
    hide R.IssuesAt;
    if n > 0 {
      var earlier, last := R.IssuesUpTo(ids, known, n - 1), R.IssuesAt(ids, known, n - 1);
      assert R.IssuesUpTo(ids, known, n) == earlier + last;
      IssueAmong(ids, known, n - 1, issue);
      IssueIndex(ids, known, n - 1, issue);
      hide R.IssuesUpTo;
      assert issue in earlier + last <==> issue in earlier || issue in last;
    }
  }

  lemma IssueIndex(ids: seq<R.Value>, known: set<string>, i: nat, issue: R.Issue)
    requires i < |ids|
    ensures issue in R.IssuesAt(ids, known, i) ==> issue.index == i
  {
    hide R.IsCitationId;
  }

  lemma DuplicateIff(sources: seq<Source>, k: nat)
    requires k < |sources|
    ensures IsDuplicate(sources, k) <==> IsMarked(sources[k]) || RepeatsHash(sources, k)
  {
    hide Trim;
  }

  lemma {:induction false} MarkedAmong(sources: seq<Source>, n: nat, f: Finding)
    requires n <= |sources|
    ensures f in MarkedFindings(sources, n) <==> exists k :: 0 <= k < n && f == Duplicate(sources[k]) && IsMarked(sources[k])
  {
    hide IsMarked, Duplicate;
    if n > 0 {
      MarkedAmong(sources, n - 1, f);
    }
  }

  lemma {:induction false} HashesAmong(sources: seq<Source>, n: nat, f: Finding)
    requires n <= |sources|
    ensures f in HashFindings(sources, n) <==> exists k :: 0 <= k < n && f == Duplicate(sources[k]) && IsReported(sources, k)
  {
    hide IsReported, Duplicate;
    if n > 0 {
      HashesAmong(sources, n - 1, f);
    }
  }

  /** A repeated hash is reported under its id, at the latest by the first repetition or the mark. */
  lemma {:induction false} ReportedSomewhere(sources: seq<Source>, k: nat)
    requires k < |sources| && RepeatsHash(sources, k)
    ensures exists j :: 0 <= j < |sources| && sources[j].id == sources[k].id && (IsMarked(sources[j]) || IsReported(sources, j))
  {
    hide RepeatsHash, IsMarked;
    if !MarkedId(sources, |sources|, sources[k].id) && RepeatedId(sources, k, sources[k].id) {
      var j :| 0 <= j < k && sources[j].id == sources[k].id && RepeatsHash(sources, j);
      ReportedSomewhere(sources, j);
    }
  }

  lemma DuplicatesSpeak(ctx: Context, f: Finding)
    ensures f in DuplicateFindings(ctx.sources) <==> f == Found(DuplicateSource, f.subject) && Speaks(ctx, DuplicateSource, f.subject)
  {
    var sources := ctx.sources;
    MarkedAmong(sources, |sources|, f);
    HashesAmong(sources, |sources|, f);
    hide MarkedFindings, HashFindings, IsMarked, RepeatsHash, SeverityOf, IsDuplicate, MarkedId, RepeatedId;
    if k :| 0 <= k < |sources| && f == Duplicate(sources[k]) && (IsMarked(sources[k]) || IsReported(sources, k)) {
      DuplicateIff(sources, k);
    }
    hide IsReported;
    if k :| 0 <= k < |sources| && f.subject == Entity(sources[k].id) && IsDuplicate(sources, k) {
      DuplicateIff(sources, k);
      if RepeatsHash(sources, k) {
        ReportedSomewhere(sources, k);
      }
    }
  }

  // ---------------------------------------------------------------- concentration

  lemma FirstApart(ids: seq<string>)
    requires ids != [] && forall i, j :: 0 <= i < j < |ids| ==> ids[i] != ids[j]
    ensures ids[0] !in ids[1..] && (forall id :: id in ids <==> id == ids[0] || id in ids[1..])
    ensures forall i, j :: 0 <= i < j < |ids[1..]| ==> ids[1..][i] != ids[1..][j]
  {
  }

  lemma {:induction false} PublishersCount(cited: seq<string>, sources: map<string, Source>, named: set<string>)
    requires forall id :: id in cited ==> id in sources
    requires forall i, j :: 0 <= i < j < |cited| ==> cited[i] != cited[j]
    requires forall id :: id in named <==> id in cited && Publisher(sources[id]) != ""
    ensures |Publishers(cited, sources)| == |named|
  {
    hide Publisher;
    if cited == [] {
      assert named == {};
    } else {
      var rest, fewer := cited[1..], named - {cited[0]};
      FirstApart(cited);
      PublishersCount(rest, sources, fewer);
      assert named == if Publisher(sources[cited[0]]) != "" then fewer + {cited[0]} else fewer;
    }
  }

  lemma {:induction false} OwnCount(cited: seq<string>, sources: map<string, Source>, publisher: string, own: set<string>)
    requires publisher != "" && forall id :: id in cited ==> id in sources
    requires forall i, j :: 0 <= i < j < |cited| ==> cited[i] != cited[j]
    requires forall id :: id in own <==> id in cited && Publisher(sources[id]) == publisher
    ensures multiset(Publishers(cited, sources))[publisher] == |own|
  {
    hide Publisher;
    if cited == [] {
      assert own == {};
    } else {
      var rest, fewer := cited[1..], own - {cited[0]};
      FirstApart(cited);
      OwnCount(rest, sources, publisher, fewer);
      CountFirst(Publisher(sources[cited[0]]), Publishers(rest, sources), publisher);
      assert own == if Publisher(sources[cited[0]]) == publisher then fewer + {cited[0]} else fewer;
    }
  }

  lemma CountFirst(p: string, rest: seq<string>, publisher: string)
    requires publisher != ""
    ensures multiset((if p == "" then [] else [p]) + rest)[publisher] == One(p == publisher) + multiset(rest)[publisher]
  {
  }

  lemma PublishedIff(ctx: Context, id: string, publisher: string)
    ensures IsPublishedBy(ctx, id, publisher) <==>
            id in Cited(ctx) && publisher != "" && Publisher(IndexOf(ctx).sources[id]) == publisher
  {
    CitedIff(ctx, id);
    hide Cited, Trim;
    var sources := IndexOf(ctx).sources;
    forall s ensures IsLastSource(ctx, s) <==> s.id in sources && sources[s.id] == s {
      LastSourceIff(ctx, s);
    }
    SourceIds(ctx);
    hide IndexOf, IsLastSource, IsCitedId;
    if id in Cited(ctx) && publisher != "" && Publisher(sources[id]) == publisher {
      assert IsLastSource(ctx, sources[id]);
    }
  }

  lemma ConcentrationSpeaks(ctx: Context, f: Finding)
    ensures f in ConcentrationFindings(CitedPublishers(ctx)) <==>
            f == Found(SourceConcentration, f.subject) && Speaks(ctx, SourceConcentration, f.subject)
  {
    var ps := CitedPublishers(ctx);
    FromRule(Distinct(ps), ConcentrationRule(ps), f);
    hide FlatMap, SeverityOf, Cited, Publishers, Distinct;
    assert forall p :: f in ConcentrationRule(ps)(p) <==> 2 * multiset(ps)[p] > |ps| && f == Found(SourceConcentration, Entity(p));
    if f.subject.Entity? {
      DominatesIff(ctx, f.subject.id);
    }
    hide Dominates, CitedPublishers;
  }

  lemma DominatesIff(ctx: Context, publisher: string)
    ensures var ps := CitedPublishers(ctx);
      Dominates(ctx, publisher) <==> |ps| >= 3 && publisher in ps && 2 * multiset(ps)[publisher] > |ps|
  {
    var ps := CitedPublishers(ctx);
    var named := NamedSet(ctx);
    var own := OwnSet(ctx, publisher);
    hide CitedPublishers, AreNamed, AreOwn, Dominates;
    NamedAndOwn(ctx, publisher, named, own);
    assert 2 * multiset(ps)[publisher] > |ps| ==> publisher in ps;
  }

  lemma NamedSet(ctx: Context) returns (named: set<string>)
    ensures AreNamed(ctx, named) && |CitedPublishers(ctx)| == |named|
  {
    var cited, sources := Cited(ctx), IndexOf(ctx).sources;
    named := set id | id in cited && Publisher(sources[id]) != "";
    hide Publisher, IndexOf, Cited, Publishers, NamesPublisher;
    PublishersCount(cited, sources, named);
    forall id ensures id in named <==> NamesPublisher(ctx, id) {
      NamesIff(ctx, id);
    }
  }

  lemma OwnSet(ctx: Context, publisher: string) returns (own: set<string>)
    ensures AreOwn(ctx, publisher, own) && multiset(CitedPublishers(ctx))[publisher] == |own|
  {
    var cited, sources := Cited(ctx), IndexOf(ctx).sources;
    own := set id | id in cited && Publisher(sources[id]) == publisher && publisher != "";
    hide Publisher, IsPublishedBy, IndexOf, Cited, Publishers;
    if publisher != "" {
      OwnCount(cited, sources, publisher, own);
    } else {
      NoBlankPublisher(cited, sources);
      assert own == {};
    }
    forall id ensures id in own <==> IsPublishedBy(ctx, id, publisher) {
      PublishedIff(ctx, id, publisher);
    }
  }

  lemma NamesIff(ctx: Context, id: string)
    ensures NamesPublisher(ctx, id) <==> id in Cited(ctx) && Publisher(IndexOf(ctx).sources[id]) != ""
  {
    hide Publisher, IsPublishedBy, IndexOf, Cited;
    if id in Cited(ctx) {
      PublishedIff(ctx, id, Publisher(IndexOf(ctx).sources[id]));
    }
    if p :| IsPublishedBy(ctx, id, p) {
      PublishedIff(ctx, id, p);
    }
  }

  lemma NamedAndOwn(ctx: Context, publisher: string, named: set<string>, own: set<string>)
    requires AreNamed(ctx, named) && AreOwn(ctx, publisher, own)
    ensures Dominates(ctx, publisher) <==> |named| >= 3 && 2 * |own| > |named|
  {
    hide IsPublishedBy, NamesPublisher;
    if Dominates(ctx, publisher) {
      var n, o :| AreNamed(ctx, n) && AreOwn(ctx, publisher, o) && |n| >= 3 && 2 * |o| > |n|;
      assert n == named && o == own;
    }
  }

  lemma {:induction false} NoBlankPublisher(cited: seq<string>, sources: map<string, Source>)
    requires forall id :: id in cited ==> id in sources
    ensures "" !in Publishers(cited, sources)
  {
    hide Publisher;
    if cited != [] {
      NoBlankPublisher(cited[1..], sources);
    }
  }

  // ---------------------------------------------------------------- the whole run

  /**
    Exactly which findings a run reports: for each rule those it speaks of, with the rule's severity
    and open.
   */
  lemma FindingsIff(ctx: Context, f: Finding)
    requires Assessable(ctx)
    ensures f in AllFindings(ctx) <==> f.severity == SeverityIn(f.rule) && f.resolution == OpenFinding && Speaks(ctx, f.rule, f.subject)
  {
    SeverityIs(f.rule);
    assert f == Found(f.rule, f.subject) <==> f.severity == SeverityIn(f.rule) && f.resolution == OpenFinding;
    ClaimsSpeak(ctx, f);
    IssuesSpeak(ctx, f);
    OutdatedSpeak(ctx, f);
    DuplicatesSpeak(ctx, f);
    ConcentrationSpeaks(ctx, f);
    ConflictsSpeak(ctx, f);
    ContestsSpeak(ctx, f);
    StatementsSpeak(ctx, f);
    QuantitiesSpeak(ctx, f);
    UnreferencedSpeak(ctx, f);
    GapsSpeak(ctx, f);
    SectionsSpeak(ctx, f);
    ConflictSubjects(ctx, f.subject);
    InParts(ctx, f);
    hide *;
  }

  lemma InParts(ctx: Context, f: Finding)
    ensures f in AllFindings(ctx) <==>
      || f in FlatMap(ctx.claims, UnsourcedRule(ctx)) || f in FlatMap(Issues(ctx), CitationRule())
      || f in FlatMap(Cited(ctx), OutdatedRule(ctx)) || f in DuplicateFindings(ctx.sources) || f in ConcentrationFindings(CitedPublishers(ctx))
      || f in FlatMap(ctx.conflicts, ConflictRule()) || f in FlatMap(ctx.claims, ContestedRule(ctx))
      || f in FlatMap(ctx.statements, StatementRule()) || f in FlatMap(ctx.quantities, QuantityRule(ctx))
      || f in FlatMap(ctx.sources, UnreferencedRule(ctx)) || f in FlatMap(ctx.gaps, GapRule()) || f in FlatMap(ctx.sections, SectionRule())
  {
    InSources(ctx, f);
    InLate(ctx, f);
    hide SourceFindings, LateFindings, FlatMap, Issues;
  }

  lemma InSources(ctx: Context, f: Finding)
    ensures f in SourceFindings(ctx) <==>
      f in FlatMap(Cited(ctx), OutdatedRule(ctx)) || f in DuplicateFindings(ctx.sources) || f in ConcentrationFindings(CitedPublishers(ctx))
  {
    hide FlatMap, DuplicateFindings, ConcentrationFindings, CitedPublishers, Cited;
  }

  lemma InLate(ctx: Context, f: Finding)
    ensures f in LateFindings(ctx) <==>
      || f in FlatMap(ctx.conflicts, ConflictRule()) || f in FlatMap(ctx.claims, ContestedRule(ctx))
      || f in FlatMap(ctx.statements, StatementRule()) || f in FlatMap(ctx.quantities, QuantityRule(ctx))
      || f in FlatMap(ctx.sources, UnreferencedRule(ctx)) || f in FlatMap(ctx.gaps, GapRule()) || f in FlatMap(ctx.sections, SectionRule())
  {
    hide FlatMap, ConflictRule, ContestedRule, StatementRule, QuantityRule, UnreferencedRule, GapRule, SectionRule;
  }

  lemma ConflictSubjects(ctx: Context, subject: Subject)
    ensures Speaks(ctx, UnresolvedSourceConflict, subject) ==> subject.Entity? || subject.ContestedClaim?
  {
    hide IsContested, HasConflict;
  }
}
