/** Source freshness, the support status of a claim, and citation ids. */
module Research {
  import opened Prelude
  import T = Text

  // ---------------------------------------------------------------- freshness

  /** A date as given: a calendar day, counted from the epoch, or something that is not a date. */
  datatype DateInput = Day(day: int) | NotADate

  datatype Freshness = Current | Aging | Outdated | UnknownAge

  datatype DomainError = InvalidMaxAge | InvalidDate

  /** The aging threshold: four fifths of the maximum age, rounded up. */
  function AgingFrom(maxAgeDays: nat): (n: nat)
    ensures 5 * (n - 1) < 4 * maxAgeDays <= 5 * n
  {
    (4 * maxAgeDays + 4) / 5
  }

  /** The age of a dated source, in days. */
  function Age(publishedAt: Option<DateInput>, researchDate: DateInput): (age: Option<int>)
  {
    if publishedAt.Some? && publishedAt.value.Day? && researchDate.Day? then Some(researchDate.day - publishedAt.value.day) else None
  }

  function AssessFreshness(publishedAt: Option<DateInput>, researchDate: DateInput, maxAgeDays: int): (r: Result<Freshness, DomainError>)
    ensures r.Failure? <==> maxAgeDays < 0 || (publishedAt.Some? && (publishedAt.value.NotADate? || researchDate.NotADate?))
    ensures var age := Age(publishedAt, researchDate);
      maxAgeDays >= 0 ==>
        && (r == Success(Outdated) <==> age.Some? && age.value > maxAgeDays)
        && (r == Success(Aging) <==> age.Some? && maxAgeDays > 0 && 4 * maxAgeDays <= 5 * age.value <= 5 * maxAgeDays)
        && (r == Success(Current) <==> age.Some? && 0 <= age.value <= maxAgeDays && (maxAgeDays > 0 ==> 5 * age.value < 4 * maxAgeDays))
  {
    if maxAgeDays < 0 then Failure(InvalidMaxAge)
    else if publishedAt.None? then Success(UnknownAge)
    else if publishedAt.value.NotADate? || researchDate.NotADate? then Failure(InvalidDate)
    else
      var ageDays := researchDate.day - publishedAt.value.day;
      if ageDays < 0 then Success(UnknownAge)
      else if ageDays > maxAgeDays then Success(Outdated)
      else if maxAgeDays > 0 && ageDays >= AgingFrom(maxAgeDays) then Success(Aging)
      else Success(Current)
  }

  // ---------------------------------------------------------------- claim support

  datatype Relationship = Supports | Refutes | Context
  datatype Verification = Pending | Verified | Rejected
  datatype Extent = Full | Partial
  datatype Support = Supported | PartiallySupported | Contested | Unsupported | OutdatedSupport | NotVerifiable

  datatype Assessment = Assessment(relationship: Relationship, verification: Verification, freshness: Freshness, extent: Option<Extent>)

  predicate Counts(a: Assessment, r: Relationship)
  {
    a.verification == Verified && a.relationship == r
  }

  /** Some verified assessment has that relationship. */
  ghost predicate AnyCounts(evidence: seq<Assessment>, r: Relationship)
  {
    exists a :: a in evidence && Counts(a, r)
  }

  predicate FullAndUsable(a: Assessment)
  {
    a.extent != Some(Partial) && (a.freshness == Current || a.freshness == Aging)
  }

  /** Not only partial, and neither outdated nor of unknown age. */
  lemma FullAndUsableIff(a: Assessment)
    ensures FullAndUsable(a) <==> a.extent in {None, Some(Full)} && a.freshness !in {Outdated, UnknownAge}
  {
    assert a.extent.Some? ==> a.extent.value == Full || a.extent.value == Partial;
  }

  function Filter<T(!new)>(xs: seq<T>, p: T -> bool): (ys: seq<T>)
    ensures forall y :: y in ys <==> y in xs && p(y)
  {
    if xs == [] then [] else (if p(xs[0]) then [xs[0]] else []) + Filter(xs[1..], p)
  }

  function ClaimSupport(evidence: seq<Assessment>, verificationPossible: bool): (s: Support)
    ensures s == NotVerifiable <==> !verificationPossible
    ensures s == Contested <==>
            verificationPossible && AnyCounts(evidence, Supports) && AnyCounts(evidence, Refutes)
    ensures s == Unsupported <==> verificationPossible && !AnyCounts(evidence, Supports)
    ensures s == OutdatedSupport ==> forall a :: a in evidence && Counts(a, Supports) ==> a.freshness == Outdated
    ensures s == Supported ==> exists a :: a in evidence && Counts(a, Supports) && FullAndUsable(a)
    ensures s == PartiallySupported ==>
              && (forall a :: a in evidence && Counts(a, Supports) ==> !FullAndUsable(a))
              && (exists a :: a in evidence && Counts(a, Supports) && a.freshness != Outdated)
    ensures s in {OutdatedSupport, Supported, PartiallySupported} ==> AnyCounts(evidence, Supports) && !AnyCounts(evidence, Refutes)
  {
    if !verificationPossible then NotVerifiable
    else
      var verified := Filter(evidence, (a: Assessment) => a.verification == Verified && a.relationship != Context);
      var supporting := Filter(verified, (a: Assessment) => a.relationship == Supports);
      var refuting := Filter(verified, (a: Assessment) => a.relationship == Refutes);
      assert forall a :: a in supporting <==> a in evidence && Counts(a, Supports);
      assert forall a :: a in refuting <==> a in evidence && Counts(a, Refutes);
      assert |supporting| > 0 ==> supporting[0] in supporting;
      assert |refuting| > 0 ==> refuting[0] in refuting;
      if |supporting| > 0 && |refuting| > 0 then Contested
      else if |supporting| == 0 then Unsupported
      else if forall a :: a in supporting ==> a.freshness == Outdated then OutdatedSupport
      else if exists a :: a in supporting && FullAndUsable(a) then Supported
      else PartiallySupported
  }

  // ---------------------------------------------------------------- citation ids

  /** A citation id as it arrives: a string, or some other JSON value. */
  datatype Value = Text(text: string) | NotText

  predicate IsCitationId(v: Value)
  {
    && v.Text? && 1 <= |v.text| <= 128 && T.IsAlphanumeric(v.text[0])
    && forall i :: 1 <= i < |v.text| ==> T.IsAlphanumeric(v.text[i]) || v.text[i] in "._:-"
  }

  /** Up to 128 letters, digits and the four marks, of which none comes first. */
  lemma CitationIdIff(v: Value)
    ensures IsCitationId(v) <==>
      && v.Text? && v.text != "" && |v.text| <= 128
      && (forall c :: c in v.text ==> T.IsAlphanumeric(c) || c == '.' || c == '_' || c == ':' || c == '-')
      && v.text[0] !in {'.', '_', ':', '-'}
  {
    if v.Text? && v.text != "" {
      assert v.text[0] in v.text;
      assert forall i :: 1 <= i < |v.text| ==> v.text[i] in v.text;
    }
  }

  datatype IssueCode = Malformed | Duplicate | Unknown

  datatype Issue = Issue(code: IssueCode, index: nat, citationId: Option<string>)

  /** Exactly what is wrong with the citation at `i`. */
  ghost function IssuesAt(ids: seq<Value>, known: set<string>, i: nat): (issues: seq<Issue>)
    requires i < |ids|
  {
    if !IsCitationId(ids[i]) then [Issue(Malformed, i, if ids[i].Text? then Some(ids[i].text) else None)]
    else
      (if exists j :: 0 <= j < i && ids[j] == ids[i] then [Issue(Duplicate, i, Some(ids[i].text))] else []) +
      (if ids[i].text !in known then [Issue(Unknown, i, Some(ids[i].text))] else [])
  }

  ghost function IssuesUpTo(ids: seq<Value>, known: set<string>, n: nat): (issues: seq<Issue>)
    requires n <= |ids|
  {
    if n == 0 then [] else IssuesUpTo(ids, known, n - 1) + IssuesAt(ids, known, n - 1)
  }

  /** The texts of the well-formed ids so far. */
  ghost predicate Remembers(seen: set<string>, ids: seq<Value>, n: nat)
    requires n <= |ids|
  {
    forall s :: s in seen <==> exists j :: 0 <= j < n && ids[j] == Text(s) && IsCitationId(ids[j])
  }

  lemma RemembersNext(seen: set<string>, ids: seq<Value>, n: nat)
    requires n < |ids| && Remembers(seen, ids, n)
    ensures Remembers(if IsCitationId(ids[n]) then seen + {ids[n].text} else seen, ids, n + 1)
    ensures IsCitationId(ids[n]) ==> (ids[n].text in seen <==> exists j :: 0 <= j < n && ids[j] == ids[n])
  {
    assert IsCitationId(ids[n]) ==> ids[n] == Text(ids[n].text);
    hide IsCitationId;
  }

  /** The loop body: what the next position adds, decided by what is remembered. */
  method IssuesNext(seen: set<string>, ids: seq<Value>, known: set<string>, i: nat) returns (issues: seq<Issue>)
    requires i < |ids| && Remembers(seen, ids, i)
    ensures issues == IssuesAt(ids, known, i)
  {
    var v := ids[i];
    RemembersNext(seen, ids, i);
    hide Remembers;
    if !IsCitationId(v) {
      return [Issue(Malformed, i, if v.Text? then Some(v.text) else None)];
    }
    issues := [];
    if v.text in seen {
      issues := issues + [Issue(Duplicate, i, Some(v.text))];
    }
    if v.text !in known {
      issues := issues + [Issue(Unknown, i, Some(v.text))];
    }
  }

  method FindCitationIdIssues(ids: seq<Value>, known: set<string>) returns (issues: seq<Issue>)
    ensures issues == IssuesUpTo(ids, known, |ids|)
  {
    var seen: set<string> := {};
    issues := [];
    hide IssuesAt;
    for i := 0 to |ids|
      invariant issues == IssuesUpTo(ids, known, i) && Remembers(seen, ids, i)
    {
      var found := IssuesNext(seen, ids, known, i);
      RemembersNext(seen, ids, i);
      hide Remembers;
      issues := issues + found;
      if IsCitationId(ids[i]) {
        seen := seen + {ids[i].text};
      }
    }
  }

  /** The citations a report may have: well formed, known and pairwise distinct. */
  ghost predicate GoodCitations(ids: seq<Value>, known: set<string>)
  {
    && (forall i :: 0 <= i < |ids| ==> IsCitationId(ids[i]) && ids[i].text in known)
    && (forall i, j :: 0 <= i < j < |ids| ==> ids[i] != ids[j])
  }

  ghost predicate IsGoodAt(ids: seq<Value>, known: set<string>, i: nat)
    requires i < |ids|
  {
    IsCitationId(ids[i]) && ids[i].text in known && forall j :: 0 <= j < i ==> ids[j] != ids[i]
  }

  lemma GoodSnoc(ids: seq<Value>, known: set<string>, n: nat)
    requires n < |ids|
    ensures GoodCitations(ids[..n + 1], known) <==> GoodCitations(ids[..n], known) && IsGoodAt(ids, known, n)
  {
    hide IsCitationId;
    var shorter, longer := ids[..n], ids[..n + 1];
    assert forall i :: 0 <= i < n ==> longer[i] == shorter[i] == ids[i];
    assert longer[n] == ids[n];
  }

  lemma NoIssuesAt(ids: seq<Value>, known: set<string>, i: nat)
    requires i < |ids|
    ensures IssuesAt(ids, known, i) == [] <==> IsGoodAt(ids, known, i)
  {
    hide IsCitationId;
  }

  lemma {:induction false} NoIssuesUpTo(ids: seq<Value>, known: set<string>, n: nat)
    requires n <= |ids|
    ensures IssuesUpTo(ids, known, n) == [] <==> GoodCitations(ids[..n], known)
  {
    hide IssuesAt, IsGoodAt, IsCitationId;
    if n > 0 {
      NoIssuesUpTo(ids, known, n - 1);
      NoIssuesAt(ids, known, n - 1);
      GoodSnoc(ids, known, n - 1);
      hide GoodCitations;
      assert IssuesUpTo(ids, known, n) == IssuesUpTo(ids, known, n - 1) + IssuesAt(ids, known, n - 1);
    }
  }

  /** There is nothing to report exactly when the citations are well formed, known and distinct. */
  lemma NoIssuesIff(ids: seq<Value>, known: set<string>)
    ensures IssuesUpTo(ids, known, |ids|) == [] <==> GoodCitations(ids, known)
  {
    NoIssuesUpTo(ids, known, |ids|);
    assert ids[..|ids|] == ids;
  }
}
