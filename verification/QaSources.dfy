/** The QA rules about sources: outdated, duplicate and concentrated ones. */
module QaSources {
  import opened Prelude
  import opened Text
  import opened Qa
  import R = Research

  // ---------------------------------------------------------------- cited sources

  function KnownCitations(ids: seq<R.Value>, sources: map<string, Source>): (known: seq<string>)
    ensures forall s :: s in known <==> s in sources && exists i :: 0 <= i < |ids| && ids[i] == R.Text(s) && R.IsCitationId(ids[i])
  {
    if ids == [] then []
    else
      var rest := KnownCitations(ids[1..], sources);
      assert forall i :: 0 < i < |ids| ==> ids[i] == ids[1..][i - 1];
      if R.IsCitationId(ids[0]) && ids[0].text in sources then [ids[0].text] + rest else rest
  }

  function Cited(ctx: Context): (cited: seq<string>)
    ensures forall id :: id in cited ==> id in IndexOf(ctx).sources
    ensures forall i, j :: 0 <= i < j < |cited| ==> cited[i] != cited[j]
  {
    Distinct(KnownCitations(ctx.citationIds, IndexOf(ctx).sources))
  }

  ghost predicate IsOutdated(ctx: Context, id: string)
  {
    id in IndexOf(ctx).sources && Freshness(ctx, IndexOf(ctx).sources[id]) == Success(R.Outdated)
  }

  ghost function OutdatedRule(ctx: Context): string -> seq<Finding>
  {
    (id: string) => if IsOutdated(ctx, id) then [Found(OutdatedSource, Entity(id))] else []
  }

  ghost predicate CitedDatable(ctx: Context)
  {
    forall i :: 0 <= i < |Cited(ctx)| ==> Freshness(ctx, IndexOf(ctx).sources[Cited(ctx)[i]]).Success?
  }

  method CheckOutdated(ctx: Context, ix: Index, cited: seq<string>) returns (r: Result<seq<Finding>, R.DomainError>)
    requires ix == IndexOf(ctx) && cited == Cited(ctx)
    ensures r.Success? <==> CitedDatable(ctx)
    ensures r.Success? ==> r.value == FlatMap(cited, OutdatedRule(ctx))
  {
    var findings: seq<Finding> := [];
    hide IndexOf, Freshness, Found, Cited;
    for i := 0 to |cited|
      invariant findings == FlatMap(cited[..i], OutdatedRule(ctx))
      invariant forall j :: 0 <= j < i ==> Freshness(ctx, ix.sources[cited[j]]).Success?
    {
      FlatMapNext(cited, i, OutdatedRule(ctx));
      assert cited[i] in cited;
      var freshness := Freshness(ctx, ix.sources[cited[i]]);
      if freshness.Failure? {
        return Failure(freshness.error);
      }
      if freshness.value == R.Outdated {
        findings := findings + [Found(OutdatedSource, Entity(cited[i]))];
      }
    }
    assert cited[..|cited|] == cited;
    r := Success(findings);
  }

  // ---------------------------------------------------------------- duplicates

  function HashOf(s: Source): (h: string)
  {
    if s.contentHash.Some? then Trim(s.contentHash.value) else ""
  }

  predicate IsMarked(s: Source)
  {
    IsTruthy(s.duplicateOf)
  }

  /** An earlier source has the same non-blank hash. */
  ghost predicate RepeatsHash(sources: seq<Source>, i: nat)
    requires i < |sources|
  {
    HashOf(sources[i]) != "" && exists j :: 0 <= j < i && HashOf(sources[j]) == HashOf(sources[i])
  }

  ghost predicate MarkedId(sources: seq<Source>, n: nat, id: string)
    requires n <= |sources|
  {
    exists i :: 0 <= i < n && sources[i].id == id && IsMarked(sources[i])
  }

  ghost predicate RepeatedId(sources: seq<Source>, n: nat, id: string)
    requires n <= |sources|
  {
    exists i :: 0 <= i < n && sources[i].id == id && RepeatsHash(sources, i)
  }

  function Duplicate(s: Source): Finding
  {
    Found(DuplicateSource, Entity(s.id))
  }

  ghost function MarkedFindings(sources: seq<Source>, n: nat): (findings: seq<Finding>)
    requires n <= |sources|
  {
    if n == 0 then []
    else MarkedFindings(sources, n - 1) + (if IsMarked(sources[n - 1]) then [Duplicate(sources[n - 1])] else [])
  }

  /** A repeated hash is reported once per id, and not for an id that is marked anyway. */
  ghost predicate IsReported(sources: seq<Source>, k: nat)
    requires k < |sources|
  {
    RepeatsHash(sources, k) && !MarkedId(sources, |sources|, sources[k].id) && !RepeatedId(sources, k, sources[k].id)
  }

  ghost function HashFindings(sources: seq<Source>, n: nat): (findings: seq<Finding>)
    requires n <= |sources|
  {
    if n == 0 then []
    else HashFindings(sources, n - 1) + (if IsReported(sources, n - 1) then [Duplicate(sources[n - 1])] else [])
  }

  ghost function DuplicateFindings(sources: seq<Source>): (findings: seq<Finding>)
  {
    MarkedFindings(sources, |sources|) + HashFindings(sources, |sources|)
  }

  method CheckMarked(sources: seq<Source>) returns (findings: seq<Finding>, duplicates: set<string>)
    ensures findings == MarkedFindings(sources, |sources|)
    ensures forall id :: id in duplicates <==> MarkedId(sources, |sources|, id)
  {
    findings, duplicates := [], {};
    for i := 0 to |sources|
      invariant findings == MarkedFindings(sources, i)
      invariant forall id :: id in duplicates <==> MarkedId(sources, i, id)
    {
      if IsMarked(sources[i]) {
        duplicates := duplicates + {sources[i].id};
        findings := findings + [Duplicate(sources[i])];
      }
    }
  }

  method CheckHashes(sources: seq<Source>, marked: set<string>) returns (findings: seq<Finding>)
    requires forall id :: id in marked <==> MarkedId(sources, |sources|, id)
    ensures findings == HashFindings(sources, |sources|)
  {
    findings := [];
    var duplicates := marked;
    var first: map<string, Source> := map[];
    hide MarkedId, HashOf, Duplicate;
    for i := 0 to |sources|
      invariant findings == HashFindings(sources, i)
      invariant forall h :: h in first <==> h != "" && exists j :: 0 <= j < i && HashOf(sources[j]) == h
      invariant forall id :: id in duplicates <==> MarkedId(sources, |sources|, id) || RepeatedId(sources, i, id)
    {
      var hash := HashOf(sources[i]);
      assert RepeatsHash(sources, i) <==> hash in first;
      RepeatedNext(sources, i);
      if hash == "" {
        continue;
      }
      if hash !in first {
        first := first[hash := sources[i]];
      } else if sources[i].id !in duplicates {
        duplicates := duplicates + {sources[i].id};
        findings := findings + [Duplicate(sources[i])];
      }
    }
  }

  lemma RepeatedNext(sources: seq<Source>, i: nat)
    requires i < |sources|
    ensures forall id :: RepeatedId(sources, i + 1, id) <==> RepeatedId(sources, i, id) || (id == sources[i].id && RepeatsHash(sources, i))
  {
    forall id
      ensures RepeatedId(sources, i + 1, id) <==> RepeatedId(sources, i, id) || (id == sources[i].id && RepeatsHash(sources, i))
    {
      if RepeatedId(sources, i + 1, id) {
        var k :| 0 <= k < i + 1 && sources[k].id == id && RepeatsHash(sources, k);
        assert k == i || RepeatedId(sources, i, id);
      }
      if id == sources[i].id && RepeatsHash(sources, i) {
        assert RepeatedId(sources, i + 1, id);
      }
    }
  }

  ghost predicate UniqueIds(sources: seq<Source>)
  {
    forall i, j :: 0 <= i < j < |sources| ==> sources[i].id != sources[j].id
  }

  function Occurrences(fs: seq<Finding>, y: Finding): (n: nat)
  {
    multiset(fs)[y]
  }

  lemma {:induction false} MarkedCount(sources: seq<Source>, n: nat, k: nat)
    requires UniqueIds(sources) && n <= |sources| && k < |sources|
    ensures Occurrences(MarkedFindings(sources, n), Duplicate(sources[k])) == One(k < n && IsMarked(sources[k]))
  {
    if n > 0 {
      MarkedCount(sources, n - 1, k);
    }
  }

  lemma HashNone(sources: seq<Source>, y: Finding)
    ensures Occurrences(HashFindings(sources, 0), y) == 0
  {
  }

  lemma HashStep(sources: seq<Source>, n: nat, y: Finding)
    requires 0 < n <= |sources|
    ensures Occurrences(HashFindings(sources, n), y) ==
            Occurrences(HashFindings(sources, n - 1), y) + One(IsReported(sources, n - 1) && Duplicate(sources[n - 1]) == y)
  {
    hide IsReported, Duplicate, Occurrences;
    CountAdded(HashFindings(sources, n - 1), IsReported(sources, n - 1), Duplicate(sources[n - 1]), y);
  }

  lemma {:induction false} HashCount(sources: seq<Source>, n: nat, k: nat)
    requires UniqueIds(sources) && n <= |sources| && k < |sources|
    ensures Occurrences(HashFindings(sources, n), Duplicate(sources[k])) == One(k < n && RepeatsHash(sources, k) && !IsMarked(sources[k]))
  {
    hide HashFindings, IsReported, RepeatsHash, IsMarked, Duplicate, Occurrences, UniqueIds;
    if n == 0 {
      HashNone(sources, Duplicate(sources[k]));
    } else {
      HashCount(sources, n - 1, k);
      HashStep(sources, n, Duplicate(sources[k]));
      OwnId(sources, n - 1);
      SameDuplicate(sources, n - 1, k);
    }
  }

  lemma SameDuplicate(sources: seq<Source>, i: nat, k: nat)
    requires UniqueIds(sources) && i < |sources| && k < |sources|
    ensures Duplicate(sources[i]) == Duplicate(sources[k]) <==> i == k
  {
  }

  lemma CountAdded(fs: seq<Finding>, added: bool, f: Finding, y: Finding)
    ensures Occurrences(fs + (if added then [f] else []), y) == Occurrences(fs, y) + One(added && f == y)
  {
  }

  lemma OwnId(sources: seq<Source>, k: nat)
    requires UniqueIds(sources) && k < |sources|
    ensures IsReported(sources, k) <==> RepeatsHash(sources, k) && !IsMarked(sources[k])
  {
    hide RepeatsHash, IsMarked;
    assert !RepeatedId(sources, k, sources[k].id);
    assert MarkedId(sources, |sources|, sources[k].id) <==> IsMarked(sources[k]);
  }

  /** With unique ids a source is reported exactly once if it is marked or repeats an earlier hash, and otherwise not at all. */
  lemma DuplicateExactlyOnce(sources: seq<Source>, k: nat)
    requires UniqueIds(sources) && k < |sources|
    ensures Occurrences(DuplicateFindings(sources), Duplicate(sources[k])) == One(IsMarked(sources[k]) || RepeatsHash(sources, k))
  {
    MarkedCount(sources, |sources|, k);
    HashCount(sources, |sources|, k);
    hide MarkedFindings, HashFindings, RepeatsHash, IsMarked;
    assert multiset(DuplicateFindings(sources)) == multiset(MarkedFindings(sources, |sources|)) + multiset(HashFindings(sources, |sources|));
  }

  // ---------------------------------------------------------------- concentration

  function Publisher(s: Source): (p: string)
  {
    if s.publisher.Some? then Trim(s.publisher.value) else ""
  }

  /** The publishers of the cited sources that name one. */
  function Publishers(cited: seq<string>, sources: map<string, Source>): (ps: seq<string>)
    requires forall id :: id in cited ==> id in sources
  {
    if cited == [] then []
    else
      var p := Publisher(sources[cited[0]]);
      (if p == "" then [] else [p]) + Publishers(cited[1..], sources)
  }

  ghost function ConcentrationRule(ps: seq<string>): string -> seq<Finding>
  {
    (p: string) => if 2 * multiset(ps)[p] > |ps| then [Found(SourceConcentration, Entity(p))] else []
  }

  ghost function ConcentrationFindings(ps: seq<string>): (findings: seq<Finding>)
  {
    if |ps| < 3 then [] else FlatMap(Distinct(ps), ConcentrationRule(ps))
  }

  ghost predicate Tallies(order: seq<string>, counts: map<string, nat>, ps: seq<string>)
  {
    && order == Distinct(ps) && (forall p :: p in counts <==> p in ps)
    && (forall p :: p in counts ==> counts[p] == multiset(ps)[p])
  }

  lemma TallyNext(order: seq<string>, counts: map<string, nat>, ps: seq<string>, i: nat)
    requires i < |ps| && Tallies(order, counts, ps[..i])
    ensures var p := ps[i];
      if p in counts then Tallies(order, counts[p := counts[p] + 1], ps[..i + 1])
      else Tallies(order + [p], counts[p := 1], ps[..i + 1])
  {
    hide Tallies;
    if ps[i] in counts {
      TallyAgain(order, counts, ps, i);
    } else {
      TallyFirst(order, counts, ps, i);
    }
  }

  lemma TallyAgain(order: seq<string>, counts: map<string, nat>, ps: seq<string>, i: nat)
    requires i < |ps| && Tallies(order, counts, ps[..i]) && ps[i] in counts
    ensures Tallies(order, counts[ps[i] := counts[ps[i]] + 1], ps[..i + 1])
  {
    hide Distinct;
    DistinctNext(ps, i);
    CountNext(ps, i);
    assert forall p :: p in ps[..i + 1] <==> p in ps[..i] || p == ps[i];
  }

  lemma TallyFirst(order: seq<string>, counts: map<string, nat>, ps: seq<string>, i: nat)
    requires i < |ps| && Tallies(order, counts, ps[..i]) && ps[i] !in counts
    ensures Tallies(order + [ps[i]], counts[ps[i] := 1], ps[..i + 1])
  {
    hide Distinct;
    DistinctNext(ps, i);
    CountNext(ps, i);
    assert forall p :: p in ps[..i + 1] <==> p in ps[..i] || p == ps[i];
  }

  lemma DistinctNext(ps: seq<string>, i: nat)
    requires i < |ps|
    ensures Distinct(ps[..i + 1]) == if ps[i] in ps[..i] then Distinct(ps[..i]) else Distinct(ps[..i]) + [ps[i]]
  {
    assert ps[..i + 1][..i] == ps[..i];
  }

  lemma CountNext(ps: seq<string>, i: nat)
    requires i < |ps|
    ensures forall p :: multiset(ps[..i + 1])[p] == multiset(ps[..i])[p] + One(p == ps[i])
    ensures ps[i] !in ps[..i] ==> multiset(ps[..i])[ps[i]] == 0
  {
    assert ps[..i + 1] == ps[..i] + [ps[i]];
  }

  method CountPublishers(ps: seq<string>) returns (order: seq<string>, counts: map<string, nat>)
    ensures Tallies(order, counts, ps)
  {
    order, counts := [], map[];
    assert ps[..0] == [] && ps[..|ps|] == ps;
    assert Tallies(order, counts, ps[..0]);
    hide Tallies;
    for i := 0 to |ps|
      invariant Tallies(order, counts, ps[..i])
    {
      TallyNext(order, counts, ps, i);
      if ps[i] !in counts {
        order := order + [ps[i]];
      }
      counts := counts[ps[i] := (if ps[i] in counts then counts[ps[i]] else 0) + 1];
    }
  }

  method CheckConcentration(ps: seq<string>) returns (findings: seq<Finding>)
    ensures findings == ConcentrationFindings(ps)
  {
    findings := [];
    if |ps| >= 3 {
      var order, counts := CountPublishers(ps);
      hide Distinct, Found;
      for i := 0 to |order|
        invariant findings == FlatMap(order[..i], ConcentrationRule(ps))
      {
        FlatMapNext(order, i, ConcentrationRule(ps));
        assert order[i] in order && order[i] in counts;
        var share := counts[order[i]] as real / |ps| as real;
        assert share > 0.5 <==> 2 * counts[order[i]] > |ps| by {
          Majority(counts[order[i]], |ps|);
        }
        if share > 0.5 {
          findings := findings + [Found(SourceConcentration, Entity(order[i]))];
        }
      }
      assert order[..|order|] == order;
    }
  }

  lemma Majority(count: nat, total: nat)
    requires total > 0
    ensures count as real / total as real > 0.5 <==> 2 * count > total
  {
    var share := count as real / total as real;
    assert share * total as real == count as real;
    Scales(share, 0.5, total as real);
  }

  lemma Scales(a: real, b: real, t: real)
    requires t > 0.0
    ensures a > b <==> a * t > b * t
  {
    assert (a - b) * t == a * t - b * t;
  }

  lemma {:induction false} TwoShares(ps: seq<string>, p: string, q: string)
    requires p != q
    ensures multiset(ps)[p] + multiset(ps)[q] <= |ps|
  {
    if ps != [] {
      var n := |ps| - 1;
      TwoShares(ps[..n], p, q);
      assert ps == ps[..n] + [ps[n]];
    }
  }

  lemma {:induction false} AtMostOneUpTo(ps: seq<string>, names: seq<string>)
    requires forall i, j :: 0 <= i < j < |names| ==> names[i] != names[j]
    ensures |FlatMap(names, ConcentrationRule(ps))| <= 1
    ensures |FlatMap(names, ConcentrationRule(ps))| == 1 ==> exists i :: 0 <= i < |names| && 2 * multiset(ps)[names[i]] > |ps|
  {
    if names != [] {
      AtMostOneUpTo(ps, names[1..]);
      if |FlatMap(names[1..], ConcentrationRule(ps))| == 1 {
        var i :| 0 <= i < |names[1..]| && 2 * multiset(ps)[names[1..][i]] > |ps|;
        assert names[i + 1] == names[1..][i];
        TwoShares(ps, names[0], names[i + 1]);
      }
    }
  }

  /** At most one publisher is ever reported: two shares above one half cannot coexist. */
  lemma AtMostOneConcentration(ps: seq<string>)
    ensures |ConcentrationFindings(ps)| <= 1
    ensures |ConcentrationFindings(ps)| == 1 <==> |ps| >= 3 && exists p :: p in ps && 2 * multiset(ps)[p] > |ps|
  {
    AtMostOneUpTo(ps, Distinct(ps));
    if p :| p in ps && 2 * multiset(ps)[p] > |ps| {
      var i :| 0 <= i < |Distinct(ps)| && Distinct(ps)[i] == p;
      FlatMapMember(Distinct(ps), ConcentrationRule(ps), Found(SourceConcentration, Entity(p)));
    }
    if |FlatMap(Distinct(ps), ConcentrationRule(ps))| == 1 {
      var i :| 0 <= i < |Distinct(ps)| && 2 * multiset(ps)[Distinct(ps)[i]] > |ps|;
      assert Distinct(ps)[i] in ps;
    }
  }
}
