/** The canonical form of a JSON value: object members in key order at every depth. */
module StableJson {
  /** A JSON value; members are listed in the order the object enumerates them. */
  datatype Json =
    | Null
    | Bool(truth: bool)
    | Num(number: real)
    | Str(text: string)
    | Arr(items: seq<Json>)
    | Obj(members: seq<Member>)

  datatype Member = Member(key: string, value: Json)

  /** The order of keys: `leq(a, b)` when `a` may stand before `b`. */
  type Order = (string, string) -> bool

  ghost predicate IsPreorder(leq: Order)
  {
    && (forall a, b :: leq(a, b) || leq(b, a))
    && (forall a, b, c :: leq(a, b) && leq(b, c) ==> leq(a, c))
  }

  ghost predicate IsAntisymmetric(leq: Order)
  {
    forall a, b :: leq(a, b) && leq(b, a) ==> a == b
  }

  // ---------------------------------------------------------------- stable sorting

  function Insert(leq: Order, m: Member, sorted: seq<Member>): (r: seq<Member>)
    ensures forall x :: x in r <==> x == m || x in sorted
    ensures |r| == |sorted| + 1
  {
    if sorted == [] || leq(m.key, sorted[0].key) then [m] + sorted
    else
      assert sorted == [sorted[0]] + sorted[1..];
      [sorted[0]] + Insert(leq, m, sorted[1..])
  }

  /** The stable sort by key: of members whose keys tie, the earlier stays earlier. */
  function Sort(leq: Order, members: seq<Member>): (r: seq<Member>)
    ensures forall x :: x in r <==> x in members
    ensures |r| == |members|
  {
    if members == [] then []
    else
      assert members == [members[0]] + members[1..];
      Insert(leq, members[0], Sort(leq, members[1..]))
  }

  ghost predicate IsSorted(leq: Order, members: seq<Member>)
  {
    forall i, j :: 0 <= i < j < |members| ==> leq(members[i].key, members[j].key)
  }

  ghost predicate UniqueKeys(members: seq<Member>)
  {
    forall i, j :: 0 <= i < j < |members| ==> members[i].key != members[j].key
  }

  ghost predicate AllAfter(leq: Order, m: Member, members: seq<Member>)
  {
    forall x :: x in members ==> leq(m.key, x.key)
  }

  lemma SortedCons(leq: Order, m: Member, members: seq<Member>)
    requires AllAfter(leq, m, members) && IsSorted(leq, members)
    ensures IsSorted(leq, [m] + members)
  {
    var all := [m] + members;
    forall i, j | 0 <= i < j < |all| ensures leq(all[i].key, all[j].key) {
      assert all[j] == members[j - 1];
      assert i > 0 ==> all[i] == members[i - 1];
    }
  }

  lemma {:induction false} InsertSorted(leq: Order, m: Member, sorted: seq<Member>)
    requires IsPreorder(leq) && IsSorted(leq, sorted)
    ensures IsSorted(leq, Insert(leq, m, sorted))
  {
    if sorted == [] {
    } else if leq(m.key, sorted[0].key) {
      forall x | x in sorted ensures leq(m.key, x.key) {
        var k :| 0 <= k < |sorted| && sorted[k] == x;
        assert k > 0 ==> leq(sorted[0].key, sorted[k].key);
      }
      SortedCons(leq, m, sorted);
    } else {
      var rest := sorted[1..];
      assert forall i :: 0 <= i < |rest| ==> rest[i] == sorted[i + 1];
      InsertSorted(leq, m, rest);
      forall x | x in Insert(leq, m, rest) ensures leq(sorted[0].key, x.key) {
        if x in rest {
          var k :| 0 <= k < |rest| && rest[k] == x;
          assert x == sorted[k + 1];
        }
      }
      SortedCons(leq, sorted[0], Insert(leq, m, rest));
    }
  }

  lemma {:induction false} SortSorts(leq: Order, members: seq<Member>)
    requires IsPreorder(leq)
    ensures IsSorted(leq, Sort(leq, members))
  {
    if members != [] {
      SortSorts(leq, members[1..]);
      InsertSorted(leq, members[0], Sort(leq, members[1..]));
    }
  }

  /** A list already in order is left as it is, ties included. */
  lemma {:induction false} SortOfSorted(leq: Order, members: seq<Member>)
    requires IsSorted(leq, members)
    ensures Sort(leq, members) == members
  {
    if members != [] {
      var rest := members[1..];
      assert forall i :: 0 <= i < |rest| ==> rest[i] == members[i + 1];
      SortOfSorted(leq, rest);
      assert members == [members[0]] + rest;
      assert rest != [] ==> leq(members[0].key, members[1].key);
    }
  }

  lemma {:induction false} InsertUnique(leq: Order, m: Member, sorted: seq<Member>)
    requires UniqueKeys(sorted) && forall x :: x in sorted ==> x.key != m.key
    ensures UniqueKeys(Insert(leq, m, sorted))
  {
    if sorted != [] && !leq(m.key, sorted[0].key) {
      var rest := sorted[1..];
      assert forall i :: 0 <= i < |rest| ==> rest[i] == sorted[i + 1];
      InsertUnique(leq, m, rest);
      var inserted := Insert(leq, m, rest);
      forall x | x in inserted ensures x.key != sorted[0].key {
        if x in rest {
          var k :| 0 <= k < |rest| && rest[k] == x;
          assert x == sorted[k + 1];
        }
      }
      UniqueCons(sorted[0], inserted);
    } else {
      UniqueCons(m, sorted);
    }
  }

  lemma UniqueCons(m: Member, members: seq<Member>)
    requires UniqueKeys(members) && forall x :: x in members ==> x.key != m.key
    ensures UniqueKeys([m] + members)
  {
    var all := [m] + members;
    forall i, j | 0 <= i < j < |all| ensures all[i].key != all[j].key {
      assert all[j] == members[j - 1] && all[j] in members;
      assert i > 0 ==> all[i] == members[i - 1];
    }
  }

  lemma {:induction false} SortUnique(leq: Order, members: seq<Member>)
    requires UniqueKeys(members)
    ensures UniqueKeys(Sort(leq, members))
  {
    if members != [] {
      var rest := members[1..];
      assert forall i :: 0 <= i < |rest| ==> rest[i] == members[i + 1];
      SortUnique(leq, rest);
      forall x | x in Sort(leq, rest) ensures x.key != members[0].key {
        assert x in rest;
        var k :| 0 <= k < |rest| && rest[k] == x;
        assert x == members[k + 1];
      }
      InsertUnique(leq, members[0], Sort(leq, rest));
    }
  }

  /** No two different keys compare as equal. */
  ghost predicate NoTies(leq: Order, members: seq<Member>)
  {
    forall x, y :: x in members && y in members && leq(x.key, y.key) && leq(y.key, x.key) ==> x.key == y.key
  }

  /** Without ties a sorted list with distinct keys is determined by its elements. */
  lemma {:induction false} SortedDetermined(leq: Order, xs: seq<Member>, ys: seq<Member>)
    requires NoTies(leq, xs) && IsSorted(leq, xs) && IsSorted(leq, ys) && UniqueKeys(xs) && UniqueKeys(ys)
    requires forall m :: m in xs <==> m in ys
    ensures xs == ys
  {
    HasMember(ys);
    if xs != [] {
      FirstAgrees(leq, xs, ys);
      SameTails(xs, ys);
      var xt, yt := xs[1..], ys[1..];
      assert forall k :: 0 <= k < |xt| ==> xt[k] == xs[k + 1];
      assert forall k :: 0 <= k < |yt| ==> yt[k] == ys[k + 1];
      TailWithoutTies(leq, xs);
      hide NoTies;
      SortedDetermined(leq, xt, yt);
      assert xs == [xs[0]] + xt && ys == [ys[0]] + yt;
    }
  }

  lemma TailWithoutTies(leq: Order, xs: seq<Member>)
    requires xs != [] && NoTies(leq, xs)
    ensures NoTies(leq, xs[1..])
  {
    assert forall m :: m in xs[1..] ==> m in xs;
  }

  lemma FirstAgrees(leq: Order, xs: seq<Member>, ys: seq<Member>)
    requires xs != [] && NoTies(leq, xs) && IsSorted(leq, xs) && IsSorted(leq, ys) && UniqueKeys(ys)
    requires forall m :: m in xs <==> m in ys
    ensures ys != [] && xs[0] == ys[0]
  {
    assert xs[0] in ys;
    var j :| 0 <= j < |ys| && ys[j] == xs[0];
    assert ys[0] in xs;
    var i :| 0 <= i < |xs| && xs[i] == ys[0];
    assert leq(ys[0].key, xs[0].key) || j == 0;
    assert leq(xs[0].key, ys[0].key) || i == 0;
    assert ys[0].key == xs[0].key || j == 0 || i == 0;
  }

  lemma HasMember(ys: seq<Member>)
    ensures ys == [] || exists m :: m in ys
  {
    if ys != [] {
      assert ys[0] in ys;
    }
  }

  lemma SameTails(xs: seq<Member>, ys: seq<Member>)
    requires xs != [] && ys != [] && xs[0] == ys[0] && UniqueKeys(xs) && UniqueKeys(ys)
    requires forall m :: m in xs <==> m in ys
    ensures forall m :: m in xs[1..] <==> m in ys[1..]
  {
    TailMembers(xs);
    TailMembers(ys);
  }

  lemma TailMembers(xs: seq<Member>)
    requires xs != [] && UniqueKeys(xs)
    ensures forall m :: m in xs[1..] <==> m in xs && m != xs[0]
  {
    assert xs == [xs[0]] + xs[1..];
    forall m | m in xs[1..] ensures m != xs[0] {
      var k :| 0 <= k < |xs[1..]| && xs[1..][k] == m;
      assert m == xs[k + 1];
    }
  }

  // ---------------------------------------------------------------- the canonical form

  /** `stableValue`. */
  function StableValue(leq: Order, v: Json): (r: Json)
    decreases v, 0
  {
    match v
    case Arr(items) => Arr(StableItems(leq, items))
    case Obj(members) => Obj(Sort(leq, StableMembers(leq, members)))
    case _ => v
  }

  function StableItems(leq: Order, items: seq<Json>): (r: seq<Json>)
    ensures |r| == |items| && forall i :: 0 <= i < |r| ==> r[i] == StableValue(leq, items[i])
    decreases items, 1
  {
    if items == [] then [] else [StableValue(leq, items[0])] + StableItems(leq, items[1..])
  }

  function StableMembers(leq: Order, members: seq<Member>): (r: seq<Member>)
    ensures |r| == |members|
    ensures forall i :: 0 <= i < |r| ==> r[i] == Member(members[i].key, StableValue(leq, members[i].value))
    decreases members, 1
  {
    if members == [] then []
    else [Member(members[0].key, StableValue(leq, members[0].value))] + StableMembers(leq, members[1..])
  }

  /** An object has each key once, at every depth. */
  ghost predicate WellFormed(v: Json)
  {
    match v
    case Arr(items) => forall i :: 0 <= i < |items| ==> WellFormed(items[i])
    case Obj(members) => UniqueKeys(members) && forall i :: 0 <= i < |members| ==> WellFormed(members[i].value)
    case _ => true
  }

  /** No object, at any depth, has two different keys that compare as equal. */
  ghost predicate TieFree(leq: Order, v: Json)
  {
    match v
    case Arr(items) => forall i :: 0 <= i < |items| ==> TieFree(leq, items[i])
    case Obj(members) => NoTies(leq, members) && forall i :: 0 <= i < |members| ==> TieFree(leq, members[i].value)
    case _ => true
  }

  /** Equal but for the order of members, at every depth. */
  ghost predicate Same(a: Json, b: Json)
    decreases a, 3
  {
    match (a, b)
    case (Arr(xs), Arr(ys)) => |xs| == |ys| && forall i :: 0 <= i < |xs| ==> Same(xs[i], ys[i])
    case (Obj(xs), Obj(ys)) => Pairs(xs, ys)
    case _ => a == b && !a.Arr? && !a.Obj?
  }

  /** Each member has its counterpart on the other side. */
  ghost predicate Pairs(xs: seq<Member>, ys: seq<Member>)
    decreases xs, 2
  {
    (forall i :: 0 <= i < |xs| ==> Finds(xs[i], ys)) && (forall j :: 0 <= j < |ys| ==> IsFound(xs, ys[j]))
  }

  ghost predicate Finds(x: Member, ys: seq<Member>)
    decreases x, 1
  {
    exists j :: 0 <= j < |ys| && Agree(x, ys[j])
  }

  ghost predicate IsFound(xs: seq<Member>, y: Member)
    decreases xs, 1
  {
    exists i :: 0 <= i < |xs| && Agree(xs[i], y)
  }

  ghost predicate Agree(x: Member, y: Member)
    decreases x, 0
  {
    x.key == y.key && Same(x.value, y.value)
  }

  function StableMember(leq: Order, m: Member): (r: Member)
  {
    Member(m.key, StableValue(leq, m.value))
  }

  /** Equal canonical forms are what agreement means for these members. */
  ghost predicate FormsDecide(leq: Order, xs: seq<Member>, ys: seq<Member>)
  {
    forall i, j :: 0 <= i < |xs| && 0 <= j < |ys| ==> (StableMember(leq, xs[i]) == StableMember(leq, ys[j]) <==> Agree(xs[i], ys[j]))
  }

  /** A tree without ties has the form of another tree if and only if the two are equal up to member order. */
  lemma {:induction false} StableIff(leq: Order, a: Json, b: Json)
    requires IsPreorder(leq) && WellFormed(a) && WellFormed(b) && TieFree(leq, a)
    ensures StableValue(leq, a) == StableValue(leq, b) <==> Same(a, b)
    decreases a
  {
    match (a, b)
    case (Arr(xs), Arr(ys)) =>
      if |xs| == |ys| {
        forall i | 0 <= i < |xs| ensures StableValue(leq, xs[i]) == StableValue(leq, ys[i]) <==> Same(xs[i], ys[i]) {
          StableIff(leq, xs[i], ys[i]);
        }
      }
    case (Obj(xs), Obj(ys)) =>
      forall i, j | 0 <= i < |xs| && 0 <= j < |ys|
        ensures StableMember(leq, xs[i]) == StableMember(leq, ys[j]) <==> Agree(xs[i], ys[j])
      {
        StableIff(leq, xs[i].value, ys[j].value);
      }
      SameMembers(leq, xs, ys);
    case _ =>
  }

  ghost predicate SameSet(ss: seq<Member>, ts: seq<Member>)
  {
    forall m :: m in ss <==> m in ts
  }

  lemma SameMembers(leq: Order, xs: seq<Member>, ys: seq<Member>)
    requires IsPreorder(leq) && NoTies(leq, xs) && UniqueKeys(xs) && UniqueKeys(ys) && FormsDecide(leq, xs, ys)
    ensures Sort(leq, StableMembers(leq, xs)) == Sort(leq, StableMembers(leq, ys)) <==> Pairs(xs, ys)
  {
    var ss, ts := StableMembers(leq, xs), StableMembers(leq, ys);
    SameElements(leq, xs, ys);
    assert UniqueKeys(ss) && UniqueKeys(ts);
    FormsWithoutTies(leq, xs);
    hide StableMembers, FormsDecide, Pairs, NoTies;
    if Sort(leq, ss) == Sort(leq, ts) {
      assert forall m :: m in Sort(leq, ss) <==> m in ss;
      assert forall m :: m in Sort(leq, ts) <==> m in ts;
    }
    if Pairs(xs, ys) {
      SortSorts(leq, ss);
      SortSorts(leq, ts);
      SortUnique(leq, ss);
      SortUnique(leq, ts);
      SortedDetermined(leq, Sort(leq, ss), Sort(leq, ts));
    }
  }

  lemma FormsWithoutTies(leq: Order, xs: seq<Member>)
    requires NoTies(leq, xs)
    ensures NoTies(leq, Sort(leq, StableMembers(leq, xs)))
  {
    var ss := StableMembers(leq, xs);
    hide StableMembers, Sort;
    forall x, y | x in Sort(leq, ss) && y in Sort(leq, ss) && leq(x.key, y.key) && leq(y.key, x.key) ensures x.key == y.key {
      var i :| 0 <= i < |ss| && ss[i] == x;
      var j :| 0 <= j < |ss| && ss[j] == y;
      assert xs[i] in xs && xs[j] in xs;
    }
  }

  lemma SameElements(leq: Order, xs: seq<Member>, ys: seq<Member>)
    requires FormsDecide(leq, xs, ys)
    ensures SameSet(StableMembers(leq, xs), StableMembers(leq, ys)) <==> Pairs(xs, ys)
  {
    var ss, ts := StableMembers(leq, xs), StableMembers(leq, ys);
    assert forall i :: 0 <= i < |xs| ==> ss[i] == StableMember(leq, xs[i]);
    assert forall j :: 0 <= j < |ys| ==> ts[j] == StableMember(leq, ys[j]);
    hide StableMembers, StableMember, Agree, Same, Pairs, SameSet, FormsDecide;
    if SameSet(ss, ts) {
      PairsFromElements(leq, xs, ys, ss, ts);
    }
    if Pairs(xs, ys) {
      ElementsFromPairs(leq, xs, ys, ss, ts);
    }
  }

  lemma PairsFromElements(leq: Order, xs: seq<Member>, ys: seq<Member>, ss: seq<Member>, ts: seq<Member>)
    requires FormsDecide(leq, xs, ys) && |ss| == |xs| && |ts| == |ys|
    requires forall i :: 0 <= i < |xs| ==> ss[i] == StableMember(leq, xs[i])
    requires forall j :: 0 <= j < |ys| ==> ts[j] == StableMember(leq, ys[j])
    requires SameSet(ss, ts)
    ensures Pairs(xs, ys)
  {
    hide StableMember, Agree;
    forall i | 0 <= i < |xs| ensures Finds(xs[i], ys) {
      assert ss[i] in ts;
      var j :| 0 <= j < |ts| && ts[j] == ss[i];
      assert Agree(xs[i], ys[j]);
    }
    forall j | 0 <= j < |ys| ensures IsFound(xs, ys[j]) {
      assert ts[j] in ss;
      var i :| 0 <= i < |ss| && ss[i] == ts[j];
      assert Agree(xs[i], ys[j]);
    }
  }

  lemma ElementsFromPairs(leq: Order, xs: seq<Member>, ys: seq<Member>, ss: seq<Member>, ts: seq<Member>)
    requires FormsDecide(leq, xs, ys) && |ss| == |xs| && |ts| == |ys|
    requires forall i :: 0 <= i < |xs| ==> ss[i] == StableMember(leq, xs[i])
    requires forall j :: 0 <= j < |ys| ==> ts[j] == StableMember(leq, ys[j])
    requires Pairs(xs, ys)
    ensures SameSet(ss, ts)
  {
    hide StableMember, Agree;
    hide Finds, IsFound;
    forall i | 0 <= i < |ss| ensures ss[i] in ts {
      var j := PartnerOf(xs[i], ys);
      assert StableMember(leq, xs[i]) == StableMember(leq, ys[j]);
    }
    forall j | 0 <= j < |ts| ensures ts[j] in ss {
      var i := FinderOf(xs, ys[j]);
      assert StableMember(leq, xs[i]) == StableMember(leq, ys[j]);
    }
  }

  lemma PartnerOf(x: Member, ys: seq<Member>) returns (j: nat)
    requires Finds(x, ys)
    ensures j < |ys| && Agree(x, ys[j])
  {
    hide Agree;
    j :| 0 <= j < |ys| && Agree(x, ys[j]);
  }

  lemma FinderOf(xs: seq<Member>, y: Member) returns (i: nat)
    requires IsFound(xs, y)
    ensures i < |xs| && Agree(xs[i], y)
  {
    hide Agree;
    i :| 0 <= i < |xs| && Agree(xs[i], y);
  }

  /** Stable under itself: the canonical form of a canonical form is the form itself, for any total preorder. */
  lemma {:induction false} Idempotent(leq: Order, v: Json)
    requires IsPreorder(leq)
    ensures StableValue(leq, StableValue(leq, v)) == StableValue(leq, v)
    decreases v
  {
    match v
    case Arr(items) =>
      forall i | 0 <= i < |items| ensures StableValue(leq, StableValue(leq, items[i])) == StableValue(leq, items[i]) {
        Idempotent(leq, items[i]);
      }
      assert StableItems(leq, StableItems(leq, items)) == StableItems(leq, items);
    case Obj(members) =>
      var stable := StableMembers(leq, members);
      forall i | 0 <= i < |members|
        ensures StableValue(leq, StableValue(leq, members[i].value)) == StableValue(leq, members[i].value)
      {
        Idempotent(leq, members[i].value);
      }
      var sorted := Sort(leq, stable);
      forall i | 0 <= i < |sorted| ensures StableValue(leq, sorted[i].value) == sorted[i].value {
        assert sorted[i] in stable;
        var k :| 0 <= k < |stable| && stable[k] == sorted[i];
      }
      assert StableMembers(leq, sorted) == sorted;
      SortSorts(leq, stable);
      SortOfSorted(leq, sorted);
    case _ =>
  }

  // ---------------------------------------------------------------- which trees have one form

  /** Equal forms always mean equal up to member order, whatever the order of keys. */
  lemma {:induction false} EqualFormsAreSame(leq: Order, a: Json, b: Json)
    requires StableValue(leq, a) == StableValue(leq, b)
    ensures Same(a, b)
    decreases a
  {
    match (a, b)
    case (Arr(xs), Arr(ys)) =>
      assert StableItems(leq, xs) == StableItems(leq, ys);
      forall i | 0 <= i < |xs| ensures Same(xs[i], ys[i]) {
        assert StableItems(leq, xs)[i] == StableItems(leq, ys)[i];
        EqualFormsAreSame(leq, xs[i], ys[i]);
      }
    case (Obj(xs), Obj(ys)) =>
      var ss, ts := StableMembers(leq, xs), StableMembers(leq, ys);
      assert Sort(leq, ss) == Sort(leq, ts);
      forall i | 0 <= i < |xs| ensures Finds(xs[i], ys) {
        assert ss[i] in Sort(leq, ts);
        var j :| 0 <= j < |ts| && ts[j] == ss[i];
        EqualFormsAreSame(leq, xs[i].value, ys[j].value);
        assert Agree(xs[i], ys[j]);
      }
      forall j | 0 <= j < |ys| ensures IsFound(xs, ys[j]) {
        assert ts[j] in Sort(leq, ss);
        var i :| 0 <= i < |ss| && ss[i] == ts[j];
        EqualFormsAreSame(leq, xs[i].value, ys[j].value);
        assert Agree(xs[i], ys[j]);
      }
    case _ =>
  }

  lemma {:induction false} SameReflexive(v: Json)
    ensures Same(v, v)
  {
    match v
    case Arr(items) =>
      forall i | 0 <= i < |items| ensures Same(items[i], items[i]) {
        SameReflexive(items[i]);
      }
    case Obj(members) =>
      forall i | 0 <= i < |members| ensures Finds(members[i], members) && IsFound(members, members[i]) {
        SameReflexive(members[i].value);
        assert Agree(members[i], members[i]);
      }
    case _ =>
  }

  ghost predicate Before(xs: seq<Member>, x: Member, y: Member)
  {
    exists i, j :: 0 <= i < j < |xs| && xs[i] == x && xs[j] == y
  }

  lemma BeforeCons(m: Member, xs: seq<Member>, x: Member, y: Member)
    requires (x == m && y in xs) || Before(xs, x, y)
    ensures Before([m] + xs, x, y)
  {
    var all := [m] + xs;
    assert forall k :: 0 <= k < |xs| ==> all[k + 1] == xs[k];
    if x == m && y in xs {
      var j :| 0 <= j < |xs| && xs[j] == y;
      assert all[0] == x && all[j + 1] == y;
    } else {
      var i, j :| 0 <= i < j < |xs| && xs[i] == x && xs[j] == y;
      assert all[i + 1] == x && all[j + 1] == y;
    }
  }

  /** Inserting keeps the order of what is there, and puts a member before every one it need not follow. */
  lemma {:induction false} InsertBefore(leq: Order, m: Member, sorted: seq<Member>, x: Member, y: Member)
    requires (x == m && y in sorted && leq(m.key, y.key)) || Before(sorted, x, y)
    ensures Before(Insert(leq, m, sorted), x, y)
  {
    assert sorted != [];
    if leq(m.key, sorted[0].key) {
      BeforeCons(m, sorted, x, y);
    } else {
      var rest := sorted[1..];
      assert sorted == [sorted[0]] + rest;
      if x == m && y in sorted && leq(m.key, y.key) {
        InsertBefore(leq, m, rest, x, y);
      } else {
        var i, j :| 0 <= i < j < |sorted| && sorted[i] == x && sorted[j] == y;
        assert rest[j - 1] == y;
        if i > 0 {
          assert rest[i - 1] == x;
          InsertBefore(leq, m, rest, x, y);
        }
      }
      BeforeCons(sorted[0], Insert(leq, m, rest), x, y);
    }
  }

  /** The sort is stable: a member stays before every later one it may precede. */
  lemma {:induction false} SortIsStable(leq: Order, xs: seq<Member>, i: nat, j: nat)
    requires i < j < |xs| && leq(xs[i].key, xs[j].key)
    ensures Before(Sort(leq, xs), xs[i], xs[j])
  {
    var rest := xs[1..];
    assert rest[j - 1] == xs[j];
    if i > 0 {
      assert rest[i - 1] == xs[i];
      SortIsStable(leq, rest, i - 1, j - 1);
    }
    InsertBefore(leq, xs[0], Sort(leq, rest), xs[i], xs[j]);
  }

  lemma NotBothBefore(xs: seq<Member>, x: Member, y: Member)
    requires UniqueKeys(xs) && Before(xs, x, y)
    ensures !Before(xs, y, x)
  {
  }

  ghost function Swap(xs: seq<Member>, i: nat, j: nat): (ys: seq<Member>)
    requires i < j < |xs|
    ensures |ys| == |xs| && ys[i] == xs[j] && ys[j] == xs[i]
    ensures forall k :: 0 <= k < |xs| && k != i && k != j ==> ys[k] == xs[k]
  {
    xs[i := xs[j]][j := xs[i]]
  }

  lemma AgreeReflexive(m: Member)
    ensures Agree(m, m)
  {
    SameReflexive(m.value);
  }

  lemma FindsAt(x: Member, ys: seq<Member>, j: nat)
    requires j < |ys| && Agree(x, ys[j])
    ensures Finds(x, ys)
  {
    hide Agree;
  }

  lemma IsFoundAt(xs: seq<Member>, y: Member, i: nat)
    requires i < |xs| && Agree(xs[i], y)
    ensures IsFound(xs, y)
  {
    hide Agree;
  }

  lemma SwapPairs(xs: seq<Member>, i: nat, j: nat)
    requires i < j < |xs|
    ensures Pairs(xs, Swap(xs, i, j))
  {
    var ys := Swap(xs, i, j);
    hide Agree, Finds, IsFound;
    forall k | 0 <= k < |xs| ensures Finds(xs[k], ys) && IsFound(xs, ys[k]) {
      var other := if k == i then j else if k == j then i else k;
      AgreeReflexive(xs[k]);
      AgreeReflexive(xs[other]);
      FindsAt(xs[k], ys, other);
      IsFoundAt(xs, ys[k], other);
    }
  }

  lemma SwapUnique(xs: seq<Member>, i: nat, j: nat)
    requires UniqueKeys(xs) && i < j < |xs|
    ensures UniqueKeys(Swap(xs, i, j))
  {
  }

  lemma FormsUnique(leq: Order, xs: seq<Member>)
    requires UniqueKeys(xs)
    ensures UniqueKeys(StableMembers(leq, xs))
  {
  }

  /** Swapping two members whose keys tie gives an equal object with another form. */
  lemma SwapTied(leq: Order, xs: seq<Member>, i: nat, j: nat)
    requires UniqueKeys(xs) && i < j < |xs| && leq(xs[i].key, xs[j].key) && leq(xs[j].key, xs[i].key)
    ensures Sort(leq, StableMembers(leq, xs)) != Sort(leq, StableMembers(leq, Swap(xs, i, j)))
  {
    var ys := Swap(xs, i, j);
    var ss, ts := StableMembers(leq, xs), StableMembers(leq, ys);
    FormsUnique(leq, xs);
    hide StableMembers, UniqueKeys, Sort, StableValue, Before;
    assert ts[i] == ss[j] && ts[j] == ss[i];
    SortIsStable(leq, ss, i, j);
    SortIsStable(leq, ts, i, j);
    SortUnique(leq, ss);
    NotBothBefore(Sort(leq, ss), ss[i], ss[j]);
  }

  ghost function WithValue(xs: seq<Member>, i: nat, c: Json): (ys: seq<Member>)
    requires i < |xs|
    ensures |ys| == |xs| && ys[i] == Member(xs[i].key, c) && forall k :: 0 <= k < |xs| && k != i ==> ys[k] == xs[k]
    ensures UniqueKeys(xs) ==> UniqueKeys(ys)
  {
    xs[i := Member(xs[i].key, c)]
  }

  lemma ValuePairs(xs: seq<Member>, i: nat, c: Json)
    requires i < |xs| && Same(xs[i].value, c)
    ensures Pairs(xs, WithValue(xs, i, c))
  {
    var ys := WithValue(xs, i, c);
    assert Agree(xs[i], ys[i]);
    hide Agree, Finds, IsFound, Same;
    forall k | 0 <= k < |xs| ensures Finds(xs[k], ys) && IsFound(xs, ys[k]) {
      AgreeReflexive(xs[k]);
      FindsAt(xs[k], ys, k);
      IsFoundAt(xs, ys[k], k);
    }
  }

  /** Replacing a value by one of another form gives an object of another form. */
  lemma ValueChangesForm(leq: Order, xs: seq<Member>, i: nat, c: Json)
    requires UniqueKeys(xs) && i < |xs| && StableValue(leq, xs[i].value) != StableValue(leq, c)
    ensures Sort(leq, StableMembers(leq, xs)) != Sort(leq, StableMembers(leq, WithValue(xs, i, c)))
  {
    var ys := WithValue(xs, i, c);
    var ss, ts := StableMembers(leq, xs), StableMembers(leq, ys);
    hide StableMembers, StableValue, Sort;
    assert ss[i] in ss && ss[i] in Sort(leq, ss);
    assert ss[i] !in ts by {
      forall k | 0 <= k < |ts| ensures ts[k] != ss[i] {
        assert k != i ==> ys[k].key == xs[k].key != xs[i].key;
      }
    }
    assert ss[i] !in Sort(leq, ts);
  }

  lemma ItemChanges(leq: Order, items: seq<Json>, i: nat, c: Json)
    requires i < |items| && Same(items[i], c) && StableValue(leq, items[i]) != StableValue(leq, c)
    ensures Same(Arr(items), Arr(items[i := c])) && StableItems(leq, items) != StableItems(leq, items[i := c])
  {
    var others := items[i := c];
    hide StableValue, StableItems;
    forall k | 0 <= k < |items| ensures Same(items[k], others[k]) {
      SameReflexive(items[k]);
    }
    assert StableItems(leq, items)[i] != StableItems(leq, others)[i];
  }

  /** A tie anywhere in a tree gives an equal tree with another form. */
  lemma {:induction false} Disturb(leq: Order, a: Json) returns (b: Json)
    requires WellFormed(a) && !TieFree(leq, a)
    ensures WellFormed(b) && Same(a, b) && StableValue(leq, a) != StableValue(leq, b)
    decreases a
  {
    hide Same, StableItems, StableMembers, Sort, Pairs, UniqueKeys, NoTies;
    match a
    case Arr(items) =>
      var i :| 0 <= i < |items| && !TieFree(leq, items[i]);
      var c := Disturb(leq, items[i]);
      b := Arr(items[i := c]);
      ItemChanges(leq, items, i, c);
    case Obj(members) =>
      if i :| 0 <= i < |members| && !TieFree(leq, members[i].value) {
        var c := Disturb(leq, members[i].value);
        b := Obj(WithValue(members, i, c));
        ValuePairs(members, i, c);
        ValueChangesForm(leq, members, i, c);
        SameObjects(members, b.members);
      } else {
        var i, j := TiedPair(leq, members);
        b := Obj(Swap(members, i, j));
        SwapUnique(members, i, j);
        SwapPairs(members, i, j);
        SwapTied(leq, members, i, j);
        SameObjects(members, b.members);
      }
    case _ =>
  }

  lemma SameObjects(xs: seq<Member>, ys: seq<Member>)
    ensures Same(Obj(xs), Obj(ys)) <==> Pairs(xs, ys)
  {
  }

  lemma FlatObject(xs: seq<Member>)
    requires UniqueKeys(xs) && forall i :: 0 <= i < |xs| ==> xs[i].value == Null
    ensures WellFormed(Obj(xs))
  {
  }

  lemma TiedPair(leq: Order, xs: seq<Member>) returns (i: nat, j: nat)
    requires !NoTies(leq, xs)
    ensures i < j < |xs| && leq(xs[i].key, xs[j].key) && leq(xs[j].key, xs[i].key)
  {
    var x, y :| x in xs && y in xs && leq(x.key, y.key) && leq(y.key, x.key) && x.key != y.key;
    var k :| 0 <= k < |xs| && xs[k] == x;
    var l :| 0 <= l < |xs| && xs[l] == y;
    i, j := if k < l then k else l, if k < l then l else k;
  }

  /** The form of this tree tells exactly the trees that equal it up to member order. */
  ghost predicate HasOneForm(leq: Order, a: Json)
  {
    forall b :: WellFormed(b) ==> (StableValue(leq, a) == StableValue(leq, b) <==> Same(a, b))
  }

  /** For a total preorder, a tree has one form if and only if no object in it has two keys that compare as equal. */
  lemma OneFormIff(leq: Order, a: Json)
    requires IsPreorder(leq) && WellFormed(a)
    ensures HasOneForm(leq, a) <==> TieFree(leq, a)
  {
    hide StableValue, Same, WellFormed, IsPreorder, TieFree;
    if TieFree(leq, a) {
      forall b | WellFormed(b) ensures StableValue(leq, a) == StableValue(leq, b) <==> Same(a, b) {
        StableIff(leq, a, b);
      }
    } else {
      var b := Disturb(leq, a);
    }
  }

  lemma {:induction false} AntisymmetricTieFree(leq: Order, v: Json)
    requires IsAntisymmetric(leq)
    ensures TieFree(leq, v)
  {
    match v
    case Arr(items) =>
      forall i | 0 <= i < |items| ensures TieFree(leq, items[i]) {
        AntisymmetricTieFree(leq, items[i]);
      }
    case Obj(members) =>
      forall i | 0 <= i < |members| ensures TieFree(leq, members[i].value) {
        AntisymmetricTieFree(leq, members[i].value);
      }
    case _ =>
  }

  /** All trees have one form exactly when no two different keys compare as equal. */
  lemma CanonicalIff(leq: Order)
    requires IsPreorder(leq)
    ensures (forall a :: WellFormed(a) ==> HasOneForm(leq, a)) <==> IsAntisymmetric(leq)
  {
    if IsAntisymmetric(leq) {
      hide HasOneForm, WellFormed, IsAntisymmetric;
      forall a | WellFormed(a) ensures HasOneForm(leq, a) {
        AntisymmetricTieFree(leq, a);
        OneFormIff(leq, a);
      }
    } else {
      var k, l :| leq(k, l) && leq(l, k) && k != l;
      var members := [Member(k, Null), Member(l, Null)];
      var x, y := members[0], members[1];
      assert x in members && y in members && leq(x.key, y.key) && leq(y.key, x.key) && x.key != y.key;
      assert !NoTies(leq, members);
      FlatObject(members);
      hide HasOneForm, NoTies, WellFormed;
      OneFormIff(leq, Obj(members));
    }
  }
}
