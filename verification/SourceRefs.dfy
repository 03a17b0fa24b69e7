/** Source references inside a provider output. */
module SourceRefs {
  import opened Prelude
  import opened StableJson

  /** The ids cited in a text, in order: the bracketed citations the pattern finds. */
  type Citations = string -> seq<string>

  predicate IsProse(key: Option<string>)
  {
    key == Some("markdown") || key == Some("revisedText")
  }

  predicate IsIdList(key: Option<string>)
  {
    key == Some("sourceIds") || key == Some("citationSourceIds")
  }

  predicate IsDirect(m: Member)
  {
    m.key == "sourceId" && m.value.Str?
  }

  /** Which ids a value refers to, said of the tree: in prose, in an id list, or in a `sourceId` member, at any depth. */
  ghost predicate Refers(cited: Citations, v: Json, key: Option<string>, id: string)
    decreases v
  {
    match v
    case Str(text) => (key == Some("markdown") || key == Some("revisedText")) && id in cited(text)
    case Arr(items) =>
      if key == Some("sourceIds") || key == Some("citationSourceIds") then Str(id) in items else exists i :: 0 <= i < |items| && Refers(cited, items[i], None, id)
    case Obj(members) => exists i :: 0 <= i < |members| && MemberRefers(cited, members[i], id)
    case _ => false
  }

  ghost predicate MemberRefers(cited: Citations, m: Member, id: string)
    decreases m
  {
    if m.key == "sourceId" && m.value.Str? then m.value == Str(id) else Refers(cited, m.value, Some(m.key), id)
  }

  // ---------------------------------------------------------------- what the traversal lists

  function IdOf(v: Json): (ids: seq<string>)
  {
    if v.Str? then [v.text] else []
  }

  function ListedIds(items: seq<Json>): (ids: seq<string>)
    ensures forall id :: id in ids <==> Str(id) in items
  {
    if items == [] then []
    else
      assert items == [items[0]] + items[1..];
      IdOf(items[0]) + ListedIds(items[1..])
  }

  function Listed(cited: Citations, v: Json, key: Option<string>): (ids: seq<string>)
    decreases v, 0
  {
    match v
    case Str(text) => if IsProse(key) then cited(text) else []
    case Arr(items) => if IsIdList(key) then ListedIds(items) else ListedItems(cited, items)
    case Obj(members) => ListedMembers(cited, members)
    case _ => []
  }

  function ListedItems(cited: Citations, items: seq<Json>): (ids: seq<string>)
    decreases items, 1
  {
    if items == [] then [] else Listed(cited, items[0], None) + ListedItems(cited, items[1..])
  }

  function ListedMembers(cited: Citations, members: seq<Member>): (ids: seq<string>)
    decreases members, 1
  {
    if members == [] then [] else ListedMember(cited, members[0]) + ListedMembers(cited, members[1..])
  }

  function ListedMember(cited: Citations, m: Member): (ids: seq<string>)
    decreases m, 1
  {
    if IsDirect(m) then [m.value.text] else Listed(cited, m.value, Some(m.key))
  }

  class Collector {
    var found: seq<string>

    constructor ()
      ensures found == []
    {
      found := [];
    }

    /** `visit`: the ids below a value are pushed in order. */
    method Visit(cited: Citations, v: Json, key: Option<string>)
      modifies this
      ensures found == old(found) + Listed(cited, v, key)
      decreases v
    {
      match v
      case Str(text) =>
        if IsProse(key) {
          found := found + cited(text);
        }
      case Arr(items) =>
        if IsIdList(key) {
          VisitIds(items);
        } else {
          assert items[..|items|] == items;
          for i := 0 to |items|
            invariant found == old(found) + ListedItems(cited, items[..i])
          {
            ListedItemsNext(cited, items, i);
            hide ListedItems;
            Visit(cited, items[i], None);
          }
        }
      case Obj(members) =>
        VisitMembers(cited, members);
      case _ =>
    }

    /** The branch for a list of ids: its texts are the ids. */
    method VisitIds(items: seq<Json>)
      modifies this
      ensures found == old(found) + ListedIds(items)
    {
      assert items[..|items|] == items;
      for i := 0 to |items|
        invariant found == old(found) + ListedIds(items[..i])
      {
        ListedIdsNext(items, i);
        if items[i].Str? {
          found := found + [items[i].text];
        }
      }
    }

    /** The branch for an object: direct ids are pushed, other values are visited under their key. */
    method VisitMembers(cited: Citations, members: seq<Member>)
      modifies this
      ensures found == old(found) + ListedMembers(cited, members)
      decreases members
    {
      assert members[..|members|] == members;
      for i := 0 to |members|
        invariant found == old(found) + ListedMembers(cited, members[..i])
      {
        ListedMembersNext(cited, members, i);
        hide ListedMembers, Listed;
        if IsDirect(members[i]) {
          found := found + [members[i].value.text];
        } else {
          Visit(cited, members[i].value, Some(members[i].key));
        }
      }
    }
  }

  lemma {:induction false} ListedIdsNext(items: seq<Json>, i: nat)
    requires i < |items|
    ensures ListedIds(items[..i + 1]) == ListedIds(items[..i]) + IdOf(items[i])
  {
    hide IdOf;
    if i == 0 {
      assert items[..1] == [items[0]] && [items[0]][1..] == [];
    } else {
      ListedIdsNext(items[1..], i - 1);
      assert items[..i + 1][1..] == items[1..][..i] && items[..i][1..] == items[1..][..i - 1];
      AppendAssociative(IdOf(items[0]), ListedIds(items[1..][..i - 1]), IdOf(items[i]));
    }
  }

  lemma {:induction false} ListedItemsNext(cited: Citations, items: seq<Json>, i: nat)
    requires i < |items|
    ensures ListedItems(cited, items[..i + 1]) == ListedItems(cited, items[..i]) + Listed(cited, items[i], None)
  {
    hide Listed;
    if i == 0 {
      assert items[..1] == [items[0]] && [items[0]][1..] == [];
    } else {
      ListedItemsNext(cited, items[1..], i - 1);
      assert items[..i + 1][1..] == items[1..][..i] && items[..i][1..] == items[1..][..i - 1];
      AppendAssociative(Listed(cited, items[0], None), ListedItems(cited, items[1..][..i - 1]), Listed(cited, items[i], None));
    }
  }

  lemma {:induction false} ListedMembersNext(cited: Citations, members: seq<Member>, i: nat)
    requires i < |members|
    ensures ListedMembers(cited, members[..i + 1]) == ListedMembers(cited, members[..i]) + ListedMember(cited, members[i])
  {
    hide ListedMember;
    if i == 0 {
      assert members[..1] == [members[0]] && [members[0]][1..] == [];
    } else {
      ListedMembersNext(cited, members[1..], i - 1);
      assert members[..i + 1][1..] == members[1..][..i] && members[..i][1..] == members[1..][..i - 1];
      AppendAssociative(ListedMember(cited, members[0]), ListedMembers(cited, members[1..][..i - 1]), ListedMember(cited, members[i]));
    }
  }

  // ---------------------------------------------------------------- the list is exactly the references

  lemma {:induction false} ListedIffRefers(cited: Citations, v: Json, key: Option<string>, id: string)
    ensures id in Listed(cited, v, key) <==> Refers(cited, v, key, id)
    decreases v, 0
  {
    match v
    case Arr(items) =>
      if !IsIdList(key) {
        ListedItemsIff(cited, items, id);
      }
    case Obj(members) =>
      ListedMembersIff(cited, members, id);
    case _ =>
  }

  lemma {:induction false} ListedItemsIff(cited: Citations, items: seq<Json>, id: string)
    ensures id in ListedItems(cited, items) <==> exists i :: 0 <= i < |items| && Refers(cited, items[i], None, id)
    decreases items, 1
  {
    if items != [] {
      ListedIffRefers(cited, items[0], None, id);
      ListedItemsIff(cited, items[1..], id);
      hide Refers, Listed;
      if i :| 0 <= i < |items| && Refers(cited, items[i], None, id) {
        assert i > 0 ==> items[1..][i - 1] == items[i];
      }
      if i :| 0 <= i < |items[1..]| && Refers(cited, items[1..][i], None, id) {
        assert items[i + 1] == items[1..][i];
      }
    }
  }

  lemma {:induction false} ListedMembersIff(cited: Citations, members: seq<Member>, id: string)
    ensures id in ListedMembers(cited, members) <==> exists i :: 0 <= i < |members| && MemberRefers(cited, members[i], id)
    decreases members, 1
  {
    if members != [] {
      if !IsDirect(members[0]) {
        ListedIffRefers(cited, members[0].value, Some(members[0].key), id);
      }
      assert id in ListedMember(cited, members[0]) <==> MemberRefers(cited, members[0], id);
      ListedMembersIff(cited, members[1..], id);
      hide MemberRefers, ListedMember;
      if i :| 0 <= i < |members| && MemberRefers(cited, members[i], id) {
        assert i > 0 ==> members[1..][i - 1] == members[i];
      }
      if i :| 0 <= i < |members[1..]| && MemberRefers(cited, members[1..][i], id) {
        assert members[i + 1] == members[1..][i];
      }
    }
  }

  function Without(ids: seq<string>, allowed: set<string>): (r: seq<string>)
    ensures forall id :: id in r <==> id in ids && id !in allowed
  {
    if ids == [] then []
    else
      assert ids == [ids[0]] + ids[1..];
      (if ids[0] in allowed then [] else [ids[0]]) + Without(ids[1..], allowed)
  }

  /** `unknownSourceIds`: each reference that is not allowed, once. */
  method UnknownSourceIds(cited: Citations, v: Json, allowedSourceIds: seq<string>) returns (unknown: seq<string>)
    ensures forall id :: id in unknown <==> Refers(cited, v, None, id) && id !in allowedSourceIds
    ensures forall i, j :: 0 <= i < j < |unknown| ==> unknown[i] != unknown[j]
    ensures unknown == [] <==> forall id :: Refers(cited, v, None, id) ==> id in allowedSourceIds
  {
    var collector := new Collector();
    collector.Visit(cited, v, None);
    var allowed := set id | id in allowedSourceIds;
    unknown := Distinct(Without(collector.found, allowed));
    forall id
      ensures id in collector.found <==> Refers(cited, v, None, id)
    {
      ListedIffRefers(cited, v, None, id);
    }
    hide Refers, Listed;
    assert unknown != [] ==> unknown[0] in unknown;
  }

  // ---------------------------------------------------------------- drafts

  /** `parseStageOutput` for a draft that fits its schema: the cited and the declared sources must be the same. */
  method AcceptDraft(cited: Citations, markdown: string, declared: seq<string>) returns (accepted: bool)
    ensures accepted <==> forall id :: id in cited(markdown) <==> id in declared
  {
    var collector := new Collector();
    var draft := Obj([Member("markdown", Str(markdown))]);
    collector.Visit(cited, draft, None);
    DraftCitations(cited, markdown);
    hide Listed;
    assert collector.found == cited(markdown);
    var citedIds := set id | id in collector.found;
    var declaredIds := set id | id in declared;
    accepted := |citedIds| == |declaredIds| && forall id :: id in citedIds ==> id in declaredIds;
    SameSize(citedIds, declaredIds);
    if citedIds == declaredIds {
      assert forall id :: id in cited(markdown) <==> id in citedIds;
      assert forall id :: id in declared <==> id in declaredIds;
    }
  }

  lemma DraftCitations(cited: Citations, markdown: string)
    ensures Listed(cited, Obj([Member("markdown", Str(markdown))]), None) == cited(markdown)
  {
    var members := [Member("markdown", Str(markdown))];
    assert members[1..] == [];
    assert ListedMembers(cited, members) == ListedMember(cited, members[0]) + [];
  }

  lemma SameSize(a: set<string>, b: set<string>)
    ensures |a| == |b| && a <= b <==> a == b
  {
    if |a| == |b| && a <= b {
      assert |b - a| == |b| - |a|;
      assert b - a == {};
    }
  }
}
