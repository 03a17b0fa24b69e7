/**
  The browser's idempotency keys. `apiRequest` keeps one reference-counted entry per mutation scope
  and decides, at every start and finish of a request, whether the scope's key is kept or dropped.
 */
module ClientApi {
  import opened Prelude

  datatype Scope = Scope(httpMethod: string, endpoint: string, fingerprint: string)

  // ---------------------------------------------------------------- histories

  /** One start (with the key it sent) or one finish (and whether its outcome is unknown). */
  datatype Event = Started(scope: Scope, key: string) | Finished(scope: Scope, unknown: bool)

  type History = seq<Event>

  predicate StartOf(e: Event, s: Scope)
  {
    e.Started? && e.scope == s
  }

  /** Requests of the scope that have started and not finished. */
  function Open(h: History, s: Scope): (n: int)
  {
    if h == [] then 0
    else
      var last := h[|h| - 1];
      Open(h[..|h| - 1], s) + (if last.scope != s then 0 else if last.Started? then 1 else -1)
  }

  function LastKey(h: History, s: Scope): (k: Option<string>)
  {
    if h == [] then None
    else if StartOf(h[|h| - 1], s) then Some(h[|h| - 1].key)
    else LastKey(h[..|h| - 1], s)
  }

  /** The flag as the client maintains it: cleared when a batch opens, set by an unknown outcome. */
  function BatchFlag(h: History, s: Scope): (b: bool)
  {
    if h == [] then false
    else
      var last, before := h[|h| - 1], h[..|h| - 1];
      if last.scope != s then BatchFlag(before, s)
      else if last.Started? then Open(before, s) != 0 && BatchFlag(before, s)
      else BatchFlag(before, s) || last.unknown
  }

  /** Some request ended with an unknown outcome and no new batch has opened since. */
  ghost predicate UnknownInLatestBatch(h: History, s: Scope)
  {
    exists k :: 0 <= k < |h| && UnknownAt(h, s, k)
  }

  ghost predicate UnknownAt(h: History, s: Scope, k: nat)
    requires k < |h|
  {
    h[k] == Finished(s, true) &&
    forall c :: k < c < |h| && StartOf(h[c], s) ==> Open(h[..c], s) != 0
  }

  /** The reference-counted flag means what the history says. */
  lemma {:induction false} FlagMeaning(h: History, s: Scope)
    ensures BatchFlag(h, s) <==> UnknownInLatestBatch(h, s)
  {
    if h != [] {
      var n := |h| - 1;
      var before := h[..n];
      FlagMeaning(before, s);
      assert forall c :: 0 <= c <= n ==> h[..c] == before[..c];
      if BatchFlag(h, s) {
        if h[n] == Finished(s, true) {
          assert UnknownAt(h, s, n);
        } else {
          var k :| 0 <= k < n && UnknownAt(before, s, k);
          assert UnknownAt(h, s, k);
        }
      }
      if k :| 0 <= k < |h| && UnknownAt(h, s, k) {
        if k < n {
          assert UnknownAt(before, s, k);
        }
      }
    }
  }

  /** All requests of the scope have finished and every outcome of the last batch is known. */
  ghost predicate Settled(h: History, s: Scope)
  {
    Open(h, s) == 0 && !UnknownInLatestBatch(h, s)
  }

  ghost predicate Unused(h: History, key: string)
  {
    forall j :: 0 <= j < |h| && h[j].Started? ==> h[j].key != key
  }

  /** The rule for the key of the start at position `i`: fresh after a settled history, else the last key. */
  ghost predicate KeyRuleAt(h: History, i: nat)
    requires i < |h| && h[i].Started?
  {
    if Settled(h[..i], h[i].scope) then Unused(h[..i], h[i].key)
    else LastKey(h[..i], h[i].scope) == Some(h[i].key)
  }

  ghost predicate KeyRule(h: History)
  {
    forall i :: 0 <= i < |h| && h[i].Started? ==> KeyRuleAt(h, i)
  }

  /** The position of the start that `LastKey` speaks of. */
  lemma {:induction false} LastStart(h: History, s: Scope) returns (p: nat)
    requires LastKey(h, s).Some?
    ensures p < |h| && StartOf(h[p], s) && LastKey(h, s) == Some(h[p].key)
    ensures forall c :: p < c < |h| ==> !StartOf(h[c], s)
  {
    if StartOf(h[|h| - 1], s) {
      p := |h| - 1;
    } else {
      p := LastStart(h[..|h| - 1], s);
    }
  }

  /**
    The key never leaves its scope: two starts on different scopes never carry the same key.
   */
  lemma {:induction false} KeysIdentifyScopes(h: History, i: nat, j: nat)
    requires KeyRule(h) && i < j < |h| && h[i].Started? && h[j].Started? && h[i].scope != h[j].scope
    ensures h[i].key != h[j].key
    decreases i + j
  {
    assert KeyRuleAt(h, j);
    if !Settled(h[..j], h[j].scope) {
      var p := LastStart(h[..j], h[j].scope);
      if i < p {
        KeysIdentifyScopes(h, i, p);
      } else {
        KeysIdentifyScopes(h, p, i);
      }
    } else {
      assert h[..j][i] == h[i];
    }
  }

  ghost predicate SettledBetween(h: History, i: nat, j: nat)
    requires i < j < |h| && h[j].Started?
  {
    exists m :: i < m <= j && StartOf(h[m], h[j].scope) && Settled(h[..m], h[j].scope)
  }

  /** Once a settled start takes a fresh key, no later start of the scope returns to an older key. */
  lemma {:induction false} NoReturn(h: History, i: nat, m: nat, j: nat)
    requires KeyRule(h) && i < m <= j < |h| && h[i].Started?
    requires StartOf(h[j], h[m].scope) && h[m].Started? && Settled(h[..m], h[m].scope)
    ensures h[j].key != h[i].key
    decreases j
  {
    assert KeyRuleAt(h, j);
    if Settled(h[..j], h[j].scope) {
      assert h[..j][i] == h[i];
    } else {
      var p := LastStart(h[..j], h[j].scope);
      assert h[..j][m] == h[m];
      NoReturn(h, i, m, p);
    }
  }

  /**
    Exactly when two starts of one scope share a key: they do unless, somewhere after the first, a
    maximal in-flight batch ended with all its outcomes known. In particular overlapping identical
    mutations share one key, an unknown outcome pins the key for every later request, and the first
    start after a clean end takes a key never used before.
   */
  lemma {:induction false} SharedKeyIff(h: History, i: nat, j: nat)
    requires KeyRule(h) && i < j < |h| && h[i].Started? && StartOf(h[j], h[i].scope)
    ensures h[i].key == h[j].key <==> !SettledBetween(h, i, j)
    decreases j
  {
    if SettledBetween(h, i, j) {
      var m :| i < m <= j && StartOf(h[m], h[j].scope) && Settled(h[..m], h[j].scope);
      NoReturn(h, i, m, j);
    } else {
      assert KeyRuleAt(h, j);
      assert !Settled(h[..j], h[j].scope);
      var p := LastStart(h[..j], h[j].scope);
      assert h[..j][i] == h[i];
      if i < p {
        SharedKeyIff(h, i, p);
      }
    }
  }

  lemma AppendEvent(h: History, e: Event, s: Scope)
    ensures Open(h + [e], s) == Open(h, s) + (if e.scope != s then 0 else if e.Started? then 1 else -1)
    ensures LastKey(h + [e], s) == if StartOf(e, s) then Some(e.key) else LastKey(h, s)
    ensures BatchFlag(h + [e], s) ==
      if e.scope != s then BatchFlag(h, s)
      else if e.Started? then Open(h, s) != 0 && BatchFlag(h, s)
      else BatchFlag(h, s) || e.unknown
  {
    assert (h + [e])[..|h + [e]| - 1] == h;
  }

  lemma KeyRuleSnoc(h: History, e: Event)
    requires KeyRule(h)
    requires e.Started? ==>
      if Open(h, e.scope) == 0 && !BatchFlag(h, e.scope) then Unused(h, e.key) else LastKey(h, e.scope) == Some(e.key)
    ensures KeyRule(h + [e])
  {
    var grownLog := h + [e];
    forall i | 0 <= i < |grownLog| && grownLog[i].Started?
      ensures KeyRuleAt(grownLog, i)
    {
      hide Open, LastKey, BatchFlag, UnknownInLatestBatch;
      if i < |h| {
        assert KeyRuleAt(h, i);
        assert grownLog[..i] == h[..i];
      } else {
        FlagMeaning(h, e.scope);
        assert grownLog[..i] == h;
      }
    }
  }

  // ---------------------------------------------------------------- the client

  /** The contents of an entry, apart from its identity. */
  datatype EntryView = EntryView(key: string, inFlight: int, unknown: bool)

  /** An entry tells exactly what the history says about its scope. */
  ghost predicate EntryMatches(e: EntryView, h: History, s: Scope)
  {
    && e.inFlight == Open(h, s)
    && e.unknown == BatchFlag(h, s)
    && LastKey(h, s) == Some(e.key)
    && (e.inFlight == 0 ==> e.unknown)
  }

  ghost predicate NoEntry(h: History, s: Scope)
  {
    Open(h, s) == 0 && !BatchFlag(h, s)
  }

  /** An event on one scope says nothing about any other scope. */
  lemma OtherScope(h: History, event: Event, e: EntryView, s: Scope)
    requires event.scope != s
    ensures EntryMatches(e, h, s) ==> EntryMatches(e, h + [event], s)
    ensures NoEntry(h, s) ==> NoEntry(h + [event], s)
  {
    hide Open, BatchFlag, LastKey;
    AppendEvent(h, event, s);
  }

  /** A start on a scope without an entry takes the fresh key; on one with an entry, the entry's key. */
  lemma StartMatches(h: History, s: Scope, e: EntryView, isNew: bool)
    requires KeyRule(h)
    requires if isNew then NoEntry(h, s) && Unused(h, e.key) && e.inFlight == 0 else EntryMatches(e, h, s)
    requires e.inFlight >= 0
    ensures KeyRule(h + [Started(s, e.key)])
    ensures EntryMatches(EntryView(e.key, e.inFlight + 1, e.inFlight != 0 && e.unknown), h + [Started(s, e.key)], s)
  {
    hide Open, BatchFlag, LastKey;
    AppendEvent(h, Started(s, e.key), s);
    KeyRuleSnoc(h, Started(s, e.key));
  }

  lemma FinishMatches(h: History, s: Scope, e: EntryView, unknown: bool)
    requires KeyRule(h) && EntryMatches(e, h, s) && e.inFlight > 0
    ensures var grownLog := h + [Finished(s, unknown)];
      && KeyRule(grownLog)
      && (if e.inFlight == 1 && !(e.unknown || unknown) then NoEntry(grownLog, s) && Settled(grownLog, s)
          else EntryMatches(EntryView(e.key, e.inFlight - 1, e.unknown || unknown), grownLog, s) && !Settled(grownLog, s))
  {
    hide Open, BatchFlag, LastKey, UnknownInLatestBatch;
    AppendEvent(h, Finished(s, unknown), s);
    KeyRuleSnoc(h, Finished(s, unknown));
    FlagMeaning(h + [Finished(s, unknown)], s);
  }

  /** The heap object a scope's requests share. `scope` only records where it was entered. */
  class PendingMutation {
    const idempotencyKey: string
    ghost const scope: Scope
    var inFlight: int
    var unknownOutcome: bool

    ghost function View(): EntryView
      reads this
    {
      EntryView(idempotencyKey, inFlight, unknownOutcome)
    }

    constructor (key: string, ghost scope: Scope)
      ensures idempotencyKey == key && this.scope == scope && inFlight == 0 && !unknownOutcome
    {
      idempotencyKey := key;
      this.scope := scope;
      inFlight := 0;
      unknownOutcome := false;
    }
  }

  datatype Body = NoBody | TextBody(text: string) | FormBody | ParamsBody(encoded: string) | OtherBody

  datatype Request = Request(httpMethod: string, endpoint: string, hasKeyHeader: bool, body: Body)

  datatype ClientError = UnsupportedBody

  predicate IsMutation(httpMethod: string)
  {
    httpMethod != "GET" && httpMethod != "HEAD" && httpMethod != "OPTIONS"
  }

  function Fingerprint(body: Body): string
  {
    match body
    case TextBody(text) => text
    case ParamsBody(encoded) => encoded
    case _ => ""
  }

  /** The scope under which a request without its own key is entered. */
  function ScopeOf(req: Request): Scope
  {
    Scope(req.httpMethod, req.endpoint, Fingerprint(req.body))
  }

  /** A mutation whose key the client generates: no key of its own, and a body it can read. */
  ghost predicate IsGenerated(req: Request)
  {
    req.httpMethod !in {"GET", "HEAD", "OPTIONS"} && !req.hasKeyHeader && exists text :: Carries(req.body, text)
  }

  /** The text a body sends: parameters as they are encoded, and no body as the empty text. */
  ghost predicate Carries(body: Body, text: string)
  {
    body == TextBody(text) || body == ParamsBody(text) || (body == NoBody && text == "")
  }

  /** Two requests that ask for the same mutation. */
  ghost predicate SameMutation(a: Request, b: Request)
  {
    a.httpMethod == b.httpMethod && a.endpoint == b.endpoint && exists text :: Carries(a.body, text) && Carries(b.body, text)
  }

  lemma SameScopeIff(a: Request, b: Request)
    requires IsGenerated(a) && IsGenerated(b)
    ensures ScopeOf(a) == ScopeOf(b) <==> SameMutation(a, b)
  {
    assert Carries(a.body, Fingerprint(a.body)) && Carries(b.body, Fingerprint(b.body));
  }

  /** The start at position `i` of the history is that of the request. */
  ghost predicate StartedBy(h: History, i: nat, req: Request)
  {
    i < |h| && IsGenerated(req) && StartOf(h[i], ScopeOf(req))
  }

  /**
    Which requests share a key: those that ask for the same mutation, unless between them a maximal
    in-flight batch ended with all its outcomes known. Requests that differ in method, endpoint or body
    never do.
   */
  lemma RequestsShareKeyIff(h: History, i: nat, j: nat, a: Request, b: Request)
    requires KeyRule(h) && i < j && StartedBy(h, i, a) && StartedBy(h, j, b)
    ensures h[i].key == h[j].key <==> SameMutation(a, b) && !SettledBetween(h, i, j)
  {
    SameScopeIff(a, b);
    hide KeyRule, ScopeOf, SameMutation, SettledBetween;
    if ScopeOf(a) == ScopeOf(b) {
      SharedKeyIff(h, i, j);
    } else {
      KeysIdentifyScopes(h, i, j);
    }
  }

  class ApiClient {
    var pending: map<Scope, PendingMutation>
    ghost var log: History
    /** One occurrence of an entry for each open request that holds it. */
    ghost var open: multiset<PendingMutation>
    ghost var Repr: set<PendingMutation>

    /** The entry of a scope agrees with the history and counts the open requests that hold it. */
    ghost predicate ScopeOk(s: Scope)
      reads this, Repr
    {
      if s in pending then
        && pending[s] in Repr && pending[s].scope == s
        && pending[s].inFlight == open[pending[s]]
        && EntryMatches(pending[s].View(), log, s)
      else
        NoEntry(log, s)
    }

    /** An open request holds the entry that the map still has under its scope. */
    ghost predicate HolderOk(e: PendingMutation)
      reads this
    {
      e.scope in pending && pending[e.scope] == e
    }

    ghost predicate Valid()
      reads this, Repr
    {
      && (forall s {:trigger ScopeOk(s)} :: ScopeOk(s))
      && (forall e {:trigger HolderOk(e)} :: e in open ==> HolderOk(e))
      && KeyRule(log)
    }

    constructor ()
      ensures Valid() && log == [] && open == multiset{} && pending == map[] && Repr == {}
    {
      pending := map[];
      log := [];
      open := multiset{};
      Repr := {};
    }

    /**
      The start of a generated-key mutation. `uuid` is what `crypto.randomUUID()` would return, so it
      is a key no request has used. The request sends `entry.idempotencyKey`.
     */
    method Begin(scope: Scope, uuid: string) returns (entry: PendingMutation)
      requires Valid() && Unused(log, uuid)
      modifies this, if scope in pending then {pending[scope]} else {}
      ensures Valid() && fresh(Repr - old(Repr))
      ensures entry.scope == scope && scope in pending && pending[scope] == entry
      ensures if scope in old(pending) then entry == old(pending)[scope] else entry.idempotencyKey == uuid
      ensures log == old(log) + [Started(scope, entry.idempotencyKey)]
      ensures open == old(open) + multiset{entry}
      ensures entry.inFlight == open[entry]
    {
      hide EntryMatches, NoEntry, KeyRule, Unused;
      assert ScopeOk(scope);
      if scope in pending {
        entry := pending[scope];
      } else {
        entry := new PendingMutation(uuid, scope);
      }
      Enter(scope, entry);
    }

    /** Counts one more request on `entry` and (re)enters it under its scope. */
    method Enter(scope: Scope, entry: PendingMutation)
      requires Valid() && entry.scope == scope
      requires if scope in pending then pending[scope] == entry else
        entry !in Repr && entry.inFlight == 0 && Unused(log, entry.idempotencyKey)
      modifies this, entry
      ensures Valid() && Repr == old(Repr) + {entry}
      ensures pending == old(pending)[scope := entry]
      ensures log == old(log) + [Started(scope, entry.idempotencyKey)]
      ensures open == old(open) + multiset{entry}
      ensures entry.inFlight == open[entry]
    {
      hide EntryMatches, NoEntry, KeyRule, Unused;
      ghost var event := Started(scope, entry.idempotencyKey);
      assert ScopeOk(scope);
      assert entry in open ==> HolderOk(entry);
      StartMatches(log, scope, entry.View(), scope !in pending);
      if entry.inFlight == 0 {
        entry.unknownOutcome := false;
      }
      entry.inFlight := entry.inFlight + 1;
      pending := pending[scope := entry];
      log := log + [event];
      open := open + multiset{entry};
      Repr := Repr + {entry};
      assert ScopeOk(scope);
      forall s
        ensures ScopeOk(s)
      {
        if s != scope {
          assert old(ScopeOk(s));
          OtherScope(old(log), event, if s in pending then pending[s].View() else entry.View(), s);
        }
      }
      forall e | e in open
        ensures HolderOk(e)
      {
        if e != entry {
          assert old(HolderOk(e));
        }
      }
    }

    /** The identity test before a deletion always succeeds: the holder's entry is the one in the map. */
    lemma IdentityHolds(entry: PendingMutation)
      requires Valid() && entry in open
      ensures entry.scope in pending && pending[entry.scope] == entry
      ensures entry.inFlight == open[entry] == Open(log, entry.scope) > 0
    {
      assert HolderOk(entry) && ScopeOk(entry.scope);
    }

    /** At every moment a scope has an entry exactly while its last batch is open or has an unknown outcome. */
    lemma EntryIffUnsettled(s: Scope)
      requires Valid()
      ensures s in pending <==> !Settled(log, s)
    {
      assert ScopeOk(s);
      FlagMeaning(log, s);
    }

    /** The outcome of a request is noted on its entry; every other scope is left as it was. */
    method NoteOutcome(entry: PendingMutation, completeResponse: bool)
      requires Valid() && entry in open
      modifies this`log, this`open, entry
      ensures log == old(log) + [Finished(entry.scope, !completeResponse)] && open == old(open) - multiset{entry}
      ensures KeyRule(log) && HolderOk(entry) && (forall e {:trigger HolderOk(e)} :: e in open ==> HolderOk(e))
      ensures forall s {:trigger ScopeOk(s)} :: s != entry.scope ==> ScopeOk(s)
      ensures entry in Repr && entry.inFlight == open[entry]
      ensures if entry.inFlight == 0 && !entry.unknownOutcome then NoEntry(log, entry.scope) else EntryMatches(entry.View(), log, entry.scope)
    {
      hide EntryMatches, NoEntry, KeyRule, Settled, Open;
      IdentityHolds(entry);
      assert ScopeOk(entry.scope);
      FinishMatches(log, entry.scope, entry.View(), !completeResponse);
      ghost var event := Finished(entry.scope, !completeResponse);
      if !completeResponse {
        entry.unknownOutcome := true;
      }
      entry.inFlight := entry.inFlight - 1;
      log := log + [event];
      open := open - multiset{entry};
      forall e | e in open ensures HolderOk(e) {
        assert old(HolderOk(e));
      }
      forall s | s != entry.scope ensures ScopeOk(s) {
        assert old(ScopeOk(s));
        OtherScope(old(log), event, if s in pending then pending[s].View() else entry.View(), s);
      }
    }

    /**
      The end of a request: `completeResponse` tells whether a whole, valid response arrived. The
      identity test of the source always succeeds, so an entry disappears exactly when its last
      open request ends and no outcome of the batch is unknown.
     */
    method Complete(scope: Scope, entry: PendingMutation, completeResponse: bool)
      requires Valid() && entry in open && entry.scope == scope
      modifies this, entry
      ensures Valid() && Repr == old(Repr)
      ensures log == old(log) + [Finished(scope, !completeResponse)]
      ensures open == old(open) - multiset{entry}
    {
      hide EntryMatches, NoEntry, KeyRule;
      NoteOutcome(entry, completeResponse);
      if entry.inFlight == 0 && !entry.unknownOutcome && scope in pending && pending[scope] == entry {
        label Noted:
        pending := pending - {scope};
        forall s | s != scope ensures ScopeOk(s) {
          assert old@Noted(ScopeOk(s));
        }
        forall e | e in open ensures HolderOk(e) {
          assert old@Noted(HolderOk(e));
        }
      }
      assert ScopeOk(scope);
    }

    /**
      The front of `apiRequest`: only a mutation without its own key and without form data gets a
      generated key, and a body that cannot be fingerprinted is refused before anything changes.
     */
    method StartRequest(req: Request, uuid: string) returns (r: Result<Option<PendingMutation>, ClientError>)
      requires Valid() && Unused(log, uuid)
      modifies this, Repr
      ensures Valid() && fresh(Repr - old(Repr))
      ensures req.httpMethod in {"GET", "HEAD", "OPTIONS"} || req.hasKeyHeader || req.body.FormBody? ==>
        r == Success(None) && log == old(log) && open == old(open) && pending == old(pending)
      ensures req.httpMethod !in {"GET", "HEAD", "OPTIONS"} && !req.hasKeyHeader && req.body.OtherBody? ==>
        r == Failure(UnsupportedBody) && log == old(log) && open == old(open) && pending == old(pending)
      ensures IsGenerated(req) ==>
        && r.Success? && r.value.Some? && StartedBy(log, |old(log)|, req)
        && log == old(log) + [Started(r.value.value.scope, r.value.value.idempotencyKey)]
        && open == old(open) + multiset{r.value.value}
    {
      if !IsMutation(req.httpMethod) || req.hasKeyHeader || req.body.FormBody? {
        return Success(None);
      }
      if req.body.OtherBody? {
        return Failure(UnsupportedBody);
      }
      assert ScopeOk(ScopeOf(req));
      var entry := Begin(ScopeOf(req), uuid);
      r := Success(Some(entry));
    }
  }
}
