/** Fetching an external source: URL validation, address resolution and the redirect loop. */
module SafeFetch {
  import opened Prelude
  import opened Ipv6Text
  import opened Addresses

  datatype Code =
    | InvalidUrl | DisallowedAddress | DnsFailure | TooManyRedirects | RedirectLoop | InvalidRedirect
    | TimedOut | ResponseTooLarge | UnsupportedMimeType | HttpError | FetchFailed

  /** A parsed URL. */
  datatype Url = Url(protocol: string, credentials: bool, hostname: string, rest: string, fragment: string)

  datatype Record = Record(address: string, family: nat)

  datatype Response = Response(
    status: int, bodyBytes: nat, declaredBytes: Option<int>, location: Option<string>, contentType: string)

  /** The URL library: parsing, resolving a reference, serialising, and recognising version 6 addresses. */
  datatype Library = Library(
    parse: string -> Option<Url>, join: (string, Url) -> Option<Url>, href: Url -> string, isIp6: string -> bool)

  /** The outside world, asked once per hop. */
  datatype World = World(
    elapsedMs: nat -> int, resolver: (nat, string) -> Result<seq<Record>, Code>, requester: (nat, Url, seq<Record>) -> Result<Response, Code>)

  // ---------------------------------------------------------------- validation

  function WithoutBrackets(s: string): string
  {
    if |s| >= 2 && s[0] == '[' && s[|s| - 1] == ']' then s[1..|s| - 1] else s
  }

  function WithoutDot(s: string): string
  {
    if s != "" && s[|s| - 1] == '.' then s[..|s| - 1] else s
  }

  function NormalizeHostname(s: string): string
  {
    LowerAll(WithoutDot(WithoutBrackets(s)))
  }

  /** One closing dot and the brackets of a version 6 literal make no difference, and neither does case. */
  lemma HostnameForms(name: string)
    requires name != "" && name[0] != '[' && name[|name| - 1] != '.'
    ensures NormalizeHostname(name) == LowerAll(name) == NormalizeHostname(name + ".")
    ensures NormalizeHostname("[" + name + "]") == NormalizeHostname(name)
  {
    assert (name + ".")[..|name|] == name;
    assert ("[" + name + "]")[1..|name| + 1] == name;
  }

  /** A host name is local if it is one of the two names, or a name below one of them. */
  lemma LocalIff(hostname: string)
    ensures IsLocal(hostname) <==>
      || hostname == "localhost" || hostname == "localhost.localdomain"
      || exists name: string :: hostname == name + ".localhost" || hostname == name + ".localhost.localdomain"
  {
    EndsWithIff(hostname, ".localhost");
    EndsWithIff(hostname, ".localhost.localdomain");
    hide EndsWith;
  }

  lemma EndsWithIff(s: string, suffix: string)
    ensures EndsWith(s, suffix) <==> exists name: string :: s == name + suffix
  {
    if EndsWith(s, suffix) {
      assert s == s[..|s| - |suffix|] + suffix;
    }
  }

  predicate EndsWith(s: string, suffix: string)
  {
    |suffix| <= |s| && s[|s| - |suffix|..] == suffix
  }

  predicate IsLocal(hostname: string)
  {
    || hostname == "localhost" || EndsWith(hostname, ".localhost")
    || hostname == "localhost.localdomain" || EndsWith(hostname, ".localhost.localdomain")
  }

  predicate IsPublic(lib: Library, address: string)
  {
    IsPublicAddress(lib.isIp6, address) == Success(true)
  }

  /** What every URL that is fetched satisfies. */
  predicate IsExternal(lib: Library, url: Url)
  {
    var hostname := NormalizeHostname(url.hostname);
    && (url.protocol == "http:" || url.protocol == "https:") && !url.credentials && url.fragment == ""
    && hostname != "" && !IsLocal(hostname) && (Family(lib.isIp6, hostname) != 0 ==> IsPublic(lib, hostname))
  }

  function AddressCode(e: AddressError): Code
  {
    match e case ZoneIdentifier => DisallowedAddress case InvalidAddress => InvalidUrl
  }

  /** `validateExternalUrl` once the URL is parsed: the fragment is dropped, nothing else changes. */
  function ValidateUrl(lib: Library, url: Url): (r: Result<Url, Code>)
    ensures r.Success? <==> IsExternal(lib, url.(fragment := ""))
    ensures r.Success? ==> r.value == url.(fragment := "")
  {
    if url.protocol != "http:" && url.protocol != "https:" then Failure(InvalidUrl)
    else if url.credentials then Failure(InvalidUrl)
    else
      var hostname := NormalizeHostname(url.hostname);
      if hostname == "" then Failure(InvalidUrl)
      else if IsLocal(hostname) then Failure(DisallowedAddress)
      else if Family(lib.isIp6, hostname) == 0 then Success(url.(fragment := ""))
      else
        match IsPublicAddress(lib.isIp6, hostname)
        case Failure(e) => Failure(AddressCode(e))
        case Success(true) => Success(url.(fragment := ""))
        case Success(false) => Failure(DisallowedAddress)
  }

  /** The URL is the result of parsing some text, its fragment dropped. */
  ghost predicate Parsed(lib: Library, url: Url)
  {
    exists text :: lib.parse(text).Some? && lib.parse(text).value.(fragment := "") == url
  }

  /** The URL comes from parsing, or from resolving a reference against a parsed URL. */
  ghost predicate Produced(lib: Library, url: Url)
  {
    || Parsed(lib, url)
    || exists text, base :: Parsed(lib, base) && lib.join(text, base).Some? && lib.join(text, base).value.(fragment := "") == url
  }

  function Validate(lib: Library, text: string): (r: Result<Url, Code>)
    ensures r.Success? ==> IsExternal(lib, r.value) && Parsed(lib, r.value)
  {
    match lib.parse(text) case None => Failure(InvalidUrl) case Some(url) => ValidateUrl(lib, url)
  }

  /** Assumed of the URL library: an external URL it produced parses back to itself once serialised. */
  ghost predicate Faithful(lib: Library)
  {
    forall url :: IsExternal(lib, url) && Produced(lib, url) ==> lib.parse(lib.href(url)) == Some(url)
  }

  /** A library that reads any text as a host name and puts it in lower case. */
  ghost function LowercasingLibrary(): Library
  {
    var parse := (text: string) => Some(Url("http:", false, LowerAll(text), "", ""));
    Library(parse, (text: string, base: Url) => parse(text), (url: Url) => url.hostname, (address: string) => false)
  }

  /** A parser that normalises what it reads, as the library does with host names, can meet the assumption. */
  lemma NormalisingLibraryIsFaithful()
    ensures Faithful(LowercasingLibrary())
  {
    var lib := LowercasingLibrary();
    hide IsExternal, Produced;
    forall url | IsExternal(lib, url) && Produced(lib, url) ensures lib.parse(lib.href(url)) == Some(url) {
      LowerCase(url);
    }
  }

  lemma LowerCase(url: Url)
    requires Produced(LowercasingLibrary(), url)
    ensures url == Url("http:", false, LowerAll(url.hostname), "", "")
  {
    hide LowerAll;
    assert Parsed(LowercasingLibrary(), url);
    LowerCaseParsed(url);
  }

  lemma LowerCaseParsed(url: Url)
    requires Parsed(LowercasingLibrary(), url)
    ensures url == Url("http:", false, LowerAll(url.hostname), "", "")
  {
    var lib := LowercasingLibrary();
    var text :| lib.parse(text).Some? && lib.parse(text).value.(fragment := "") == url;
    assert LowerAll(LowerAll(text)) == LowerAll(text);
  }

  // ---------------------------------------------------------------- resolution

  predicate IsUsable(lib: Library, r: Record)
  {
    (r.family == 4 || r.family == 6) && Family(lib.isIp6, r.address) == r.family && IsPublic(lib, r.address)
  }

  /** What a request may be pinned to: at least one address, none twice, all public. */
  ghost predicate Pinnable(lib: Library, addresses: seq<Record>)
  {
    && addresses != [] && (forall i, j :: 0 <= i < j < |addresses| ==> addresses[i] != addresses[j])
    && (forall i :: 0 <= i < |addresses| ==> IsUsable(lib, addresses[i]))
  }

  function CheckRecord(lib: Library, record: Record): (r: Result<(), Code>)
    ensures r.Success? <==> IsUsable(lib, record)
  {
    var detected := Family(lib.isIp6, record.address);
    if (detected != 4 && detected != 6) || detected != record.family then Failure(DnsFailure)
    else
      match IsPublicAddress(lib.isIp6, record.address)
      case Failure(e) => Failure(AddressCode(e))
      case Success(true) => Success(())
      case Success(false) => Failure(DisallowedAddress)
  }

  ghost predicate AllUsable(lib: Library, records: seq<Record>)
  {
    forall i :: 0 <= i < |records| ==> IsUsable(lib, records[i])
  }

  lemma UsableNext(lib: Library, records: seq<Record>, i: nat)
    requires i < |records|
    ensures AllUsable(lib, records[..i]) && IsUsable(lib, records[i]) ==> AllUsable(lib, records[..i + 1])
    ensures !IsUsable(lib, records[i]) ==> !AllUsable(lib, records)
  {
  }

  lemma DistinctNext(records: seq<Record>, i: nat)
    requires i < |records|
    ensures Distinct(records[..i + 1]) ==
      if records[i] in Distinct(records[..i]) then Distinct(records[..i]) else Distinct(records[..i]) + [records[i]]
  {
    assert records[..i + 1][..i] == records[..i];
  }

  lemma DedupedPinnable(lib: Library, records: seq<Record>)
    requires records != [] && AllUsable(lib, records)
    ensures Pinnable(lib, Distinct(records))
  {
    hide IsUsable;
    var addresses := Distinct(records);
    assert records[0] in addresses;
    assert forall k :: 0 <= k < |addresses| ==> addresses[k] in records;
  }

  /** The loop of `resolveAndValidateExternalUrl`: one unusable record refuses them all. */
  method CheckRecords(lib: Library, resolved: seq<Record>) returns (r: Result<seq<Record>, Code>)
    ensures r.Success? <==> resolved != [] && AllUsable(lib, resolved)
    ensures r.Success? ==> Pinnable(lib, r.value) && r.value == Distinct(resolved)
  {
    if |resolved| == 0 {
      return Failure(DnsFailure);
    }
    var addresses: seq<Record> := [];
    assert resolved[..|resolved|] == resolved && Distinct(resolved[..0]) == [] && AllUsable(lib, resolved[..0]);
    hide *;
    for i := 0 to |resolved|
      invariant AllUsable(lib, resolved[..i]) && addresses == Distinct(resolved[..i])
    {
      var checked := CheckRecord(lib, resolved[i]);
      UsableNext(lib, resolved, i);
      if checked.Failure? {
        return Failure(checked.error);
      }
      DistinctNext(resolved, i);
      if resolved[i] !in addresses {
        addresses := addresses + [resolved[i]];
      }
    }
    DedupedPinnable(lib, resolved);
    r := Success(addresses);
  }

  datatype Target = Target(url: Url, hostname: string, addresses: seq<Record>)

  /** What the host of a URL resolves to: an address literal to itself, a name to what the resolver says. */
  ghost predicate ResolvesTo(lib: Library, world: World, hop: nat, url: Url, records: seq<Record>)
  {
    var hostname := NormalizeHostname(url.hostname);
    if Family(lib.isIp6, hostname) != 0 then records == [Record(hostname, Family(lib.isIp6, hostname))]
    else world.resolver(hop, hostname) == Success(records)
  }

  /** The records of the host are there and all usable; a request is pinned to them, each once. */
  ghost predicate PinnedTo(lib: Library, world: World, hop: nat, url: Url, addresses: seq<Record>)
  {
    exists records :: ResolvesTo(lib, world, hop, url, records) && records != [] && AllUsable(lib, records) && addresses == Distinct(records)
  }

  method Resolve(lib: Library, world: World, hop: nat, text: string) returns (r: Result<Target, Code>)
    ensures r.Success? ==> Validate(lib, text) == Success(r.value.url) && Pinnable(lib, r.value.addresses)
    ensures r.Success? ==> r.value.hostname == NormalizeHostname(r.value.url.hostname)
    ensures r.Success? ==> PinnedTo(lib, world, hop, r.value.url, r.value.addresses)
    ensures r.Failure? && Validate(lib, text).Success? ==> forall addresses :: !PinnedTo(lib, world, hop, Validate(lib, text).value, addresses)
  {
    hide Pinnable, AllUsable, Family, NormalizeHostname, Validate;
    var url := Validate(lib, text);
    if url.Failure? {
      return Failure(url.error);
    }
    var hostname := NormalizeHostname(url.value.hostname);
    var family := Family(lib.isIp6, hostname);
    var resolved := if family != 0 then Success([Record(hostname, family)]) else world.resolver(hop, hostname);
    if resolved.Failure? {
      return Failure(resolved.error);
    }
    var addresses := CheckRecords(lib, resolved.value);
    if addresses.Failure? {
      return Failure(addresses.error);
    }
    r := Success(Target(url.value, hostname, addresses.value));
  }

  // ---------------------------------------------------------------- the redirect loop

  datatype Options = Options(timeoutMs: int, maxBytes: int, maxRedirects: int, userAgent: string, allowedMimeTypes: set<string>)

  predicate ValidOptions(o: Options)
  {
    && 1 <= o.timeoutMs <= 30000 && 1 <= o.maxBytes <= 10000000 && 0 <= o.maxRedirects <= 10
    && 1 <= |o.userAgent| <= 256 && '\r' !in o.userAgent && '\n' !in o.userAgent && o.allowedMimeTypes != {}
  }

  datatype Hop = Hop(url: string, addresses: seq<Record>, status: int)

  datatype Request = Request(url: Url, addresses: seq<Record>)

  datatype Fetched = Fetched(requestedUrl: string, finalUrl: string, status: int, contentType: string, redirectCount: nat, hops: seq<Hop>)

  predicate IsRedirect(status: int)
  {
    status in {301, 302, 303, 307, 308}
  }

  /** Requests to external URLs at pinned public addresses, no URL twice, and never from https back to http. */
  ghost predicate SafeRequests(lib: Library, requests: seq<Request>)
  {
    && (forall i :: 0 <= i < |requests| ==> IsExternal(lib, requests[i].url) && Pinnable(lib, requests[i].addresses))
    && (forall i, j :: 0 <= i < j < |requests| ==> lib.href(requests[i].url) != lib.href(requests[j].url))
    && (forall i, j :: 0 <= i < j < |requests| && requests[i].url.protocol == "https:" ==> requests[j].url.protocol == "https:")
  }

  ghost predicate MayFollow(lib: Library, requests: seq<Request>, url: Url)
  {
    && IsExternal(lib, url) && Produced(lib, url)
    && forall i :: 0 <= i < |requests| && requests[i].url.protocol == "https:" ==> url.protocol == "https:"
  }

  /** Hops record the requests that were answered. */
  ghost predicate Records(lib: Library, hops: seq<Hop>, requests: seq<Request>)
  {
    && |hops| == |requests|
    && forall i :: 0 <= i < |hops| ==> hops[i].url == lib.href(requests[i].url) && hops[i].addresses == requests[i].addresses
  }

  lemma OneMoreRequest(lib: Library, requests: seq<Request>, request: Request)
    requires SafeRequests(lib, requests) && MayFollow(lib, requests, request.url) && Pinnable(lib, request.addresses)
    requires forall i :: 0 <= i < |requests| ==> lib.href(requests[i].url) != lib.href(request.url)
    ensures SafeRequests(lib, requests + [request])
  {
    hide IsExternal, Pinnable;
  }

  datatype Step = Redirect(next: Url) | Arrived(contentType: string)

  /** The answer is a redirect to be followed, and `next` is where it points: an external URL, and not from https to http. */
  ghost predicate PointsTo(lib: Library, o: Options, url: Url, response: Response, redirectCount: nat, next: Url)
  {
    && response.status in {301, 302, 303, 307, 308} && redirectCount < o.maxRedirects
    && response.location.Some? && response.location.value != ""
    && lib.join(response.location.value, url).Some? && next == lib.join(response.location.value, url).value.(fragment := "")
    && IsExternal(lib, next) && (url.protocol == "https:" ==> next.protocol == "https:")
  }

  /** The answer is a document that may be kept. */
  ghost predicate IsArrival(o: Options, response: Response)
  {
    200 <= response.status < 300 && response.contentType != "" && response.contentType in o.allowedMimeTypes
  }

  /** What an answered request leads to. */
  method Judge(lib: Library, o: Options, url: Url, response: Response, redirectCount: nat) returns (r: Result<Step, Code>)
    ensures forall next :: r == Success(Redirect(next)) <==> PointsTo(lib, o, url, response, redirectCount, next)
    ensures r.Success? && r.value.Arrived? <==> IsArrival(o, response)
    ensures r.Success? && r.value.Arrived? ==> r.value.contentType == response.contentType
    ensures r.Success? && r.value.Redirect? && Parsed(lib, url) ==> Produced(lib, r.value.next)
    ensures IsRedirect(response.status) && redirectCount >= o.maxRedirects ==> r == Failure(TooManyRedirects)
  {
    hide IsExternal;
    if IsRedirect(response.status) {
      if redirectCount >= o.maxRedirects {
        return Failure(TooManyRedirects);
      }
      if response.location.None? || response.location.value == "" {
        return Failure(InvalidRedirect);
      }
      var joined := lib.join(response.location.value, url);
      if joined.None? {
        return Failure(InvalidRedirect);
      }
      var next := ValidateUrl(lib, joined.value);
      if next.Failure? {
        return Failure(next.error);
      }
      if url.protocol == "https:" && next.value.protocol == "http:" {
        return Failure(InvalidRedirect);
      }
      assert next.value.protocol == "http:" || next.value.protocol == "https:" by {
        ExternalProtocol(lib, next.value);
      }
      return Success(Redirect(next.value));
    }
    if response.status < 200 || response.status >= 300 {
      return Failure(HttpError);
    }
    if response.contentType == "" || response.contentType !in o.allowedMimeTypes {
      return Failure(UnsupportedMimeType);
    }
    r := Success(Arrived(response.contentType));
  }

  lemma ExternalProtocol(lib: Library, url: Url)
    requires IsExternal(lib, url)
    ensures url.protocol == "http:" || url.protocol == "https:"
  {
  }

  // ---------------------------------------------------------------- when a fetch succeeds

  /** In time, the host resolves, the request is answered, and the answer is not too large. */
  ghost predicate IsAnswered(lib: Library, world: World, o: Options, hop: nat, url: Url, response: Response)
  {
    && world.elapsedMs(hop) < o.timeoutMs
    && (exists addresses :: PinnedTo(lib, world, hop, url, addresses) && world.requester(hop, url, addresses) == Success(response))
    && response.bodyBytes <= o.maxBytes && (response.declaredBytes.Some? ==> response.declaredBytes.value <= o.maxBytes)
  }

  ghost predicate LeadsTo(lib: Library, world: World, o: Options, hop: nat, url: Url, next: Url)
  {
    exists response :: IsAnswered(lib, world, o, hop, url, response) && PointsTo(lib, o, url, response, hop, next)
  }

  ghost predicate ArrivesAt(lib: Library, world: World, o: Options, hop: nat, url: Url)
  {
    exists response :: IsAnswered(lib, world, o, hop, url, response) && IsArrival(o, response)
  }

  /** The URLs redirect one to the next, none twice. */
  ghost predicate Redirects(lib: Library, world: World, o: Options, urls: seq<Url>)
  {
    && urls != [] && (forall i, j :: 0 <= i < j < |urls| ==> lib.href(urls[i]) != lib.href(urls[j]))
    && (forall i, j :: 0 <= i && j == i + 1 && j < |urls| ==> LeadsTo(lib, world, o, i, urls[i], urls[j]))
  }

  /** Following the redirects from `first` arrives at a document. */
  ghost predicate Chain(lib: Library, world: World, o: Options, first: Url, urls: seq<Url>)
  {
    Redirects(lib, world, o, urls) && urls[0] == first && ArrivesAt(lib, world, o, |urls| - 1, urls[|urls| - 1])
  }

  /** Some chain of redirects from the URL arrives at a document. */
  ghost predicate Arrives(lib: Library, world: World, o: Options, first: Url)
  {
    exists urls :: Chain(lib, world, o, first, urls)
  }

  /** An answer is the only one of its hop. */
  lemma OneAnswer(lib: Library, world: World, o: Options, hop: nat, url: Url, a: Response, b: Response)
    requires IsAnswered(lib, world, o, hop, url, a) && IsAnswered(lib, world, o, hop, url, b)
    ensures a == b
  {
    hide AllUsable, Family, NormalizeHostname;
  }

  /** Two ways to follow the redirects from one URL agree as far as they go. */
  lemma {:induction false} OneWay(lib: Library, world: World, o: Options, v: seq<Url>, w: seq<Url>, i: nat)
    requires Redirects(lib, world, o, v) && Redirects(lib, world, o, w) && v[0] == w[0] && i < |v| && i < |w|
    ensures v[i] == w[i]
  {
    hide LeadsTo;
    if i > 0 {
      OneWay(lib, world, o, v, w, i - 1);
      OneNext(lib, world, o, i - 1, v[i - 1], v[i], w[i]);
    }
  }

  lemma OneNext(lib: Library, world: World, o: Options, hop: nat, url: Url, v: Url, w: Url)
    requires LeadsTo(lib, world, o, hop, url, v) && LeadsTo(lib, world, o, hop, url, w)
    ensures v == w
  {
    hide IsAnswered, IsExternal;
    var a :| IsAnswered(lib, world, o, hop, url, a) && PointsTo(lib, o, url, a, hop, v);
    var b :| IsAnswered(lib, world, o, hop, url, b) && PointsTo(lib, o, url, b, hop, w);
    OneAnswer(lib, world, o, hop, url, a, b);
  }

  /** What the answer of a hop decides. */
  lemma AnswerDecides(lib: Library, world: World, o: Options, hop: nat, url: Url, response: Response)
    requires IsAnswered(lib, world, o, hop, url, response)
    ensures ArrivesAt(lib, world, o, hop, url) <==> IsArrival(o, response)
    ensures forall next :: LeadsTo(lib, world, o, hop, url, next) <==> PointsTo(lib, o, url, response, hop, next)
  {
    hide IsAnswered, IsArrival, PointsTo;
    forall other | IsAnswered(lib, world, o, hop, url, other) ensures other == response {
      OneAnswer(lib, world, o, hop, url, response, other);
    }
  }

  /** What a hop to the URL gives: an arrival, the one URL it redirects to, or nothing. */
  ghost predicate Gives(lib: Library, world: World, o: Options, hop: nat, url: Url, step: Option<Step>)
  {
    && (step.Some? && step.value.Arrived? <==> ArrivesAt(lib, world, o, hop, url))
    && forall next :: step == Some(Redirect(next)) <==> LeadsTo(lib, world, o, hop, url, next)
  }

  lemma NoAnswer(lib: Library, world: World, o: Options, hop: nat, url: Url)
    requires forall response :: !IsAnswered(lib, world, o, hop, url, response)
    ensures Gives(lib, world, o, hop, url, None)
  {
    hide IsAnswered, IsArrival, PointsTo;
  }

  /** Where following the redirects gets stuck, no chain arrives. */
  ghost predicate Stuck(lib: Library, world: World, o: Options, urls: seq<Url>)
    requires urls != []
  {
    var hop, url := |urls| - 1, urls[|urls| - 1];
    !ArrivesAt(lib, world, o, hop, url) && forall next :: LeadsTo(lib, world, o, hop, url, next) ==> exists i :: 0 <= i < |urls| && lib.href(urls[i]) == lib.href(next)
  }

  lemma StuckNoChain(lib: Library, world: World, o: Options, urls: seq<Url>, chain: seq<Url>)
    requires Redirects(lib, world, o, urls) && Stuck(lib, world, o, urls)
    ensures !Chain(lib, world, o, urls[0], chain)
  {
    hide LeadsTo, ArrivesAt;
    if Chain(lib, world, o, urls[0], chain) {
      var n := |urls|;
      if |chain| < n {
        OneWay(lib, world, o, urls, chain, |chain| - 1);
        ArrivalIsEnd(lib, world, o, |chain| - 1, chain[|chain| - 1], urls[|chain|]);
      } else {
        OneWay(lib, world, o, urls, chain, n - 1);
        if |chain| > n {
          assert LeadsTo(lib, world, o, n - 1, chain[n - 1], chain[n]);
          var i :| 0 <= i < n && lib.href(urls[i]) == lib.href(chain[n]);
          OneWay(lib, world, o, urls, chain, i);
        }
      }
    }
  }

  lemma ArrivalIsEnd(lib: Library, world: World, o: Options, hop: nat, url: Url, next: Url)
    ensures !(ArrivesAt(lib, world, o, hop, url) && LeadsTo(lib, world, o, hop, url, next))
  {
    hide IsAnswered, IsExternal;
    if ArrivesAt(lib, world, o, hop, url) && LeadsTo(lib, world, o, hop, url, next) {
      var a :| IsAnswered(lib, world, o, hop, url, a) && IsArrival(o, a);
      var b :| IsAnswered(lib, world, o, hop, url, b) && PointsTo(lib, o, url, b, hop, next);
      OneAnswer(lib, world, o, hop, url, a, b);
    }
  }

  /** How far the loop has followed the redirects; all URLs but the last are visited. */
  ghost predicate Path(lib: Library, world: World, o: Options, first: Url, urls: seq<Url>, visited: set<string>)
  {
    && urls != [] && urls[0] == first
    && (forall i, j :: 0 <= i && j == i + 1 && j < |urls| ==> LeadsTo(lib, world, o, i, urls[i], urls[j]))
    && (forall i, j :: 0 <= i < j < |urls| - 1 ==> lib.href(urls[i]) != lib.href(urls[j]))
    && (forall s :: s in visited <==> exists i :: 0 <= i < |urls| - 1 && lib.href(urls[i]) == s)
  }

  lemma PathNext(lib: Library, world: World, o: Options, first: Url, urls: seq<Url>, visited: set<string>, next: Url)
    requires Path(lib, world, o, first, urls, visited) && Gives(lib, world, o, |urls| - 1, urls[|urls| - 1], Some(Redirect(next)))
    requires lib.href(urls[|urls| - 1]) !in visited
    ensures Path(lib, world, o, first, urls + [next], visited + {lib.href(urls[|urls| - 1])})
  {
    hide LeadsTo;
    var n, longer, more := |urls| - 1, urls + [next], visited + {lib.href(urls[|urls| - 1])};
    forall i | 0 <= i < n ensures lib.href(longer[i]) != lib.href(longer[n]) {
      assert longer[i] == urls[i] && lib.href(urls[i]) in visited;
    }
    forall s ensures s in more <==> exists i :: 0 <= i < |longer| - 1 && lib.href(longer[i]) == s {
      if s in visited {
        var i :| 0 <= i < n && lib.href(urls[i]) == s;
        assert lib.href(longer[i]) == s;
      }
      if s == lib.href(urls[n]) {
        assert lib.href(longer[n]) == s;
      }
      if i :| 0 <= i < |longer| - 1 && lib.href(longer[i]) == s {
        assert i < n ==> lib.href(urls[i]) == s;
      }
    }
  }

  lemma PathArrives(lib: Library, world: World, o: Options, first: Url, urls: seq<Url>, visited: set<string>, step: Step)
    requires Path(lib, world, o, first, urls, visited) && lib.href(urls[|urls| - 1]) !in visited
    requires step.Arrived? && Gives(lib, world, o, |urls| - 1, urls[|urls| - 1], Some(step))
    ensures Arrives(lib, world, o, first)
  {
    hide LeadsTo, ArrivesAt;
    assert Chain(lib, world, o, first, urls);
  }

  lemma PathEnds(lib: Library, world: World, o: Options, first: Url, urls: seq<Url>, visited: set<string>, hop: nat, url: Url)
    requires Path(lib, world, o, first, urls, visited) && |urls| == hop + 1 && urls[hop] == url && lib.href(url) !in visited
    requires Gives(lib, world, o, hop, url, None)
    ensures !Arrives(lib, world, o, first)
  {
    hide LeadsTo, ArrivesAt, Chain;
    assert Redirects(lib, world, o, urls) && Stuck(lib, world, o, urls);
    forall chain ensures !Chain(lib, world, o, first, chain) {
      StuckNoChain(lib, world, o, urls, chain);
    }
  }

  lemma PathLoops(lib: Library, world: World, o: Options, first: Url, urls: seq<Url>, visited: set<string>)
    requires Path(lib, world, o, first, urls, visited) && lib.href(urls[|urls| - 1]) in visited
    ensures !Arrives(lib, world, o, first)
  {
    hide LeadsTo, ArrivesAt, Chain;
    var n := |urls| - 1;
    var before := urls[..n];
    var hop, url := n - 1, urls[n - 1];
    assert LeadsTo(lib, world, o, hop, url, urls[n]);
    var k :| 0 <= k < n && lib.href(urls[k]) == lib.href(urls[n]);
    assert before[k] == urls[k] && before[0] == first;
    ArrivalIsEnd(lib, world, o, hop, url, urls[n]);
    forall next | LeadsTo(lib, world, o, hop, url, next) ensures next == urls[n] {
      OneNext(lib, world, o, hop, url, next, urls[n]);
    }
    assert Redirects(lib, world, o, before) && Stuck(lib, world, o, before);
    forall chain ensures !Chain(lib, world, o, first, chain) {
      StuckNoChain(lib, world, o, before, chain);
    }
  }

  lemma TooLate(lib: Library, world: World, o: Options, hop: nat, url: Url)
    requires world.elapsedMs(hop) >= o.timeoutMs
    ensures Gives(lib, world, o, hop, url, None)
  {
  }

  /** A request is pinned to the same addresses whenever it is pinned. */
  lemma OnePin(lib: Library, world: World, hop: nat, url: Url, addresses: seq<Record>)
    requires PinnedTo(lib, world, hop, url, addresses)
    ensures forall other :: PinnedTo(lib, world, hop, url, other) ==> other == addresses
  {
    hide AllUsable, Family, NormalizeHostname;
  }

  /** Where a redirect points may be followed after the request that was redirected. */
  lemma StillFollows(lib: Library, o: Options, requests: seq<Request>, url: Url, addresses: seq<Record>, response: Response, redirectCount: nat, next: Url)
    requires MayFollow(lib, requests, url) && PointsTo(lib, o, url, response, redirectCount, next) && (Parsed(lib, url) ==> Produced(lib, next))
    requires Faithful(lib)
    ensures MayFollow(lib, requests + [Request(url, addresses)], next)
  {
    FaithfulParses(lib, url);
    hide IsExternal, Faithful;
  }

  lemma FaithfulParses(lib: Library, url: Url)
    requires Faithful(lib) && IsExternal(lib, url) && Produced(lib, url)
    ensures Parsed(lib, url)
  {
    assert lib.parse(lib.href(url)).value.(fragment := "") == url;
  }

  class Client {
    /** Every request that left the process. */
    var requests: seq<Request>

    /** The request of one hop, its answer, and a look at the answer's size. */
    method AskHop(lib: Library, world: World, o: Options, hop: nat, current: string, ghost url: Url)
      returns (r: Result<(Target, Response), Code>)
      requires Faithful(lib) && SafeRequests(lib, requests) && MayFollow(lib, requests, url) && current == lib.href(url)
      requires NotAsked(lib, requests, current)
      requires world.elapsedMs(hop) < o.timeoutMs
      modifies this
      ensures SafeRequests(lib, requests) && |requests| <= |old(requests)| + 1
      ensures r.Success? ==> r.value.0.url == url && requests == old(requests) + [Request(url, r.value.0.addresses)]
      ensures r.Success? ==> IsAnswered(lib, world, o, hop, url, r.value.1)
      ensures r.Failure? ==> forall response :: !IsAnswered(lib, world, o, hop, url, response)
    {
      hide IsExternal, Pinnable, Validate, PinnedTo;
      SameUrl(lib, url);
      var resolved := Resolve(lib, world, hop, current);
      if resolved.Failure? {
        return Failure(resolved.error);
      }
      var target := resolved.value;
      OneMoreRequest(lib, requests, Request(url, target.addresses));
      OnePin(lib, world, hop, url, target.addresses);
      hide SafeRequests, Faithful, MayFollow;
      requests := requests + [Request(target.url, target.addresses)];
      var answer := world.requester(hop, target.url, target.addresses);
      if answer.Failure? {
        return Failure(answer.error);
      }
      var response := answer.value;
      if response.bodyBytes > o.maxBytes || (response.declaredBytes.Some? && response.declaredBytes.value > o.maxBytes) {
        return Failure(ResponseTooLarge);
      }
      r := Success((target, response));
    }

    /** One hop: the request and what its answer leads to. */
    method Visit(lib: Library, world: World, o: Options, redirectCount: nat, current: string, ghost url: Url)
      returns (r: Result<(Hop, Step), Code>)
      requires Faithful(lib) && SafeRequests(lib, requests) && MayFollow(lib, requests, url) && current == lib.href(url)
      requires NotAsked(lib, requests, current)
      requires world.elapsedMs(redirectCount) < o.timeoutMs
      modifies this
      ensures SafeRequests(lib, requests) && |requests| <= |old(requests)| + 1
      ensures r.Success? ==>
        var hop, step := r.value.0, r.value.1;
        && requests == old(requests) + [Request(url, hop.addresses)] && hop.url == current
        && (step.Redirect? ==> IsRedirect(hop.status) && redirectCount < o.maxRedirects && MayFollow(lib, requests, step.next))
        && (step.Arrived? ==> 200 <= hop.status < 300 && step.contentType in o.allowedMimeTypes)
      ensures Gives(lib, world, o, redirectCount, url, if r.Success? then Some(r.value.1) else None)
    {
      hide IsAnswered, IsExternal, Produced, Parsed, SafeRequests, Faithful, NotAsked, ArrivesAt, LeadsTo, MayFollow;
      ghost var before := requests;
      var asked := AskHop(lib, world, o, redirectCount, current, url);
      if asked.Failure? {
        NoAnswer(lib, world, o, redirectCount, url);
        return Failure(asked.error);
      }
      var target, response := asked.value.0, asked.value.1;
      AnswerDecides(lib, world, o, redirectCount, url, response);
      var step := Judge(lib, o, target.url, response, redirectCount);
      if step.Failure? {
        return Failure(step.error);
      }
      if step.value.Redirect? {
        StillFollows(lib, o, before, url, target.addresses, response, redirectCount, step.value.next);
      }
      r := Success((Hop(lib.href(target.url), target.addresses, response.status), step.value));
    }

    /**
      `safeFetch`. Whatever the network answers: at most `maxRedirects + 1` requests, all safe; a
      result has one hop per request, one more than its redirects, and only the last is no redirect.
      A fetch succeeds exactly when the options and the URL are valid and following the redirects
      arrives at a document.
     */
    method Fetch(lib: Library, world: World, o: Options, value: string) returns (r: Result<Fetched, Code>)
      requires Faithful(lib)
      modifies this
      ensures SafeRequests(lib, requests) && |requests| <= (if ValidOptions(o) then o.maxRedirects + 1 else 0)
      ensures r.Success? ==> IsResult(lib, o, requests, r.value)
      ensures r.Success? <==>
        && 1 <= o.timeoutMs <= 30000 && 1 <= o.maxBytes <= 10000000 && 0 <= o.maxRedirects <= 10 && o.allowedMimeTypes != {}
        && 1 <= |o.userAgent| <= 256 && '\r' !in o.userAgent && '\n' !in o.userAgent && Validate(lib, value).Success?
        && Arrives(lib, world, o, Validate(lib, value).value)
    {
      requests := [];
      if !ValidOptions(o) {
        return Failure(FetchFailed);
      }
      hide Faithful, IsResult, Chain, IsExternal, Parsed;
      var first := Validate(lib, value);
      if first.Failure? {
        return Failure(first.error);
      }
      hide Validate;
      r := Follow(lib, world, o, first.value);
    }

    /** The loop of `safeFetch`. */
    method Follow(lib: Library, world: World, o: Options, first: Url) returns (r: Result<Fetched, Code>)
      requires Faithful(lib) && 0 <= o.maxRedirects && requests == [] && IsExternal(lib, first) && Parsed(lib, first)
      modifies this
      ensures SafeRequests(lib, requests) && |requests| <= o.maxRedirects + 1
      ensures r.Success? ==> IsResult(lib, o, requests, r.value)
      ensures r.Success? <==> Arrives(lib, world, o, first)
    {
      hide *;
      var requestedUrl := lib.href(first);
      var current := requestedUrl;
      ghost var urls := [first];
      var visited: set<string> := {};
      var hops: seq<Hop> := [];
      var redirectCount := 0;
      GoingFirst(lib, world, o, first);
      while true
        invariant 0 <= redirectCount <= o.maxRedirects
        invariant Going(lib, world, o, requests, hops, visited, requestedUrl, current, urls, redirectCount)
        invariant |urls| == redirectCount + 1 && urls[0] == first
        decreases o.maxRedirects - redirectCount
      {
        ghost var url := urls[redirectCount];
        GoingIs(lib, world, o, requests, hops, visited, requestedUrl, current, urls, redirectCount);
        if current in visited {
          PathLoops(lib, world, o, first, urls, visited);
          return Failure(RedirectLoop);
        }
        if world.elapsedMs(redirectCount) >= o.timeoutMs {
          TooLate(lib, world, o, redirectCount, url);
          PathEnds(lib, world, o, first, urls, visited, redirectCount, url);
          return Failure(TimedOut);
        }
        ghost var before := requests;
        var answer := Visit(lib, world, o, redirectCount, current, url);
        if answer.Failure? {
          PathEnds(lib, world, o, first, urls, visited, redirectCount, url);
          return Failure(answer.error);
        }
        var hop, step := answer.value.0, answer.value.1;
        match step
        case Arrived(contentType) =>
          r := Success(Fetched(requestedUrl, current, hop.status, contentType, redirectCount, hops + [hop]));
          GoingArrives(lib, world, o, before, hops, visited, requestedUrl, current, urls, redirectCount, requests, hop, r.value);
          return;
        case Redirect(next) =>
          GoingOn(lib, world, o, before, hops, visited, requestedUrl, current, urls, redirectCount, requests, hop, next);
          visited := visited + {current};
          hops := hops + [hop];
          urls := urls + [next];
          current := lib.href(next);
          redirectCount := redirectCount + 1;
      }
    }
  }

  /** Where the loop stands: the requests and hops so far, what is visited, and the URL that is next. */
  ghost predicate Going(lib: Library, world: World, o: Options, requests: seq<Request>, hops: seq<Hop>, visited: set<string>,
                        requestedUrl: string, current: string, urls: seq<Url>, redirectCount: nat)
  {
    && |requests| == redirectCount && |urls| == redirectCount + 1 && current == lib.href(urls[redirectCount])
    && SafeRequests(lib, requests) && MayFollow(lib, requests, urls[redirectCount])
    && Trail(lib, requests, hops, visited, requestedUrl, current) && Path(lib, world, o, urls[0], urls, visited)
  }

  lemma GoingFirst(lib: Library, world: World, o: Options, first: Url)
    requires IsExternal(lib, first) && Parsed(lib, first)
    ensures Going(lib, world, o, [], [], {}, lib.href(first), lib.href(first), [first], 0)
  {
    hide IsExternal, Parsed, LeadsTo;
  }

  lemma GoingIs(lib: Library, world: World, o: Options, requests: seq<Request>, hops: seq<Hop>, visited: set<string>,
                requestedUrl: string, current: string, urls: seq<Url>, redirectCount: nat)
    requires Going(lib, world, o, requests, hops, visited, requestedUrl, current, urls, redirectCount)
    ensures |requests| == redirectCount && |urls| == redirectCount + 1 && current == lib.href(urls[redirectCount])
    ensures SafeRequests(lib, requests) && MayFollow(lib, requests, urls[redirectCount]) && Path(lib, world, o, urls[0], urls, visited)
    ensures current !in visited ==> NotAsked(lib, requests, current)
  {
    hide SafeRequests, MayFollow, Trail, Path, NotAsked;
    if current !in visited {
      TrailFresh(lib, requests, hops, visited, requestedUrl, current);
    }
  }

  lemma GoingArrives(lib: Library, world: World, o: Options, before: seq<Request>, hops: seq<Hop>, visited: set<string>,
                     requestedUrl: string, current: string, urls: seq<Url>, redirectCount: nat, requests: seq<Request>, hop: Hop, f: Fetched)
    requires Going(lib, world, o, before, hops, visited, requestedUrl, current, urls, redirectCount) && current !in visited
    requires requests == before + [Request(urls[redirectCount], hop.addresses)] && hop.url == current
    requires f == Fetched(requestedUrl, current, hop.status, f.contentType, redirectCount, hops + [hop])
    requires 200 <= hop.status < 300 && f.contentType in o.allowedMimeTypes
    requires Gives(lib, world, o, redirectCount, urls[redirectCount], Some(Arrived(f.contentType)))
    ensures IsResult(lib, o, requests, f) && Arrives(lib, world, o, urls[0])
  {
    assert |hops| == |before| by {
      hide Path, SafeRequests, MayFollow;
    }
    hide SafeRequests, MayFollow, Trail, Path, IsResult, Arrives, Gives, Reached;
    TrailNext(lib, before, hops, visited, requestedUrl, current, Request(urls[redirectCount], hop.addresses), hop);
    PathArrives(lib, world, o, urls[0], urls, visited, Arrived(f.contentType));
    ReachedResult(lib, o, requests, f, visited + {current});
  }

  lemma GoingOn(lib: Library, world: World, o: Options, before: seq<Request>, hops: seq<Hop>, visited: set<string>,
                requestedUrl: string, current: string, urls: seq<Url>, redirectCount: nat, requests: seq<Request>, hop: Hop, next: Url)
    requires Going(lib, world, o, before, hops, visited, requestedUrl, current, urls, redirectCount) && current !in visited
    requires requests == before + [Request(urls[redirectCount], hop.addresses)] && hop.url == current && IsRedirect(hop.status)
    requires SafeRequests(lib, requests) && MayFollow(lib, requests, next)
    requires Gives(lib, world, o, redirectCount, urls[redirectCount], Some(Redirect(next)))
    ensures Going(lib, world, o, requests, hops + [hop], visited + {current}, requestedUrl, lib.href(next), urls + [next], redirectCount + 1)
  {
    hide SafeRequests, MayFollow, Trail, Path, Gives, Reached, IsRedirect;
    TrailNext(lib, before, hops, visited, requestedUrl, current, Request(urls[redirectCount], hop.addresses), hop);
    TrailOnward(lib, requests, hops + [hop], visited + {current}, requestedUrl, current, lib.href(next));
    PathNext(lib, world, o, urls[0], urls, visited, next);
  }

  /** A result of requests: one hop for each, of which all but the last are redirects. */
  ghost predicate IsResult(lib: Library, o: Options, requests: seq<Request>, f: Fetched)
  {
    && Records(lib, f.hops, requests) && |f.hops| == f.redirectCount + 1
    && (forall i :: 0 <= i < f.redirectCount ==> IsRedirect(f.hops[i].status))
    && 200 <= f.status < 300 && f.contentType in o.allowedMimeTypes
    && f.requestedUrl == f.hops[0].url && f.finalUrl == f.hops[f.redirectCount].url
  }

  lemma ReachedResult(lib: Library, o: Options, requests: seq<Request>, f: Fetched, visited: set<string>)
    requires Reached(lib, requests, f.hops, visited, f.requestedUrl, f.finalUrl)
    requires |f.hops| == f.redirectCount + 1 && 200 <= f.status < 300 && f.contentType in o.allowedMimeTypes
    ensures IsResult(lib, o, requests, f)
  {
  }

  /** Where the loop stands: all hops so far were redirects, their URLs are visited, and they start at the requested URL. */
  ghost predicate Trail(lib: Library, requests: seq<Request>, hops: seq<Hop>, visited: set<string>, requestedUrl: string, current: string)
  {
    && Records(lib, hops, requests) && (forall i :: 0 <= i < |hops| ==> hops[i].url in visited && IsRedirect(hops[i].status))
    && (if hops == [] then current else hops[0].url) == requestedUrl
  }

  /** No request has been made for the URL. */
  ghost predicate NotAsked(lib: Library, requests: seq<Request>, current: string)
  {
    forall i :: 0 <= i < |requests| ==> lib.href(requests[i].url) != current
  }

  lemma TrailFresh(lib: Library, requests: seq<Request>, hops: seq<Hop>, visited: set<string>, requestedUrl: string, current: string)
    requires Trail(lib, requests, hops, visited, requestedUrl, current) && current !in visited
    ensures NotAsked(lib, requests, current)
  {
    hide IsRedirect;
    forall i | 0 <= i < |requests| ensures lib.href(requests[i].url) != current {
      assert hops[i].url == lib.href(requests[i].url) && hops[i].url in visited;
    }
  }

  /** The hop just made. */
  ghost predicate Reached(lib: Library, requests: seq<Request>, hops: seq<Hop>, visited: set<string>, requestedUrl: string, current: string)
  {
    && Records(lib, hops, requests) && hops != [] && hops[0].url == requestedUrl && hops[|hops| - 1].url == current
    && (forall i :: 0 <= i < |hops| ==> hops[i].url in visited)
    && (forall i :: 0 <= i < |hops| - 1 ==> IsRedirect(hops[i].status))
  }

  lemma TrailNext(lib: Library, requests: seq<Request>, hops: seq<Hop>, visited: set<string>, requestedUrl: string, current: string,
                  request: Request, hop: Hop)
    requires Trail(lib, requests, hops, visited, requestedUrl, current)
    requires hop.url == current == lib.href(request.url) && hop.addresses == request.addresses
    ensures Reached(lib, requests + [request], hops + [hop], visited + {current}, requestedUrl, current)
  {
    hide IsRedirect;
  }

  lemma TrailOnward(lib: Library, requests: seq<Request>, hops: seq<Hop>, visited: set<string>, requestedUrl: string, current: string, next: string)
    requires Reached(lib, requests, hops, visited, requestedUrl, current) && IsRedirect(hops[|hops| - 1].status)
    ensures Trail(lib, requests, hops, visited, requestedUrl, next)
  {
    hide IsRedirect;
  }

  /** What the requests' safety says of the hops of a result. */
  lemma HopsOfResult(lib: Library, hops: seq<Hop>, requests: seq<Request>, i: nat, j: nat)
    requires SafeRequests(lib, requests) && Records(lib, hops, requests) && i < j < |hops|
    ensures hops[i].url != hops[j].url && Pinnable(lib, hops[j].addresses)
  {
    assert lib.href(requests[i].url) == hops[i].url && lib.href(requests[j].url) == hops[j].url;
  }

  lemma SameUrl(lib: Library, url: Url)
    requires Faithful(lib) && IsExternal(lib, url) && Produced(lib, url)
    ensures Validate(lib, lib.href(url)) == Success(url)
  {
    assert lib.parse(lib.href(url)) == Some(url);
    assert IsExternal(lib, url) ==> url.fragment == "";
    assert url.(fragment := "") == url;
  }
}
