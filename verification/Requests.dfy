/** The deny list, and the two request functions that follow redirects by hand. */
module Requests {
  import opened Wrappers
  import opened Addresses

  // ---- the deny list ----

  /** The address library: readers of addresses and ranges, and the writer of addresses. */
  datatype Library = Library(
    parse: string -> Option<Address>,
    parseRange: string -> Option<Range>,
    text: Address -> string)

  /** What is written reads back. */
  ghost predicate Sound(lib: Library) {
    forall ip: Address :: lib.parse(lib.text(ip)) == Some(ip)
  }

  /** `Pass`, or what is thrown. */
  datatype Check = Pass | Denied | DeniedByRange | BadRange | BadAddress

  /** One entry against a normalized address. */
  function Verdict(lib: Library, entry: string, ip: Address): Check {
    if '/' in entry then
      var parsed := lib.parseRange(entry);
      if parsed.None? then BadRange
      else
        var Cidr(range, mask) := parsed.value;
        if IsMapped(range) && mask < 96 then Pass
        else
          var m := if IsMapped(range) then mask - 96 else mask;
          if ip.V4? == Normal(range).V4? && Match(ip, Normal(range), m) then DeniedByRange else Pass
    else
      match lib.parse(entry)
      case Some(e) => if lib.text(ip) == lib.text(Normal(e)) then Denied else Pass
      case None => if lib.text(ip) == entry then Denied else Pass
  }

  function FirstVerdict(lib: Library, denyList: seq<string>, ip: Address): Check {
    if denyList == [] then Pass
    else if Verdict(lib, denyList[0], ip) != Pass then Verdict(lib, denyList[0], ip)
    else FirstVerdict(lib, denyList[1..], ip)
  }

  function CheckAddress(lib: Library, text: string, denyList: seq<string>): Check {
    match lib.parse(text)
    case None => BadAddress
    case Some(ip) => FirstVerdict(lib, denyList, Normal(ip))
  }

  method IsDeniedIP(lib: Library, text: string, denyList: seq<string>) returns (check: Check)
    ensures check == CheckAddress(lib, text, denyList)
  {
    hide Match;
    var parsed := lib.parse(text);
    if parsed.None? { return BadAddress; }
    var ip := parsed.value;
    if IsMapped(ip) { ip := Normal(ip); }
    assert denyList[0..] == denyList;
    for i := 0 to |denyList|
      invariant FirstVerdict(lib, denyList[i..], ip) == FirstVerdict(lib, denyList, ip)
    {
      var entry := denyList[i];
      assert denyList[i..][0] == entry && denyList[i..][1..] == denyList[i + 1..];
      if '/' in entry {
        var cidr := lib.parseRange(entry);
        if cidr.None? { return BadRange; }
        var range, mask := cidr.value.range, cidr.value.mask;
        if IsMapped(range) {
          if mask < 96 { continue; }
          range := Normal(range);
          mask := mask - 96;
        }
        if ip.V4? == range.V4? {
          if Match(ip, range, mask) { return DeniedByRange; }
        }
      } else {
        var address := lib.parse(entry);
        if address.Some? {
          var e := address.value;
          if IsMapped(e) { e := Normal(e); }
          if lib.text(ip) == lib.text(e) { return Denied; }
        } else if lib.text(ip) == entry {
          return Denied;
        }
      }
    }
    return Pass;
  }

  /** What an entry denies, in the one address space: unreadable ranges deny everything, names nothing. */
  ghost predicate Denies(lib: Library, entry: string, ip: Address) {
    if '/' in entry then
      var parsed := lib.parseRange(entry);
      parsed.Some? ==>
        var Cidr(range, mask) := parsed.value;
        var m := EmbeddedMask(range, mask);
        && InBlock(Embedded(ip), Embedded(range), Pow2(128 - m))
        && (IsV4(range) || IsV4(ip) ==> m >= 96)
    else
      lib.parse(entry).Some? && Embedded(lib.parse(entry).value) == Embedded(ip)
  }

  lemma VerdictMeans(lib: Library, entry: string, ip: Address)
    requires Sound(lib)
    ensures Verdict(lib, entry, Normal(ip)) != Pass <==> Denies(lib, entry, ip)
  {
    hide Pow2;
    hide Match;
    hide InBlock;
    hide Embedded;
    hide EmbeddedMask;
    if '/' in entry {
      var parsed := lib.parseRange(entry);
      if parsed.Some? {
        var Cidr(range, mask) := parsed.value;
        RangeIsBlock(range, mask, ip);
      }
    } else {
      var parsed := lib.parse(entry);
      if parsed.Some? {
        var n: Address, e: Address := Normal(ip), Normal(parsed.value);
        assert lib.text(n) == lib.text(e) ==> n == e by {
          assert lib.parse(lib.text(n)) == Some(n) && lib.parse(lib.text(e)) == Some(e);
        }
        NormalIsEmbedded(parsed.value, ip);
      } else {
        var n: Address := Normal(ip);
        assert lib.parse(lib.text(n)) == Some(n);
      }
    }
  }

  /** An address is refused exactly when it cannot be read or some entry denies it; the first such entry decides
      how. */
  lemma {:induction false} RefusedIff(lib: Library, denyList: seq<string>, ip: Address)
    requires Sound(lib)
    ensures var check := FirstVerdict(lib, denyList, Normal(ip));
      && (check != Pass <==> exists i | 0 <= i < |denyList| :: Denies(lib, denyList[i], ip))
      && (check != Pass ==> exists i | 0 <= i < |denyList| ::
            && check == Verdict(lib, denyList[i], Normal(ip))
            && Denies(lib, denyList[i], ip)
            && forall j | 0 <= j < i :: !Denies(lib, denyList[j], ip))
  {
    hide Denies;
    hide Verdict;
    if denyList != [] {
      var rest := denyList[1..];
      VerdictMeans(lib, denyList[0], ip);
      RefusedIff(lib, rest, ip);
      assert forall i | 0 <= i < |rest| :: rest[i] == denyList[i + 1];
      assert forall i | 1 <= i < |denyList| :: denyList[i] == rest[i - 1];
      if Verdict(lib, denyList[0], Normal(ip)) == Pass && FirstVerdict(lib, rest, Normal(ip)) != Pass {
        var i :| 0 <= i < |rest| && FirstVerdict(lib, rest, Normal(ip)) == Verdict(lib, rest[i], Normal(ip))
          && Denies(lib, rest[i], ip) && forall j | 0 <= j < i :: !Denies(lib, rest[j], ip);
        assert denyList[i + 1] == rest[i];
        forall j | 0 <= j < i + 1 ensures !Denies(lib, denyList[j], ip) {}
      }
    }
  }

  // ---- targets ----

  datatype Url = Url(hostname: string, secure: bool)

  datatype Record = Record(address: string, family: nat)

  datatype Target = Target(hostname: string, ip: string, family: nat, secure: bool)

  /** A connection that goes to `address` whatever the host name. */
  datatype Agent = Agent(address: string, family: nat, secure: bool, ca: Option<string>)

  /** What reaches the wire. */
  datatype Request = Request(url: string, httpMethod: Option<string>, body: Option<string>, agent: Option<Agent>)

  /** An absent location header is the empty string. */
  datatype Response = Response(status: int, location: string)

  datatype Failure =
    | NoUrl
    | BadUrl
    | LookupFailed
    | NotResolved
    | Refused(check: Check)
    | NoAnswer
    | TooManyRedirects

  /** The outside: URLs are text that `parseUrl` and `join` read; a lookup and an answer may differ from step to
      step. */
  datatype World = World(
    lib: Library,
    denyList: seq<string>,
    parseUrl: string -> Option<Url>,
    join: (string, string) -> Option<string>,
    upper: string -> string,
    lookup: (nat, string) -> Option<seq<Record>>,
    answer: (nat, Request) -> Option<Response>)

  function HostOf(hostname: string): string {
    if "[" <= hostname && |hostname| > 1 && hostname[|hostname| - 1] == ']' then hostname[1..|hostname| - 1]
    else hostname
  }

  function CheckRecords(w: World, records: seq<Record>): Check {
    if records == [] then Pass
    else
      var check := CheckAddress(w.lib, records[0].address, w.denyList);
      if check != Pass then check else CheckRecords(w, records[1..])
  }

  function FirstOfFamily4(records: seq<Record>): Option<Record> {
    if records == [] then None else if records[0].family == 4 then Some(records[0]) else FirstOfFamily4(records[1..])
  }

  function Chosen(records: seq<Record>): Record
    requires records != []
  {
    var first := FirstOfFamily4(records);
    if first.Some? then first.value else records[0]
  }

  function Resolve(w: World, step: nat, url: string): Result<Target, Failure> {
    var parsed := w.parseUrl(url);
    if parsed.None? then Err(BadUrl)
    else
      var host, secure := HostOf(parsed.value.hostname), parsed.value.secure;
      if w.lib.parse(host).Some? then
        var check := CheckAddress(w.lib, host, w.denyList);
        if check != Pass then Err(Refused(check)) else Ok(Target(host, host, if ':' in host then 6 else 4, secure))
      else
        var records := w.lookup(step, host);
        if records.None? then Err(LookupFailed)
        else if records.value == [] then Err(NotResolved)
        else
          var check := CheckRecords(w, records.value);
          if check != Pass then Err(Refused(check))
          else
            var chosen := Chosen(records.value);
            Ok(Target(host, chosen.address, chosen.family, secure))
  }

  method ResolveAndValidate(w: World, step: nat, url: string) returns (r: Result<Target, Failure>)
    ensures r == Resolve(w, step, url)
  {
    hide CheckAddress;
    var parsed := w.parseUrl(url);
    if parsed.None? { return Err(BadUrl); }
    var host, secure := HostOf(parsed.value.hostname), parsed.value.secure;
    if w.lib.parse(host).Some? {
      var check := IsDeniedIP(w.lib, host, w.denyList);
      if check != Pass { return Err(Refused(check)); }
      return Ok(Target(host, host, if ':' in host then 6 else 4, secure));
    }
    var answer := w.lookup(step, host);
    if answer.None? { return Err(LookupFailed); }
    var records := answer.value;
    if records == [] { return Err(NotResolved); }
    assert records[0..] == records;
    for i := 0 to |records|
      invariant CheckRecords(w, records[i..]) == CheckRecords(w, records)
    {
      assert records[i..][0] == records[i] && records[i..][1..] == records[i + 1..];
      var check := IsDeniedIP(w.lib, records[i].address, w.denyList);
      if check != Pass { return Err(Refused(check)); }
    }
    var chosen := Chosen(records);
    return Ok(Target(host, chosen.address, chosen.family, secure));
  }

  function Pinned(target: Target, ca: Option<string>): Agent { Agent(target.ip, target.family, target.secure, ca) }

  // ---- following redirects ----

  datatype Outcome = Responded(response: Response) | Failed(failure: Failure)

  predicate IsRedirect(response: Response) { 300 <= response.status < 400 && response.location != "" }

  /** A redirect that turns the request into a GET. */
  predicate TurnsToGet(w: World, response: Response, httpMethod: Option<string>) {
    || response.status == 303
    || (&& response.status in {301, 302}
        && httpMethod.Some? && httpMethod.value != ""
        && w.upper(httpMethod.value) in ["POST", "PUT", "PATCH"])
  }

  /** All requests of one call, and its end. */
  function Follow(w: World, step: nat, url: string, httpMethod: Option<string>, body: Option<string>,
                  ca: Option<string>, maxRedirects: int): (seq<Request>, Outcome)
    decreases maxRedirects - step + 1
  {
    if step > maxRedirects then ([], Failed(TooManyRedirects))
    else
      var target := Resolve(w, step, url);
      if target.Err? then ([], Failed(target.error))
      else
        var request := Request(url, httpMethod, body, Some(Pinned(target.value, ca)));
        var answer := w.answer(step, request);
        if answer.None? then ([request], Failed(NoAnswer))
        else if !IsRedirect(answer.value) then ([request], Responded(answer.value))
        else if step + 1 > maxRedirects then ([request], Failed(TooManyRedirects))
        else
          var next := w.join(answer.value.location, url);
          if next.None? then ([request], Failed(BadUrl))
          else
            var toGet := TurnsToGet(w, answer.value, httpMethod);
            var (rest, outcome) := Follow(w, step + 1, next.value, if toGet then Some("GET") else httpMethod,
                                          if toGet then None else body, ca, maxRedirects);
            ([request] + rest, outcome)
  }

  /** The configuration that is carried from one request to the next; both agents may be set. */
  datatype Config = Config(
    url: string,
    httpMethod: Option<string>,
    data: Option<string>,
    httpAgent: Option<Agent>,
    httpsAgent: Option<Agent>)

  /** The client takes the agent of the URL's protocol. */
  function Sent(w: World, config: Config): Request {
    var parsed := w.parseUrl(config.url);
    var agent := if parsed.Some? && parsed.value.secure then config.httpsAgent else config.httpAgent;
    Request(config.url, config.httpMethod, config.data, agent)
  }

  method SecureAxiosRequest(w: World, url: Option<string>, httpMethod: Option<string>, data: Option<string>,
                            maxRedirects: int, ca: Option<string>) returns (trace: seq<Request>, outcome: Outcome)
    ensures if url.None? || url.value == "" then trace == [] && outcome == Failed(NoUrl)
            else (trace, outcome) == Follow(w, 0, url.value, httpMethod, data, ca, maxRedirects)
  {
    hide Resolve;
    hide TurnsToGet;
    trace := [];
    if url.None? || url.value == "" { return [], Failed(NoUrl); }
    var currentUrl := url.value;
    var redirects: nat := 0;
    var config := Config(currentUrl, httpMethod, data, None, None);
    ghost var all := Follow(w, 0, currentUrl, httpMethod, data, ca, maxRedirects);
    assert [] + all.0 == all.0;
    while redirects <= maxRedirects
      invariant var rest := Follow(w, redirects, currentUrl, config.httpMethod, config.data, ca, maxRedirects);
        all == (trace + rest.0, rest.1)
      decreases maxRedirects - redirects + 1
    {
      var target := ResolveAndValidate(w, redirects, currentUrl);
      if target.Err? {
        assert trace + [] == trace;
        return trace, Failed(target.error);
      }
      ResolvedProtocol(w, redirects, currentUrl);
      var agent := Pinned(target.value, ca);
      config := config.(url := currentUrl);
      if target.value.secure { config := config.(httpsAgent := Some(agent)); }
      else { config := config.(httpAgent := Some(agent)); }

      var request := Sent(w, config);
      ghost var before := trace;
      trace := trace + [request];
      var answer := w.answer(redirects, request);
      if answer.None? { return trace, Failed(NoAnswer); }
      var response := answer.value;
      if response.status < 300 || response.status >= 400 { return trace, Responded(response); }
      if response.location == "" { return trace, Responded(response); }
      redirects := redirects + 1;
      if redirects > maxRedirects { return trace, Failed(TooManyRedirects); }
      var next := w.join(response.location, currentUrl);
      if next.None? { return trace, Failed(BadUrl); }
      currentUrl := next.value;
      if TurnsToGet(w, response, config.httpMethod) {
        config := config.(httpMethod := Some("GET"), data := None);
      }
      Regrouped(before, request, Follow(w, redirects, currentUrl, config.httpMethod, config.data, ca, maxRedirects).0);
    }
    assert trace + [] == trace;
    return trace, Failed(TooManyRedirects);
  }

  lemma Regrouped(a: seq<Request>, x: Request, b: seq<Request>)
    ensures a + ([x] + b) == a + [x] + b
  {
  }

  lemma ResolvedProtocol(w: World, step: nat, url: string)
    requires Resolve(w, step, url).Ok?
    ensures w.parseUrl(url).Some? && Resolve(w, step, url).value.secure == w.parseUrl(url).value.secure
  {
  }

  /** The options carried from one request to the next. */
  datatype Init = Init(httpMethod: Option<string>, body: Option<string>)

  method SecureFetch(w: World, url: string, init: Init, maxRedirects: int, ca: Option<string>)
    returns (trace: seq<Request>, outcome: Outcome)
    ensures (trace, outcome) == Follow(w, 0, url, init.httpMethod, init.body, ca, maxRedirects)
  {
    hide Resolve;
    hide TurnsToGet;
    trace := [];
    var currentUrl := url;
    var redirectCount: nat := 0;
    var currentInit := init;
    ghost var all := Follow(w, 0, url, init.httpMethod, init.body, ca, maxRedirects);
    assert [] + all.0 == all.0;
    while redirectCount <= maxRedirects
      invariant
        var rest := Follow(w, redirectCount, currentUrl, currentInit.httpMethod, currentInit.body, ca, maxRedirects);
        all == (trace + rest.0, rest.1)
      decreases maxRedirects - redirectCount + 1
    {
      var resolved := ResolveAndValidate(w, redirectCount, currentUrl);
      if resolved.Err? {
        assert trace + [] == trace;
        return trace, Failed(resolved.error);
      }
      var request := Request(currentUrl, currentInit.httpMethod, currentInit.body, Some(Pinned(resolved.value, ca)));
      ghost var before := trace;
      trace := trace + [request];
      var answer := w.answer(redirectCount, request);
      if answer.None? { return trace, Failed(NoAnswer); }
      var response := answer.value;
      if response.status < 300 || response.status >= 400 { return trace, Responded(response); }
      if response.location == "" { return trace, Responded(response); }
      redirectCount := redirectCount + 1;
      if redirectCount > maxRedirects { return trace, Failed(TooManyRedirects); }
      var next := w.join(response.location, currentUrl);
      if next.None? { return trace, Failed(BadUrl); }
      currentUrl := next.value;
      if TurnsToGet(w, response, currentInit.httpMethod) { currentInit := Init(Some("GET"), None); }
      Regrouped(before, request,
                Follow(w, redirectCount, currentUrl, currentInit.httpMethod, currentInit.body, ca, maxRedirects).0);
    }
    assert trace + [] == trace;
    return trace, Failed(TooManyRedirects);
  }

  // ---- every run ----

  /** The answer names another place, with a status that starts in 3. */
  predicate AsksElsewhere(response: Response) { response.status / 100 == 3 && response.location != "" }

  /** Section 15.4 of RFC 9110: 303 asks for a GET; after 301 and 302 a request that submits something becomes one,
      too; 307 and 308 keep the method. */
  predicate BecomesGet(w: World, status: int, httpMethod: Option<string>) {
    if status == 303 then true
    else if status == 301 || status == 302 then httpMethod.Some? && Submits(w, httpMethod.value)
    else false
  }

  predicate Submits(w: World, httpMethod: string) {
    httpMethod != "" && (w.upper(httpMethod) == "POST" || w.upper(httpMethod) == "PUT" || w.upper(httpMethod)
        == "PATCH")
  }

  /** The code's tests say the same. */
  lemma RedirectTables(w: World)
    ensures forall response :: IsRedirect(response) <==> AsksElsewhere(response)
    ensures forall response, httpMethod ::
      TurnsToGet(w, response, httpMethod) <==> BecomesGet(w, response.status, httpMethod)
  {
  }

  /** `next` is what the answer to `request` asks for. */
  predicate IsNext(w: World, step: nat, request: Request, next: Request) {
    var answer := w.answer(step, request);
    && answer.Some? && AsksElsewhere(answer.value)
    && w.join(answer.value.location, request.url) == Some(next.url)
    && (if BecomesGet(w, answer.value.status, request.httpMethod) then next.httpMethod == Some("GET") && next.body
        == None
        else next.httpMethod == request.httpMethod && next.body == request.body)
  }

  /** The request goes to the target that was resolved for it. */
  predicate IsPinned(w: World, step: nat, request: Request, ca: Option<string>) {
    var target := Resolve(w, step, request.url);
    && target.Ok?
    && request.agent == Some(Agent(target.value.ip, target.value.family, target.value.secure, ca))
  }

  /** A URL was asked for at `step`, but no request could be made. */
  predicate Unreachable(w: World, step: nat, url: string, outcome: Outcome) {
    Resolve(w, step, url).Err? && outcome == Failed(Resolve(w, step, url).error)
  }

  /** How a run ends after its last request. */
  predicate Ends(w: World, step: nat, last: Request, maxRedirects: int, outcome: Outcome) {
    match w.answer(step, last)
    case None => outcome == Failed(NoAnswer)
    case Some(response) =>
      if !AsksElsewhere(response) then outcome == Responded(response)
      else if step >= maxRedirects then outcome == Failed(TooManyRedirects)
      else
        match w.join(response.location, last.url)
        case None => outcome == Failed(BadUrl)
        case Some(next) => Unreachable(w, step + 1, next, outcome)
  }

  /** A run, told by its requests: each is pinned to the target resolved for it, each but the first is what the
      answer to the one before asks for, and the answer to the last one decides the outcome. */
  predicate IsRun(w: World, step: nat, url: string, httpMethod: Option<string>, body: Option<string>,
                  ca: Option<string>, maxRedirects: int, trace: seq<Request>, outcome: Outcome)
  {
    if trace == [] then
      if step > maxRedirects then outcome == Failed(TooManyRedirects) else Unreachable(w, step, url, outcome)
    else
      && trace[0].url == url && trace[0].httpMethod == httpMethod && trace[0].body == body
      && step + |trace| <= maxRedirects + 1
      && (forall i | 0 <= i < |trace| :: IsPinned(w, step + i, trace[i], ca))
      && (forall i | 1 <= i < |trace| :: IsNext(w, step + i - 1, trace[i - 1], trace[i]))
      && Ends(w, step + |trace| - 1, trace[|trace| - 1], maxRedirects, outcome)
  }

  /** What follows the first request of a run is a run. */
  lemma RestOfRun(w: World, step: nat, ca: Option<string>, maxRedirects: int, trace: seq<Request>, outcome: Outcome)
    requires |trace| > 1
    ensures var first, next := trace[0], trace[1];
      IsRun(w, step, first.url, first.httpMethod, first.body, ca, maxRedirects, trace, outcome) <==>
        && IsPinned(w, step, first, ca) && IsNext(w, step, first, next)
        && IsRun(w, step + 1, next.url, next.httpMethod, next.body, ca, maxRedirects, trace[1..], outcome)
  {
    hide IsPinned;
    hide IsNext;
    hide Ends;
    var rest := trace[1..];
    assert forall i | 0 <= i < |rest| :: rest[i] == trace[i + 1];
    assert forall i | 1 <= i < |trace| :: trace[i] == rest[i - 1];
    if IsRun(w, step + 1, trace[1].url, trace[1].httpMethod, trace[1].body, ca, maxRedirects, rest, outcome)
      && IsNext(w, step, trace[0], trace[1]) && IsPinned(w, step, trace[0], ca) {
      forall i | 1 <= i < |trace| ensures IsNext(w, step + i - 1, trace[i - 1], trace[i]) {
        if i > 1 { assert IsNext(w, step + 1 + (i - 1) - 1, rest[i - 2], rest[i - 1]); }
      }
      forall i | 0 <= i < |trace| ensures IsPinned(w, step + i, trace[i], ca) {
        if i > 0 { assert IsPinned(w, step + 1 + (i - 1), rest[i - 1], ca); }
      }
    }
    if IsRun(w, step, trace[0].url, trace[0].httpMethod, trace[0].body, ca, maxRedirects, trace, outcome) {
      forall i | 1 <= i < |rest| ensures IsNext(w, step + 1 + i - 1, rest[i - 1], rest[i]) {
        assert IsNext(w, step + (i + 1) - 1, trace[i], trace[i + 1]);
      }
      forall i | 0 <= i < |rest| ensures IsPinned(w, step + 1 + i, rest[i], ca) {
        assert IsPinned(w, step + (i + 1), trace[i + 1], ca);
      }
      assert IsNext(w, step + 1 - 1, trace[0], trace[1]);
      assert IsPinned(w, step + 0, trace[0], ca);
    }
  }

  /** The request that a run starts with. */
  function FirstRequest(w: World, step: nat, url: string, httpMethod: Option<string>, body: Option<string>,
                        ca: Option<string>): Request
    requires Resolve(w, step, url).Ok?
  {
    Request(url, httpMethod, body, Some(Pinned(Resolve(w, step, url).value, ca)))
  }

  lemma {:induction false} FollowIsRun(w: World, step: nat, url: string, httpMethod: Option<string>,
                                       body: Option<string>, ca: Option<string>, maxRedirects: int)
    ensures var (trace, outcome) := Follow(w, step, url, httpMethod, body, ca, maxRedirects);
      IsRun(w, step, url, httpMethod, body, ca, maxRedirects, trace, outcome)
    decreases maxRedirects - step + 1
  {
    hide Resolve;
    RedirectTables(w);
    hide TurnsToGet;
    hide BecomesGet;
    hide IsRedirect;
    hide AsksElsewhere;
    if step <= maxRedirects && Resolve(w, step, url).Ok? {
      var request := FirstRequest(w, step, url, httpMethod, body, ca);
      var answer := w.answer(step, request);
      if answer.Some? && IsRedirect(answer.value) && step < maxRedirects {
        var next := w.join(answer.value.location, url);
        if next.Some? {
          var toGet := TurnsToGet(w, answer.value, httpMethod);
          var m, b := if toGet then Some("GET") else httpMethod, if toGet then None else body;
          FollowIsRun(w, step + 1, next.value, m, b, ca, maxRedirects);
          var (rest, outcome) := Follow(w, step + 1, next.value, m, b, ca, maxRedirects);
          assert ([request] + rest)[1..] == rest;
          if rest != [] { RestOfRun(w, step, ca, maxRedirects, [request] + rest, outcome); }
        }
      }
    }
  }

  lemma {:induction false} RunIsFollow(w: World, step: nat, url: string, httpMethod: Option<string>,
                                       body: Option<string>, ca: Option<string>, maxRedirects: int,
                                       trace: seq<Request>, outcome: Outcome)
    requires IsRun(w, step, url, httpMethod, body, ca, maxRedirects, trace, outcome)
    ensures Follow(w, step, url, httpMethod, body, ca, maxRedirects) == (trace, outcome)
    decreases |trace|
  {
    hide Resolve;
    RedirectTables(w);
    hide TurnsToGet;
    hide BecomesGet;
    hide IsRedirect;
    hide AsksElsewhere;
    if trace != [] {
      assert IsPinned(w, step + 0, trace[0], ca);
      assert trace[0] == FirstRequest(w, step, url, httpMethod, body, ca);
      assert trace == [trace[0]] + trace[1..];
      if |trace| == 1 {
        assert trace == [trace[0]] && trace[1..] == [];
      } else {
        RestOfRun(w, step, ca, maxRedirects, trace, outcome);
        RunIsFollow(w, step + 1, trace[1].url, trace[1].httpMethod, trace[1].body, ca, maxRedirects,
                    trace[1..], outcome);
      }
    }
  }

  /** Following redirects gives a run, and there is no other. */
  lemma FollowIsTheRun(w: World, step: nat, url: string, httpMethod: Option<string>, body: Option<string>,
                       ca: Option<string>, maxRedirects: int, trace: seq<Request>, outcome: Outcome)
    ensures Follow(w, step, url, httpMethod, body, ca, maxRedirects) == (trace, outcome) <==>
      IsRun(w, step, url, httpMethod, body, ca, maxRedirects, trace, outcome)
  {
    hide Follow;
    hide IsRun;
    FollowIsRun(w, step, url, httpMethod, body, ca, maxRedirects);
    if IsRun(w, step, url, httpMethod, body, ca, maxRedirects, trace, outcome) {
      RunIsFollow(w, step, url, httpMethod, body, ca, maxRedirects, trace, outcome);
    }
  }

  // ---- what every run keeps ----

  lemma {:induction false} RecordsPass(w: World, records: seq<Record>, i: nat)
    requires CheckRecords(w, records) == Pass && i < |records|
    ensures CheckAddress(w.lib, records[i].address, w.denyList) == Pass
  {
    if i > 0 { RecordsPass(w, records[1..], i - 1); }
  }

  lemma {:induction false} ChosenIsARecord(records: seq<Record>)
    ensures var first := FirstOfFamily4(records);
      first.Some? ==> exists i | 0 <= i < |records| :: records[i] == first.value
  {
    if records != [] && records[0].family != 4 {
      ChosenIsARecord(records[1..]);
      assert forall i | 0 <= i < |records[1..]| :: records[1..][i] == records[i + 1];
    }
  }

  /** A resolved target can be read, and no entry of the deny list denies it. */
  lemma TargetIsAllowed(w: World, step: nat, url: string)
    requires Sound(w.lib) && Resolve(w, step, url).Ok?
    ensures var ip := w.lib.parse(Resolve(w, step, url).value.ip);
      ip.Some? && forall i | 0 <= i < |w.denyList| :: !Denies(w.lib, w.denyList[i], ip.value)
  {
    hide Denies;
    hide FirstVerdict;
    hide Normal;
    var target := Resolve(w, step, url).value;
    var host := HostOf(w.parseUrl(url).value.hostname);
    if w.lib.parse(host).None? {
      var records := w.lookup(step, host).value;
      ChosenIsARecord(records);
      var i :| 0 <= i < |records| && records[i] == Chosen(records);
      RecordsPass(w, records, i);
    }
    assert CheckAddress(w.lib, target.ip, w.denyList) == Pass;
    RefusedIff(w.lib, w.denyList, w.lib.parse(target.ip).value);
  }

  /** Whatever lookups and servers answer, every request of a run connects to an address that no entry denies. */
  lemma EveryRequestIsAllowed(w: World, url: string, httpMethod: Option<string>, body: Option<string>,
                              ca: Option<string>, maxRedirects: int, i: nat)
    requires Sound(w.lib)
    requires i < |Follow(w, 0, url, httpMethod, body, ca, maxRedirects).0|
    ensures var request := Follow(w, 0, url, httpMethod, body, ca, maxRedirects).0[i];
      && request.agent.Some?
      && var ip := w.lib.parse(request.agent.value.address);
         ip.Some? && forall k | 0 <= k < |w.denyList| :: !Denies(w.lib, w.denyList[k], ip.value)
  {
    hide Denies;
    hide Resolve;
    hide Follow;
    FollowIsRun(w, 0, url, httpMethod, body, ca, maxRedirects);
    var trace := Follow(w, 0, url, httpMethod, body, ca, maxRedirects).0;
    assert IsPinned(w, 0 + i, trace[i], ca);
    TargetIsAllowed(w, i, trace[i].url);
  }

  /** At most one request more than redirects are allowed; a negative allowance sends none. */
  lemma RequestsAreBounded(w: World, url: string, httpMethod: Option<string>, body: Option<string>,
                           ca: Option<string>, maxRedirects: int)
    ensures var trace := Follow(w, 0, url, httpMethod, body, ca, maxRedirects).0;
      if maxRedirects < 0 then trace == [] else |trace| <= maxRedirects + 1
  {
    FollowIsRun(w, 0, url, httpMethod, body, ca, maxRedirects);
  }

  /** A GET is never turned into another method, and a dropped body never comes back. */
  lemma {:induction false} GetStaysGet(w: World, url: string, httpMethod: Option<string>, body: Option<string>,
                                       ca: Option<string>, maxRedirects: int, i: nat, j: nat)
    requires i <= j < |Follow(w, 0, url, httpMethod, body, ca, maxRedirects).0|
    ensures var trace := Follow(w, 0, url, httpMethod, body, ca, maxRedirects).0;
      && (trace[i].httpMethod == Some("GET") ==> trace[j].httpMethod == Some("GET"))
      && (trace[i].body == None ==> trace[j].body == None)
      && (trace[j].body != None ==> trace[j].httpMethod == trace[i].httpMethod && trace[j].body == trace[i].body)
    decreases j
  {
    hide Follow;
    hide Resolve;
    hide BecomesGet;
    if i < j {
      GetStaysGet(w, url, httpMethod, body, ca, maxRedirects, i, j - 1);
      FollowIsRun(w, 0, url, httpMethod, body, ca, maxRedirects);
      var trace := Follow(w, 0, url, httpMethod, body, ca, maxRedirects).0;
      assert IsNext(w, 0 + j - 1, trace[j - 1], trace[j]);
    }
  }

  // ---- where a request goes ----

  /** Brackets around a host name are taken off. */
  lemma HostInBrackets(h: string)
    ensures HostOf("[" + (h + "]")) == h
    ensures !("[" <= h && h[|h| - 1] == ']') ==> HostOf(h) == h
  {
    var s := "[" + (h + "]");
    assert s[1..] == h + "]";
    assert s[1..|s| - 1] == h;
  }

  /** Record `i` is the first of family 4, or the first of all when none is. */
  predicate Preferred(records: seq<Record>, i: nat) {
    && i < |records|
    && if records[i].family == 4 then forall j | 0 <= j < i :: records[j].family != 4
       else i == 0 && forall j | 0 <= j < |records| :: records[j].family != 4
  }

  lemma {:induction false} FirstOfFamily4Means(records: seq<Record>)
    ensures var first := FirstOfFamily4(records);
      if first.None? then forall j | 0 <= j < |records| :: records[j].family != 4
      else exists i | 0 <= i < |records| ::
        records[i] == first.value && records[i].family == 4 && forall j | 0 <= j < i :: records[j].family != 4
  {
    if records != [] && records[0].family != 4 {
      var rest := records[1..];
      FirstOfFamily4Means(rest);
      assert forall j | 0 <= j < |rest| :: rest[j] == records[j + 1];
      assert forall j | 1 <= j < |records| :: records[j] == rest[j - 1];
      if FirstOfFamily4(rest).Some? {
        var i :| 0 <= i < |rest| && rest[i] == FirstOfFamily4(rest).value && rest[i].family == 4
          && forall j | 0 <= j < i :: rest[j].family != 4;
        assert records[i + 1] == rest[i];
      }
    }
  }

  lemma ChosenIsPreferred(records: seq<Record>)
    requires records != []
    ensures exists i: nat :: Preferred(records, i) && records[i] == Chosen(records)
  {
    FirstOfFamily4Means(records);
    if FirstOfFamily4(records).None? {
      assert Preferred(records, 0);
    } else {
      var i: nat :| i < |records| && records[i] == FirstOfFamily4(records).value && records[i].family == 4
        && forall j | 0 <= j < i :: records[j].family != 4;
      assert Preferred(records, i);
    }
  }

  /** A target is the address that the URL names, or the preferred one of those that its name resolves to. */
  lemma ResolvesTo(w: World, step: nat, url: string)
    requires Resolve(w, step, url).Ok?
    ensures var target, parsed := Resolve(w, step, url).value, w.parseUrl(url);
      && parsed.Some? && target.secure == parsed.value.secure && target.hostname == HostOf(parsed.value.hostname)
      && if w.lib.parse(target.hostname).Some?
         then target.ip == target.hostname && target.family == (if ':' in target.ip then 6 else 4)
         else
           var records := w.lookup(step, target.hostname);
           && records.Some?
           && exists i: nat :: Preferred(records.value, i) && records.value[i] == Record(target.ip, target.family)
  {
    hide CheckAddress;
    hide CheckRecords;
    hide Chosen;
    hide Preferred;
    var host := HostOf(w.parseUrl(url).value.hostname);
    if w.lib.parse(host).None? { ChosenIsPreferred(w.lookup(step, host).value); }
  }
}
