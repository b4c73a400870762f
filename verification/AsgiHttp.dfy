/**
 What one HTTP call of XMLRPCASGIApp means (asgi.py), as a sequential reference: the body that is read,
 the handler that is chosen, and the response. Nothing here says where or when a handler runs.
 */
module AsgiHttp {
  import opened Common
  import opened Octets
  import ContentLength

  // ----- Reading the body -----

  /** A receive() event; a missing key is None, so a disconnect event is BodyEvent(None, None). */
  datatype BodyEvent = BodyEvent(body: Option<Bytes>, moreBody: Option<bool>)

  function Chunk(e: BodyEvent): Bytes { if e.body.Some? then e.body.value else [] }

  predicate More(e: BodyEvent) { e.moreBody == Some(true) }

  /** The bytes up to and including the first event without more_body; None if there is none yet. */
  function JoinedBody(events: seq<BodyEvent>): Option<Bytes> {
    if events == [] then None
    else if !More(events[0]) then Some(Chunk(events[0]))
    else
      var rest := JoinedBody(events[1..]);
      if rest.None? then None else Some(Chunk(events[0]) + rest.value)
  }

  /** b"".join(chunks). */
  function Join(chunks: seq<Bytes>): Bytes {
    if chunks == [] then [] else Join(chunks[..|chunks| - 1]) + chunks[|chunks| - 1]
  }

  /** The bytes `read`, followed by the body still to come. */
  function Prepend(read: Bytes, rest: Option<Bytes>): Option<Bytes> {
    if rest.None? then None else Some(read + rest.value)
  }

  lemma JoinedStep(events: seq<BodyEvent>, n: nat, read: Bytes)
    requires n < |events|
    ensures Prepend(read, JoinedBody(events[n..])) ==
            if More(events[n]) then Prepend(read + Chunk(events[n]), JoinedBody(events[n + 1..]))
            else Some(read + Chunk(events[n]))
  {
    assert events[n..][1..] == events[n + 1..];
    var rest := JoinedBody(events[n + 1..]);
    if rest.Some? { assert read + (Chunk(events[n]) + rest.value) == read + Chunk(events[n]) + rest.value; }
  }

  lemma JoinSnoc(chunks: seq<Bytes>, chunk: Bytes)
    ensures Join(chunks + [chunk]) == Join(chunks) + chunk
  {
    assert (chunks + [chunk])[..|chunks|] == chunks;
  }

  lemma JoinedEnds(events: seq<BodyEvent>)
    ensures Join([]) == [] && JoinedBody(events[|events|..]) == None
    ensures Prepend([], JoinedBody(events[0..])) == JoinedBody(events)
  {
    assert events[0..] == events && events[|events|..] == [];
    assert JoinedBody(events).Some? ==> [] + JoinedBody(events).value == JoinedBody(events).value;
  }

  /** _read_body on the events received so far; None while it is still waiting for more. */
  method ReadBody(events: seq<BodyEvent>) returns (body: Option<Bytes>)
    ensures body == JoinedBody(events)
  {
    hide Join, JoinedBody;
    var chunks: seq<Bytes> := [];
    var n := 0;
    JoinedEnds(events);
    while n < |events|
      invariant 0 <= n <= |events|
      invariant JoinedBody(events) == Prepend(Join(chunks), JoinedBody(events[n..]))
    {
      var event := events[n];
      JoinedStep(events, n, Join(chunks));
      var bodyChunk := if event.body.Some? then event.body.value else [];
      assert bodyChunk == [] ==> Join(chunks) + bodyChunk == Join(chunks);
      if bodyChunk != [] {
        JoinSnoc(chunks, bodyChunk);
        chunks := chunks + [bodyChunk];
      }
      if event.moreBody != Some(true) {
        return Some(Join(chunks));
      }
      n := n + 1;
    }
    return None;
  }

  /** What each event carries; an event without a body carries nothing. */
  function Chunks(events: seq<BodyEvent>): (chunks: seq<Bytes>)
    ensures |chunks| == |events|
    ensures forall i :: 0 <= i < |events| ==> chunks[i] == if events[i].body.Some? then events[i].body.value else []
  {
    if events == [] then [] else Chunks(events[..|events| - 1]) + [Chunk(events[|events| - 1])]
  }

  /** Event n is the first one that does not announce more body. */
  predicate EndsAt(events: seq<BodyEvent>, n: nat) {
    n < |events| && events[n].moreBody != Some(true) && forall i :: 0 <= i < n ==> events[i].moreBody == Some(true)
  }

  lemma {:induction false} JoinFront(pieces: seq<Bytes>)
    requires pieces != []
    ensures Join(pieces) == pieces[0] + Join(pieces[1..])
  {
    var n := |pieces| - 1;
    if n > 0 {
      JoinFront(pieces[..n]);
      assert pieces[1..][..n - 1] == pieces[..n][1..];
    }
  }

  /** Chunking does not matter: of any stream of events, whatever keys they leave out, exactly the bytes
      up to the first event without more_body are read, in order, and nothing of what follows. */
  lemma {:induction false} ChunkingInvariance(events: seq<BodyEvent>, n: nat)
    requires EndsAt(events, n)
    ensures JoinedBody(events) == Some(Join(Chunks(events[..n + 1])))
  {
    var chunks := Chunks(events[..n + 1]);
    JoinFront(chunks);
    if n == 0 {
      assert chunks[1..] == [];
      assert Chunk(events[0]) + [] == Chunk(events[0]);
    } else {
      ChunkingInvariance(events[1..], n - 1);
      assert Chunks(events[1..][..n]) == chunks[1..];
    }
  }

  /** A body is complete iff some event does not announce more. */
  lemma {:induction false} CompleteIffEnds(events: seq<BodyEvent>)
    ensures JoinedBody(events).Some? <==> exists n: nat :: EndsAt(events, n)
  {
    if events != [] {
      CompleteIffEnds(events[1..]);
      if !More(events[0]) {
        assert EndsAt(events, 0);
      } else if JoinedBody(events).Some? {
        var n: nat :| EndsAt(events[1..], n);
        assert EndsAt(events, n + 1);
      } else if n: nat :| EndsAt(events, n) {
        assert EndsAt(events[1..], n - 1);
      }
    }
  }

  // ----- Choosing a handler -----

  /** A Python value; only its identity matters here. */
  datatype Value = Value(id: int)

  /** How a handler ends. */
  datatype Outcome =
    | Returned(v: Value)
    | FaultRaised(code: int, text: string)
    | ExceptionRaised(text: string)       // type name and message

  datatype Handler = Handler(id: int, isAsync: bool)

  /** resolve_dotted_attribute: a callable, AttributeError, a Fault (of a property, say), or another
      exception. */
  datatype Lookup = Found(h: Handler) | Missing | LookupFault(code: int, text: string) | LookupRaised(text: string)

  datatype Instance = Instance(dispatchHook: Option<Handler>, resolve: string -> Lookup)

  datatype Parsed = MethodCall(name: string, params: seq<Value>) | ParseFailed(text: string)

  datatype Dumped = Text(t: string) | DumpRaised(text: string)

  /** xmlrpc.client.loads and dumps, and str.encode, as they behave under the app's settings. */
  datatype Codec = Codec(
    loads: Bytes -> Parsed,
    dumpsValue: Value -> Dumped,
    dumpsFault: (int, string) -> Option<string>,
    encode: string -> Option<Bytes>
  )

  datatype App = App(
    maxWorkers: nat,
    maxRequestSize: nat,
    rpcPath: string,
    funcs: map<string, Handler>,
    instance: Option<Instance>,
    codec: Codec
  )

  /** On the event loop, in the app's own pool, or in the loop's default pool (asyncio.to_thread). */
  datatype Place = OnLoop | InPool | InDefaultPool

  datatype Target = Function(id: int, params: seq<Value>) | Hook(id: int, name: string, params: seq<Value>)

  datatype Route = Answer(o: Outcome) | Invoke(place: Place, target: Target)

  function PlaceFunction(h: Handler): Place { if h.isAsync then OnLoop else InPool }

  function Unsupported(name: string): (o: Outcome)
    ensures o.FaultRaised? && o.code == -32601
  {
    FaultRaised(-32601, "Method \"" + name + "\" is not supported")
  }

  /** _async_dispatch: registered functions first, then the instance's _dispatch, then its attributes. */
  function RouteOf(app: App, name: string, params: seq<Value>): Route {
    if name in app.funcs then
      Invoke(PlaceFunction(app.funcs[name]), Function(app.funcs[name].id, params))
    else if app.instance.None? then Answer(Unsupported(name))
    else
      var hook := app.instance.value.dispatchHook;
      if hook.Some? then
        Invoke(if hook.value.isAsync then OnLoop else InDefaultPool, Hook(hook.value.id, name, params))
      else
        match app.instance.value.resolve(name)
        case Found(h) => Invoke(PlaceFunction(h), Function(h.id, params))
        case Missing => Answer(Unsupported(name))
        case LookupFault(code, text) => Answer(FaultRaised(code, text))
        case LookupRaised(text) => Answer(ExceptionRaised(text))
  }

  /** Which handler is asked, with which arguments and where: the registered function before the
      instance's _dispatch before its attributes, with exactly the parameters of the call (_dispatch gets
      the name as well); a coroutine on the loop, any other function in the app's pool, any other
      _dispatch in the default pool. One is asked iff one of the three exists. */
  lemma HandlerAsked(app: App, body: Bytes)
    ensures var d := DemandOf(app, body);
            var call := app.codec.loads(body);
            d.Ask? ==>
              && call.MethodCall?
              && if call.name in app.funcs then
                   var h := app.funcs[call.name];
                   d.target == Function(h.id, call.params) && d.place == if h.isAsync then OnLoop else InPool
                 else if app.instance.Some? && app.instance.value.dispatchHook.Some? then
                   var h := app.instance.value.dispatchHook.value;
                   && d.target == Hook(h.id, call.name, call.params)
                   && d.place == if h.isAsync then OnLoop else InDefaultPool
                 else
                   && app.instance.Some? && app.instance.value.resolve(call.name).Found?
                   && var h := app.instance.value.resolve(call.name).h;
                   d.target == Function(h.id, call.params) && d.place == if h.isAsync then OnLoop else InPool
    ensures DemandOf(app, body).Ask?
            <==> && |body| <= app.maxRequestSize && app.codec.loads(body).MethodCall?
                 && var name := app.codec.loads(body).name;
                 || name in app.funcs
                 || (&& app.instance.Some?
                     && (app.instance.value.dispatchHook.Some? || app.instance.value.resolve(name).Found?))
  {
    hide Marshal, FaultVerdict, Ascii, Unsupported;
  }

  // ----- The response -----

  datatype Response = Response(status: nat, contentType: Bytes, extra: seq<(Bytes, Bytes)>, body: Bytes)

  datatype Message = StartMessage(status: nat, headers: seq<(Bytes, Bytes)>) | BodyMessage(body: Bytes)

  /** What _send_http_response sends. */
  function Messages(r: Response): seq<Message> {
    [StartMessage(r.status, [(Ascii("content-type"), r.contentType),
                             (Ascii("content-length"), Decimal(|r.body|))] + r.extra),
     BodyMessage(r.body)]
  }

  function PlainText(status: nat, body: string, extra: seq<(Bytes, Bytes)>): Response {
    Response(status, Ascii("text/plain; charset=utf-8"), extra, Ascii(body))
  }

  function XmlResponse(body: Bytes): Response {
    Response(200, Ascii("text/xml; charset=utf-8"), [], body)
  }

  /** The fate of a call: a response, an exception out of the app, or not decided yet. */
  datatype Verdict = Respond(r: Response) | Propagate | Pending

  function FaultVerdict(app: App, code: int, text: string): Verdict {
    var dumped := app.codec.dumpsFault(code, text);
    if dumped.None? then Propagate
    else
      var bytes := app.codec.encode(dumped.value);
      if bytes.None? then Propagate else Respond(XmlResponse(bytes.value))
  }

  /** The end of _async_marshaled_dispatch. */
  function Marshal(app: App, o: Outcome): Verdict {
    match o
    case FaultRaised(code, text) => FaultVerdict(app, code, text)
    case ExceptionRaised(text) => FaultVerdict(app, 1, text)
    case Returned(v) =>
      match app.codec.dumpsValue(v)
      case DumpRaised(text) => FaultVerdict(app, 1, text)
      case Text(t) =>
        var bytes := app.codec.encode(t);
        if bytes.None? then Propagate else Respond(XmlResponse(bytes.value))
  }

  /** A complete body: what happens at once, and which handler has to be asked, if any. */
  datatype Demand = Settled(v: Verdict) | Ask(place: Place, target: Target)

  function DemandOf(app: App, body: Bytes): Demand {
    if |body| > app.maxRequestSize then Settled(Respond(PlainText(413, "Payload Too Large", [])))
    else
      match app.codec.loads(body)
      case ParseFailed(text) => Settled(FaultVerdict(app, -32700, "Parse error: " + text))
      case MethodCall(name, params) =>
        match RouteOf(app, name, params)
        case Answer(o) => Settled(Marshal(app, o))
        case Invoke(place, target) => Ask(place, target)
  }

  function Upper(s: string): (r: string)
    ensures |r| == |s|
  {
    seq(|s|, i requires 0 <= i < |s| => if 'a' <= s[i] <= 'z' then s[i] - 'a' + 'A' else s[i])
  }

  /** An http scope and its receive() events. */
  datatype Request = Request(path: Option<string>, verb: Option<string>, events: seq<BodyEvent>)

  function PathOf(q: Request): string { if q.path.Some? then q.path.value else "/" }

  function VerbOf(q: Request): string { Upper(if q.verb.Some? then q.verb.value else "GET") }

  /** The checks of _handle_http before the body is read: the path first, then the method. */
  function EarlyAnswer(app: App, q: Request): Option<Response> {
    if PathOf(q) != app.rpcPath then Some(PlainText(404, "Not Found", []))
    else if VerbOf(q) != "POST" then
      Some(PlainText(405, "Method Not Allowed", [(Ascii("allow"), Ascii("POST"))]))
    else None
  }

  /** The sequential reference: the verdict on a call whose handler, if one was asked, ended like this. */
  function Reference(app: App, q: Request, outcome: Option<Outcome>): Verdict {
    var early := EarlyAnswer(app, q);
    if early.Some? then Respond(early.value)
    else
      var body := JoinedBody(q.events);
      if body.None? then Pending
      else
        match DemandOf(app, body.value)
        case Settled(v) => v
        case Ask(_, _) => if outcome.None? then Pending else Marshal(app, outcome.value)
  }

  // ----- Consequences -----

  /** Any two streams of events that carry the same bytes make the same call. */
  lemma ChunkingDoesNotMatter(app: App, q: Request, a: seq<BodyEvent>, m: nat, b: seq<BodyEvent>, n: nat,
                              outcome: Option<Outcome>)
    requires EndsAt(a, m) && EndsAt(b, n) && Join(Chunks(a[..m + 1])) == Join(Chunks(b[..n + 1]))
    ensures Reference(app, q.(events := a), outcome) == Reference(app, q.(events := b), outcome)
  {
    hide Join, Chunks;
    ChunkingInvariance(a, m);
    ChunkingInvariance(b, n);
  }

  /** Two handlers, or two lookups, that differ at most in being sync or async. */
  predicate SameHandler(a: Handler, b: Handler) { a.id == b.id }

  predicate SameLookup(a: Lookup, b: Lookup) {
    match a
    case Found(h) => b.Found? && SameHandler(h, b.h)
    case Missing => b.Missing?
    case _ => b == a
  }

  /** Two apps that differ at most in which handlers are async (and in the size of their pools). */
  ghost predicate SameButPlaced(a: App, b: App) {
    && a.maxRequestSize == b.maxRequestSize && a.rpcPath == b.rpcPath && a.codec == b.codec
    && a.funcs.Keys == b.funcs.Keys
    && (forall name :: name in a.funcs ==> SameHandler(a.funcs[name], b.funcs[name]))
    && a.instance.Some? == b.instance.Some?
    && (a.instance.Some? ==>
          && a.instance.value.dispatchHook.Some? == b.instance.value.dispatchHook.Some?
          && (a.instance.value.dispatchHook.Some? ==>
                SameHandler(a.instance.value.dispatchHook.value, b.instance.value.dispatchHook.value))
          && forall name :: SameLookup(a.instance.value.resolve(name), b.instance.value.resolve(name)))
  }

  lemma SameRoute(a: App, b: App, name: string, params: seq<Value>)
    requires SameButPlaced(a, b)
    ensures match RouteOf(a, name, params)
            case Answer(o) => RouteOf(b, name, params) == Answer(o)
            case Invoke(_, target) => RouteOf(b, name, params).Invoke? && RouteOf(b, name, params).target == target
  {
    if name !in a.funcs && a.instance.Some? && a.instance.value.dispatchHook.None? {
      assert SameLookup(a.instance.value.resolve(name), b.instance.value.resolve(name));
    }
  }

  /** Placement independence: registering handlers as async or as plain functions changes neither which
      handler is asked with which arguments, nor the response to the same handler outcome. */
  lemma PlacementIndependence(a: App, b: App, q: Request, outcome: Option<Outcome>)
    requires SameButPlaced(a, b)
    ensures Reference(a, q, outcome) == Reference(b, q, outcome)
    ensures var body := JoinedBody(q.events);
            body.Some? && DemandOf(a, body.value).Ask? ==>
              DemandOf(b, body.value).Ask? && DemandOf(b, body.value).target == DemandOf(a, body.value).target
  {
    var body := JoinedBody(q.events);
    if body.Some? {
      var parsed := a.codec.loads(body.value);
      if parsed.MethodCall? { SameRoute(a, b, parsed.name, parsed.params); }
    }
    forall o: Outcome ensures Marshal(a, o) == Marshal(b, o) { }
  }

  /** The instance's attributes are searched for the method. */
  predicate Searched(app: App, name: string) {
    name !in app.funcs && app.instance.Some? && app.instance.value.dispatchHook.None?
  }

  predicate NobodyKnows(app: App, name: string) {
    && name !in app.funcs
    && (app.instance.None? || (Searched(app, name) && app.instance.value.resolve(name).Missing?))
  }

  /** Precedence: the instance cannot influence a registered name, an instance with a _dispatch is never
      searched for attributes, and a method is unsupported iff nobody knows it (or the search itself
      raised just that fault). */
  lemma RoutePrecedence(app: App, instance: Option<Instance>, resolve: string -> Lookup, name: string,
                        params: seq<Value>)
    ensures name in app.funcs ==> RouteOf(app.(instance := instance), name, params) == RouteOf(app, name, params)
    ensures app.instance.Some? && app.instance.value.dispatchHook.Some? ==>
              RouteOf(app.(instance := Some(app.instance.value.(resolve := resolve))), name, params)
              == RouteOf(app, name, params)
    ensures RouteOf(app, name, params) == Answer(Unsupported(name))
            <==> NobodyKnows(app, name) || (Searched(app, name) && app.instance.value.resolve(name)
                                            == LookupFault(Unsupported(name).code, Unsupported(name).text))
  {
    hide PlaceFunction;
  }

  // ----- What a client reads -----

  /** A reader of response bodies that undoes the codec: it finds every dumped fault with its code and
      text, and none in a dumped result. */
  ghost predicate ReadsFaults(codec: Codec, read: Bytes -> Option<(int, string)>) {
    && (forall code, text, t, b ::
          codec.dumpsFault(code, text) == Some(t) && codec.encode(t) == Some(b) ==> read(b) == Some((code, text)))
    && (forall v, t, b :: codec.dumpsValue(v) == Text(t) && codec.encode(t) == Some(b) ==> read(b) == None)
  }

  lemma FaultIsRead(app: App, code: int, text: string, read: Bytes -> Option<(int, string)>)
    requires ReadsFaults(app.codec, read) && FaultVerdict(app, code, text).Respond?
    ensures read(FaultVerdict(app, code, text).r.body) == Some((code, text))
  {
  }

  /** What the client reads for a handler's outcome: its result, its fault, or fault 1. */
  lemma OutcomeIsRead(app: App, o: Outcome, read: Bytes -> Option<(int, string)>)
    requires ReadsFaults(app.codec, read) && Marshal(app, o).Respond?
    ensures read(Marshal(app, o).r.body)
            == match o
               case FaultRaised(code, text) => Some((code, text))
               case ExceptionRaised(text) => Some((1, text))
               case Returned(v) =>
                 match app.codec.dumpsValue(v)
                 case Text(_) => None
                 case DumpRaised(text) => Some((1, text))
  {
    hide FaultVerdict;
    match o
    case FaultRaised(code, text) => FaultIsRead(app, code, text, read);
    case ExceptionRaised(text) => FaultIsRead(app, 1, text, read);
    case Returned(v) =>
      if app.codec.dumpsValue(v).DumpRaised? { FaultIsRead(app, 1, app.codec.dumpsValue(v).text, read); }
  }

  /** The text is there and can be encoded. */
  predicate Encodable(codec: Codec, text: Option<string>) { text.Some? && codec.encode(text.value).Some? }

  /** An outcome is answered iff its dump can be made and encoded; else the exception leaves the app. */
  lemma AnsweredIffEncodable(app: App, o: Outcome)
    ensures Marshal(app, o).Respond? <==>
              match o
              case FaultRaised(code, text) => Encodable(app.codec, app.codec.dumpsFault(code, text))
              case ExceptionRaised(text) => Encodable(app.codec, app.codec.dumpsFault(1, text))
              case Returned(v) =>
                match app.codec.dumpsValue(v)
                case Text(t) => app.codec.encode(t).Some?
                case DumpRaised(text) => Encodable(app.codec, app.codec.dumpsFault(1, text))
    ensures Marshal(app, o).Respond? || Marshal(app, o).Propagate?
  {
  }

  /** A reader of results that undoes the codec. */
  ghost predicate ReadsResults(codec: Codec, read: Bytes -> Option<Value>) {
    forall v, t, b :: codec.dumpsValue(v) == Text(t) && codec.encode(t) == Some(b) ==> read(b) == Some(v)
  }

  /** A result that can be dumped is what the client reads. */
  lemma ResultIsRead(app: App, v: Value, read: Bytes -> Option<Value>)
    requires ReadsResults(app.codec, read) && app.codec.dumpsValue(v).Text? && Marshal(app, Returned(v)).Respond?
    ensures read(Marshal(app, Returned(v)).r.body) == Some(v)
  {
  }

  /** What the client reads for a body of acceptable size: a body that cannot be parsed is fault -32700,
      a method that nobody knows is fault -32601; else what the handler's outcome calls for. */
  lemma ResponseIsRead(app: App, q: Request, outcome: Option<Outcome>, read: Bytes -> Option<(int, string)>)
    requires ReadsFaults(app.codec, read) && EarlyAnswer(app, q).None? && Reference(app, q, outcome).Respond?
    requires JoinedBody(q.events).Some? && |JoinedBody(q.events).value| <= app.maxRequestSize
    ensures var seen := read(Reference(app, q, outcome).r.body);
            match app.codec.loads(JoinedBody(q.events).value)
            case ParseFailed(text) => seen == Some((-32700, "Parse error: " + text))
            case MethodCall(name, params) =>
              && (NobodyKnows(app, name) ==> seen == Some((-32601, "Method \"" + name + "\" is not supported")))
              && (RouteOf(app, name, params).Invoke? ==>
                    outcome.Some? && Marshal(app, outcome.value).Respond?
                    && seen == read(Marshal(app, outcome.value).r.body))
              && (Searched(app, name) ==>
                    var found := app.instance.value.resolve(name);
                    && (found.LookupFault? ==> seen == Some((found.code, found.text)))
                    && (found.LookupRaised? ==> seen == Some((1, found.text))))
  {
    hide JoinedBody, EarlyAnswer, FaultVerdict, Marshal;
    match app.codec.loads(JoinedBody(q.events).value)
    case ParseFailed(text) => FaultIsRead(app, -32700, "Parse error: " + text, read);
    case MethodCall(name, params) =>
      var route := RouteOf(app, name, params);
      if route.Answer? { OutcomeIsRead(app, route.o, read); }
  }

  lemma PostExact(q: Request)
    ensures VerbOf(q) == "POST"
            <==> && q.verb.Some? && |q.verb.value| == 4
                 && q.verb.value[0] in "Pp" && q.verb.value[1] in "Oo"
                 && q.verb.value[2] in "Ss" && q.verb.value[3] in "Tt"
  {
    var verb := if q.verb.Some? then q.verb.value else "GET";
    assert VerbOf(q) == Upper(verb);
    if |verb| == 4 {
      UpperIs(verb[0], 'P', 'p');
      UpperIs(verb[1], 'O', 'o');
      UpperIs(verb[2], 'S', 's');
      UpperIs(verb[3], 'T', 't');
      assert forall i :: 0 <= i < 4 ==> Upper(verb)[i] == Upper([verb[i]])[0];
    }
  }

  lemma UpperIs(c: char, big: char, small: char)
    requires 'A' <= big <= 'Z' && small == big - 'A' + 'a'
    ensures Upper([c])[0] == big <==> c == big || c == small
  {
  }

  lemma MarshalledStatus(app: App, o: Outcome)
    ensures Marshal(app, o).Respond? ==> Marshal(app, o).r == XmlResponse(Marshal(app, o).r.body)
  {
  }

  /** The status of every response: a wrong path is told before a wrong method, both before the body is
      read, an oversized body before it is parsed; all else, faults included, is a 200. A missing path is
      "/", a missing method GET, and the method's case does not matter. */
  lemma StatusExact(app: App, q: Request, outcome: Option<Outcome>)
    requires Reference(app, q, outcome).Respond?
    ensures var status := Reference(app, q, outcome).r.status;
            var wrongPath := (if q.path.Some? then q.path.value else "/") != app.rpcPath;
            var wrongVerb := q.verb.None? || |q.verb.value| != 4 || q.verb.value[0] !in "Pp"
                             || q.verb.value[1] !in "Oo" || q.verb.value[2] !in "Ss" || q.verb.value[3] !in "Tt";
            var body := JoinedBody(q.events);
            && (status == 404 <==> wrongPath)
            && (status == 405 <==> !wrongPath && wrongVerb)
            && (!wrongPath && !wrongVerb ==> body.Some? && (status == 413 <==> |body.value| > app.maxRequestSize))
            && (status == 200 || status == 404 || status == 405 || status == 413)
    ensures var r := Reference(app, q, outcome).r;
            && r.contentType == (if r.status == 200 then Ascii("text/xml; charset=utf-8")
                                 else Ascii("text/plain; charset=utf-8"))
            && r.extra == (if r.status == 405 then [(Ascii("allow"), Ascii("POST"))] else [])
            && (r.status == 404 ==> r.body == Ascii("Not Found"))
            && (r.status == 405 ==> r.body == Ascii("Method Not Allowed"))
            && (r.status == 413 ==> r.body == Ascii("Payload Too Large"))
  {
    hide JoinedBody, RouteOf, Unsupported, Ascii, VerbOf, Marshal;
    PostExact(q);
    if EarlyAnswer(app, q).None? && JoinedBody(q.events).Some? {
      var demand := DemandOf(app, JoinedBody(q.events).value);
      if outcome.Some? { MarshalledStatus(app, outcome.value); }
      if demand.Settled? && demand.v.Respond? { SettledStatus(app, JoinedBody(q.events).value); }
    }
  }

  lemma SettledStatus(app: App, body: Bytes)
    requires DemandOf(app, body).Settled? && DemandOf(app, body).v.Respond?
    ensures DemandOf(app, body).v.r == if |body| > app.maxRequestSize then PlainText(413, "Payload Too Large", [])
                                       else XmlResponse(DemandOf(app, body).v.r.body)
  {
    hide RouteOf, Unsupported, Ascii, Marshal;
    if |body| <= app.maxRequestSize {
      match app.codec.loads(body)
      case ParseFailed(_) =>
      case MethodCall(name, params) =>
        if RouteOf(app, name, params).Answer? { MarshalledStatus(app, RouteOf(app, name, params).o); }
    }
  }

  /** An oversized body is answered with 413, whatever else is the matter with it; no other is. */
  lemma OversizedIff413(app: App, q: Request, outcome: Option<Outcome>)
    requires EarlyAnswer(app, q).None? && JoinedBody(q.events).Some?
    ensures Reference(app, q, outcome).Respond? && Reference(app, q, outcome).r.status == 413
            <==> |JoinedBody(q.events).value| > app.maxRequestSize
  {
    hide JoinedBody, RouteOf, Unsupported, Ascii, VerbOf, Marshal;
    if Reference(app, q, outcome).Respond? { StatusExact(app, q, outcome); }
  }

  /** Front ends agree on size: for a POST on the accepted path with a body of n bytes in any chunks and
      a truthful Content-Length, both answer 413 iff n exceeds the limit, unless the length has more
      digits than int() accepts. */
  lemma FrontEndsAgreeOnSize(app: App, q: Request, outcome: Option<Outcome>, h: ContentLength.Headers, maxDigits: nat)
    requires EarlyAnswer(app, q).None? && JoinedBody(q.events).Some?
    requires !ContentLength.Chunked(h) && h.contentLength.Some? && IsLength(h.contentLength.value)
    requires Octets.Value(h.contentLength.value) == |JoinedBody(q.events).value|
    ensures var asgi413 := Reference(app, q, outcome).Respond? && Reference(app, q, outcome).r.status == 413;
            var readable := maxDigits == 0 || |h.contentLength.value| <= maxDigits;
            && (asgi413 <==> |JoinedBody(q.events).value| > app.maxRequestSize)
            && (ContentLength.DoPost(h, app.maxRequestSize, maxDigits) == ContentLength.Refuse(413)
                <==> asgi413 && readable)
  {
    hide Reference, EarlyAnswer, JoinedBody, ContentLength.DoPost;
    OversizedIff413(app, q, outcome);
    ContentLength.ValidLengthsDecided(h, app.maxRequestSize, maxDigits);
  }
}
