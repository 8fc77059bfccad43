/** The library's client against its server: the request of `Open` and the frames of `Send`, through the
    server's queue. */
module Exchange {
  import opened Bytes
  import opened ClientStream
  import opened Handshake
  import opened RequestQueue
  import opened ServerRuns
  import opened Wrappers
  import Frame
  import HttpHeader
  import HttpHeaderText
  import Request
  import RequestText
  import Route
  import RouteCompiler
  import RouteMatching
  import RoutePrinting
  import StringUtil
  import WebSocketServer

  /** The client's own request announces no body, so the server takes it off as it was printed. */
  lemma ClientRequestOpens(path: ByteArray, host: ByteArray, key: ByteArray)
    requires RequestText.PlainPath(path) && PlainValue(host) && PlainValue(key)
    requires |Request.Print(ClientRequest(path, host, key))| < HttpHeader.TWO_64
    ensures Opens(ClientRequest(path, host, key))
  {
    hide HttpHeader.Find, HttpHeader.DistinctNames, HttpHeaderText.AllPrintable, RequestText.PlainPath, PlainValue,
      Request.Print,
      StringUtil.SameName;
    var f := RequestFields(host, key);
    RequestIsPrintable(host, key);
    RequestNamesDiffer(host, key);
    VersionIsPlain();
    forall k | 0 <= k < |f| ensures !StringUtil.SameName(f[k].name, HttpHeader.CONTENT_LENGTH) {
      OtherLength(f[k].name, HttpHeader.CONTENT_LENGTH);
    }
    HttpHeader.FindNone(f, HttpHeader.CONTENT_LENGTH);
  }

  /** One connection whose client's bytes arrive at once, and two passes of the request thread. */
  function OneExchange(id: int, bytes: ByteArray): Run {
    [Connect(id), Action.Bytes(id, bytes)]
  }

  lemma ExchangeSends(id: int, bytes: ByteArray, config: Frame.Config)
    ensures Sent(OneExchange(id, bytes), id) == Some(bytes)
  {
    var run := OneExchange(id, bytes);
    OneMoreSeen([], Connect(id), [Connect(id)], id, config);
    OneMoreSeen([Connect(id)], Action.Bytes(id, bytes), run, id, config);
    assert run == [Connect(id)] + [Action.Bytes(id, bytes)];
    assert [] + bytes == bytes;
  }

  lemma ExchangeIsServed(id: int, bytes: ByteArray, config: Frame.Config)
    ensures Served(OneExchange(id, bytes), id, config) && !Due(OneExchange(id, bytes), config)
  {
    hide QueueAfter, AnyNews;
    var run := OneExchange(id, bytes);
    assert [Connect(id)] == [] + [Connect(id)] && run == [Connect(id)] + [Action.Bytes(id, bytes)];
    OneMore([], Connect(id), [Connect(id)], config);
    OneMore([Connect(id)], Action.Bytes(id, bytes), run, config);
  }

  lemma ExchangeIsSafe(id: int, bytes: ByteArray, config: Frame.Config)
    requires |bytes| != 1
    ensures Safe(OneExchange(id, bytes), config) && NoSingleByte(OneExchange(id, bytes))
  {
    hide QueueAfter;
    var run := OneExchange(id, bytes);
    forall other, s | Sent(run, other) == Some(s) ensures |s| != 1 {
      OneMoreSeen([], Connect(id), [Connect(id)], other, config);
      OneMoreSeen([Connect(id)], Action.Bytes(id, bytes), run, other, config);
      assert run == [Connect(id)] + [Action.Bytes(id, bytes)];
      assert [] + bytes == bytes;
    }
  }

  /** From a client's `Open` and `Send`s to the server's dispatched messages: for every path without a
      query, every key and every list of messages within the limits, however the bytes were cut and
      whatever ran in between, once they are in and the request thread has made two more checks. */
  lemma ClientReachesServer(
    a: Run, b: Run, id: int, path: ByteArray, host: ByteArray, key: ByteArray, frames: seq<ClientFrame>,
      config: Frame.Config)
    requires RequestText.PlainPath(path) && PlainValue(host) && PlainValue(key)
    requires |Request.Print(ClientRequest(path, host, key))| < HttpHeader.TWO_64
    requires AllSendable(frames, config) && config.Sane()
    requires Sent(a, id) == Some(ClientBytes(ClientRequest(path, host, key), frames, config))
    requires Safe(a + b, config) && Served(a + b, id, config) && !Due(a + b, config) && Quiet(b, id) && Checks(b) >= 2
    ensures Out(a + b, id, config) == MessagesOf(frames)
  {
    hide *;
    ClientRequestOpens(path, host, key);
    AllDelivered(a, b, id, ClientRequest(path, host, key), frames, config);
  }

  // ---------------------------------------------------------------- such runs exist

  /** The request thread sends nothing. */
  lemma ThreadSendsNothing(run: Run, a: Action, config: Frame.Config)
    requires a.Check? || a.Process?
    ensures NoSingleByte(run) ==> NoSingleByte(run + [a])
  {
    forall id ensures Sent(run + [a], id) == Sent(run, id) { OneMoreSeen(run, a, run + [a], id, config); }
  }

  /** One action of the request thread, in its order. */
  lemma ThreadActs(run: Run, a: Action, id: int, config: Frame.Config)
    requires Safe(run, config) && Served(run, id, config) && NoSingleByte(run)
    requires (a.Check? && !Due(run, config)) || (a.Process? && Due(run, config) && id in a.sent)
    ensures Safe(run + [a], config) && Served(run + [a], id, config) && NoSingleByte(run + [a])
    ensures Due(run + [a], config) <==> a.Check? && AnyNews(QueueAfter(run, config), config)
  {
    hide QueueAfter, AnyNews, Due, InOrder, NoSingleByte, NextQueue, WebSocketServer.AllParsable, Safe;
    OneMore(run, a, run + [a], config);
    CheckIsSafe(run, config);
    SafeMore(run, a, config);
    ThreadSendsNothing(run, a, config);
  }

  /** A pass of the request thread can always be added. */
  lemma PassFollows(run: Run, id: int, config: Frame.Config) returns (pass: Run)
    requires Safe(run, config) && Served(run, id, config) && !Due(run, config) && NoSingleByte(run)
    ensures Safe(run + pass, config) && Served(run + pass, id, config) && !Due(run + pass, config)
            && NoSingleByte(run + pass)
    ensures Quiet(pass, id) && Checks(pass) == 1
  {
    hide QueueAfter, AnyNews, Due, Served, NoSingleByte, Safe;
    ThreadActs(run, Check, id, config);
    assert [Check][..0] == [];
    if AnyNews(QueueAfter(run, config), config) {
      pass := [Check, Process({id})];
      assert pass[..1] == [Check];
      ThreadActs(run + [Check], Process({id}), id, config);
      assert run + pass == run + [Check] + [Process({id})];
    } else {
      pass := [Check];
    }
  }

  lemma ClientBytesAreMany(
    path: ByteArray, host: ByteArray, key: ByteArray, frames: seq<ClientFrame>, config: Frame.Config)
    requires RequestText.PlainPath(path) && PlainValue(host) && PlainValue(key) && AllSendable(frames, config)
    requires |Request.Print(ClientRequest(path, host, key))| < HttpHeader.TWO_64
    ensures |ClientBytes(ClientRequest(path, host, key), frames, config)| >= 4
  {
    hide Request.Opening, Request.Print, EncodeAll, Opens, AllSendable, ClientRequest, RequestText.PlainPath,
      PlainValue;
    var r := ClientRequest(path, host, key);
    ClientRequestOpens(path, host, key);
    OpeningOfPrinted(r, EncodeAll(frames, config));
    OpeningIsLong(ClientBytes(r, frames, config));
  }

  /** A client's bytes can arrive, be served and be dispatched: the theorem above speaks of real runs. */
  lemma ExchangeHappens(
      id: int, path: ByteArray, host: ByteArray, key: ByteArray, frames: seq<ClientFrame>, config: Frame.Config)
    returns (a: Run, b: Run)
    requires RequestText.PlainPath(path) && PlainValue(host) && PlainValue(key)
    requires |Request.Print(ClientRequest(path, host, key))| < HttpHeader.TWO_64
    requires AllSendable(frames, config) && config.Sane()
    ensures Safe(a + b, config) && Served(a + b, id, config) && !Due(a + b, config) && Quiet(b, id) && Checks(b) >= 2
    ensures Sent(a, id) == Some(ClientBytes(ClientRequest(path, host, key), frames, config))
    ensures Out(a + b, id, config) == MessagesOf(frames)
  {
    hide Served, Due, Sent, Out, Checks, Safe, NoSingleByte, ClientBytes, Opens, AllSendable, ClientRequest,
      MessagesOf, OneExchange,
      RequestText.PlainPath, PlainValue, Request.Print;
    var bytes := ClientBytes(ClientRequest(path, host, key), frames, config);
    a := OneExchange(id, bytes);
    ExchangeSends(id, bytes, config);
    ExchangeIsServed(id, bytes, config);
    ClientBytesAreMany(path, host, key, frames, config);
    ExchangeIsSafe(id, bytes, config);
    var first := PassFollows(a, id, config);
    var second := PassFollows(a + first, id, config);
    b := first + second;
    assert a + first + second == a + b;
    ChecksAdd(first, second);
    ClientReachesServer(a, b, id, path, host, key, frames, config);
  }

  // ---------------------------------------------------------------- routes decide, and do not

  /** The client's request as the server routes it: the path is normalized, and the method is now
      `WEBSOCKET`. */
  function Arrived(path: ByteArray, host: ByteArray, key: ByteArray): Request.State {
    Request.Parsed(Request.FRESH, Request.Print(ClientRequest(path, host, key))).(verb := Request.WEBSOCKET)
  }

  lemma ArrivedRequest(path: ByteArray, host: ByteArray, key: ByteArray)
    requires RequestText.PlainPath(path) && PlainValue(host) && PlainValue(key)
    ensures var q := Arrived(path, host, key);
            && q.verb == Request.WEBSOCKET && q.path == Request.Normalized(path)
            && HttpHeader.Get(q.header.fields, HttpHeader.SEC_WEBSOCKET_KEY) == key
  {
    hide Request.Parsed, Request.Print, HttpHeader.Get, RequestText.PlainPath, PlainValue, Request.Normalized,
      ClientRequest;
    RequestArrives(path, host, key);
  }

  /** It is what the server has when it answers, whatever the client sent behind it. */
  lemma ServerAnswersTheClient(
    run: Run, id: int, path: ByteArray, host: ByteArray, key: ByteArray, config: Frame.Config)
    requires RequestText.PlainPath(path) && PlainValue(host) && PlainValue(key)
    requires |Request.Print(ClientRequest(path, host, key))| < HttpHeader.TWO_64
    requires Sent(run, id).Some? && Request.Print(ClientRequest(path, host, key)) <= Sent(run, id).value
    requires Unanswered(View(QueueAfter(run, config), id))
    ensures View(QueueAfter(run, config), id).value.request == Arrived(path, host, key)
  {
    hide View, QueueAfter, Sent, Request.Parsed, Request.Print, Opens, RequestText.PlainPath, PlainValue, ClientRequest,
      Request.Complete, Request.Size;
    var bytes, all := Request.Print(ClientRequest(path, host, key)), Sent(run, id).value;
    RequestIsTheClients(run, id, config);
    ClientRequestOpens(path, host, key);
    OpeningOfPrinted(ClientRequest(path, host, key), []);
    assert bytes + [] == bytes;
    Request.CompleteStays(bytes, all);
  }

  /** A pattern the matcher reads exactly. */
  predicate Exact(items: seq<RoutePrinting.Item>) {
    && RoutePrinting.AllPrintable(items) && RoutePrinting.NoAdjacentLiterals(items)
    && RouteMatching.Plain(RoutePrinting.TokensOf(items))
  }

  predicate AllExact(patterns: seq<seq<RoutePrinting.Item>>) {
    forall k :: 0 <= k < |patterns| ==> Exact(patterns[k])
  }

  /** Routes of a server, compiled from printed patterns. */
  function Compiled(patterns: seq<seq<RoutePrinting.Item>>): seq<Route.Pattern>
    requires AllExact(patterns)
  {
    seq(|patterns|, k requires 0 <= k < |patterns| => CompiledOne(patterns[k]))
  }

  function CompiledOne(items: seq<RoutePrinting.Item>): Route.Pattern
    requires Exact(items)
  {
    Route.Pattern(Request.WEBSOCKET, RouteCompiler.Compile(RouteCompiler.START, RoutePrinting.PrintAll(items)).tokens)
  }

  lemma OneRoute(items: seq<RoutePrinting.Item>, path: string)
    requires Exact(items)
    ensures Route.Accepts(CompiledOne(items), Request.WEBSOCKET, path)
            <==> RouteMatching.Rendered(RoutePrinting.TokensOf(items), path)
  {
    hide RoutePrinting.TokensOf, RoutePrinting.PrintAll, RouteMatching.Plain, RouteMatching.Rendered,
      RouteCompiler.Compile, Route.Walk;
    RoutePrinting.CompilerInvertsPrinting(items);
    RouteMatching.PlainMatchIsExact(RoutePrinting.TokensOf(items), path);
  }

  /** Some pattern renders that path. */
  ghost predicate SomeRenders(patterns: seq<seq<RoutePrinting.Item>>, path: string) {
    exists k :: 0 <= k < |patterns| && RouteMatching.Rendered(RoutePrinting.TokensOf(patterns[k]), path)
  }

  lemma RoutedMeansRendered(patterns: seq<seq<RoutePrinting.Item>>, q: Request.State)
    requires AllExact(patterns) && q.verb == Request.WEBSOCKET
    ensures Routed(Compiled(patterns), q) <==> SomeRenders(patterns, Text(q.path))
  {
    hide Exact, RouteMatching.Rendered, RoutePrinting.TokensOf, Text, Route.Accepts, CompiledOne;
    forall k | 0 <= k < |patterns|
      ensures Route.Accepts(Compiled(patterns)[k], q.verb, Text(q.path))
              <==> RouteMatching.Rendered(RoutePrinting.TokensOf(patterns[k]), Text(q.path))
    {
      OneRoute(patterns[k], Text(q.path));
    }
  }

  /** From the pattern text of a route to the client's state: with default processing on, the handshake of a
      client completes exactly when the path it asked for can be rendered from one of the patterns. */
  lemma RoutesDecide(
    patterns: seq<seq<RoutePrinting.Item>>, path: ByteArray, host: ByteArray, key: ByteArray, wsProcessDefault: bool,
    serverName: ByteArray, clientName: ByteArray, date: ByteArray, answer: ByteArray)
    requires AllExact(patterns)
    requires RequestText.PlainPath(path) && PlainValue(host) && PlainValue(key) && PlainValue(serverName)
             && PlainValue(date)
    requires answer == DefaultAnswer(Arrived(path, host, key), Compiled(patterns), wsProcessDefault, serverName, date)
    requires |answer| < HttpHeader.TWO_64
    ensures var after := AfterRead(answer, key, clientName);
            && after.Some?
            && (after.value.0 == BinaryMessage
                <==> wsProcessDefault && SomeRenders(patterns, Text(Request.Normalized(path))))
  {
    hide *;
    ArrivedRequest(path, host, key);
    DefaultDecides(Arrived(path, host, key), Compiled(patterns), wsProcessDefault, serverName, clientName, date);
    RoutedMeansRendered(patterns, Arrived(path, host, key));
  }

  /** A refusal completes the handshake for the server all the same: the client has closed, and every message
      it had sent is still dispatched. */
  lemma RefusedIsStillServed(
    a: Run, b: Run, id: int, path: ByteArray, host: ByteArray, key: ByteArray, frames: seq<ClientFrame>,
    routes: seq<Route.Pattern>, wsProcessDefault: bool, serverName: ByteArray, clientName: ByteArray, date: ByteArray,
    answer: ByteArray, config: Frame.Config)
    requires RequestText.PlainPath(path) && PlainValue(host) && PlainValue(key) && PlainValue(serverName)
             && PlainValue(date)
    requires |Request.Print(ClientRequest(path, host, key))| < HttpHeader.TWO_64
    requires AllSendable(frames, config) && config.Sane()
    requires Sent(a, id) == Some(ClientBytes(ClientRequest(path, host, key), frames, config))
    requires Safe(a + b, config) && Served(a + b, id, config) && !Due(a + b, config) && Quiet(b, id) && Checks(b) >= 2
    requires !(Routed(routes, Arrived(path, host, key)) && wsProcessDefault)
    requires answer == DefaultAnswer(Arrived(path, host, key), routes, wsProcessDefault, serverName, date)
    requires |answer| < HttpHeader.TWO_64
    ensures AfterRead(answer, key, clientName).Some? && AfterRead(answer, key, clientName).value.0 != BinaryMessage
    ensures Out(a + b, id, config) == MessagesOf(frames)
  {
    hide *;
    ArrivedRequest(path, host, key);
    DefaultDecides(Arrived(path, host, key), routes, wsProcessDefault, serverName, clientName, date);
    ClientReachesServer(a, b, id, path, host, key, frames, config);
  }
}
