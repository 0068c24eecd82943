/** The webhook endpoint (model/alertmanager2es.go, HttpHandler) as a pure step:
    given the three counters, one inbound request and its environment, it
    yields the HTTP status, the new counters, the index request it issued (if
    any) and the handlers the dispatcher ran (if dispatch happened).

    The checks run in the source's order: body present, body readable, payload
    decodes, version supported, index request transported.  Each failure counts
    the request as invalid and answers at once; only a transported index
    request counts it as successful and hands the stamped notification to the
    dispatcher. */
module Ingest {
  import opened Wrappers
  import opened Alerts
  import opened IndexName
  import opened Handlers
  import opened Dispatcher

  const StatusOK: int := 200
  const StatusBadRequest: int := 400
  const StatusInternalServerError: int := 500

  /** The received / invalid / successful counters. */
  datatype Counters = Counters(received: nat, invalid: nat, successful: nat)

  /** An inbound request as far as the endpoint tells requests apart: no body,
      a body whose read fails, a body that does not decode as a payload, or a
      decoded payload. */
  datatype Request = NilBody | UnreadableBody | MalformedBody | Decoded(msg: Notification)

  /** The store's answer to an index request: a response, whatever its status,
      or a transport error. */
  datatype IndexReply = Responded(status: int) | TransportError

  /** The clock reading taken once a payload is accepted: its calendar date and
      its RFC 3339 text. */
  datatype Clock = Clock(date: Date, rfc3339: string)

  /** What the step depends on besides the request: the configured index-name
      template, the clock, the store's reply, the remediation URLs and the
      replies to remediation POSTs. */
  datatype Env = Env(indexTemplate: string, now: Clock, store: IndexReply, config: Config, net: nat -> Reply)

  /** An index request: target index and the document stored. */
  datatype IndexCall = IndexCall(index: string, document: Notification)

  datatype Outcome = Outcome(
    status: int,
    counters: Counters,
    indexed: Option<IndexCall>,
    dispatched: Option<seq<Invocation>>)

  /** An early exit: the request is counted as invalid and answered with `status`. */
  function Reject(c: Counters, status: int, indexed: Option<IndexCall>): Outcome {
    Outcome(status, c.(invalid := c.invalid + 1), indexed, None)
  }

  /** HttpHandler.  `c` are the counters before the call. */
  function Handle(c: Counters, req: Request, env: Env): (o: Outcome)
    // every call is received, and counted as exactly one of invalid or successful
    ensures o.counters.received == c.received + 1
    ensures o.counters.invalid + o.counters.successful == c.invalid + c.successful + 1
    ensures c.invalid <= o.counters.invalid && c.successful <= o.counters.successful
    // success, the success counter and dispatch go together
    ensures o.status == StatusOK <==> o.counters.successful == c.successful + 1
    ensures o.dispatched.Some? <==> o.status == StatusOK
    // the failure paths and their status codes
    ensures req.NilBody? ==> o.status == StatusBadRequest && o.indexed.None?
    ensures req.UnreadableBody? ==> o.status == StatusInternalServerError && o.indexed.None?
    ensures req.MalformedBody? ==> o.status == StatusBadRequest && o.indexed.None?
    ensures req.Decoded? && req.msg.version != SupportedWebhookVersion ==>
      o.status == StatusBadRequest && o.indexed.None?
    ensures o.indexed.Some? && env.store.TransportError? ==> o.status == StatusBadRequest
    // an index request is issued exactly for a decoded payload of the supported version
    ensures o.indexed.Some? <==> req.Decoded? && req.msg.version == SupportedWebhookVersion
    // it stores the stamped payload under the name built from the same clock reading
    ensures o.indexed.Some? ==>
      o.indexed.value == IndexCall(BuildIndexName(env.indexTemplate, env.now.date),
                                   req.msg.(timestamp := env.now.rfc3339))
    // dispatch happens exactly when the index request was transported, whatever the response status
    ensures o.dispatched.Some? <==> o.indexed.Some? && env.store.Responded?
    ensures o.dispatched.Some? ==>
      o.dispatched.value == Dispatch(o.indexed.value.document, env.config, env.net)
  {
    var c := c.(received := c.received + 1);
    match req
    case NilBody => Reject(c, StatusBadRequest, None)
    case UnreadableBody => Reject(c, StatusInternalServerError, None)
    case MalformedBody => Reject(c, StatusBadRequest, None)
    case Decoded(msg) =>
      if msg.version != SupportedWebhookVersion then Reject(c, StatusBadRequest, None)
      else
        var document := msg.(timestamp := env.now.rfc3339);
        var call := IndexCall(BuildIndexName(env.indexTemplate, env.now.date), document);
        match env.store
        case TransportError => Reject(c, StatusBadRequest, Some(call))
        case Responded(_) =>
          var calls := Dispatch(document, env.config, env.net);
          Outcome(StatusOK, c.(successful := c.successful + 1), Some(call), Some(calls))
  }

  /** The counters after a series of calls. */
  function Replay(c: Counters, calls: seq<(Request, Env)>): Counters
    decreases |calls|
  {
    if |calls| == 0 then c
    else Replay(Handle(c, calls[0].0, calls[0].1).counters, calls[1..])
  }

  predicate Balanced(c: Counters) {
    c.received == c.invalid + c.successful
  }

  /** Every call adds one to `received` and one to exactly one of the other two
      counters, so `received == invalid + successful` is kept; in particular it
      holds after any series of calls that starts from zero counters. */
  lemma {:induction false} ReplayKeepsBalance(c: Counters, calls: seq<(Request, Env)>)
    requires Balanced(c)
    ensures Balanced(Replay(c, calls))
    ensures Replay(c, calls).received == c.received + |calls|
    decreases |calls|
  {
    if |calls| > 0 {
      ReplayKeepsBalance(Handle(c, calls[0].0, calls[0].1).counters, calls[1..]);
    }
  }

  /** The remediation side — its URLs and how its POSTs fare — has no influence
      on the status, the counters or the index request. */
  lemma RemediationIsIsolated(c: Counters, req: Request, env: Env, config: Config, net: nat -> Reply)
    ensures Handle(c, req, env).status == Handle(c, req, env.(config := config, net := net)).status
    ensures Handle(c, req, env).counters == Handle(c, req, env.(config := config, net := net)).counters
    ensures Handle(c, req, env).indexed == Handle(c, req, env.(config := config, net := net)).indexed
  {
  }

  /** A namespace-health notification with one entry for namespace "ns1": one
      index request carrying the alert name and the receipt time, then one POST
      of {"namespaceName": "ns1"} to the namespace-health URL. */
  lemma NamespaceScenario(c: Counters, env: Env, entry: AlertEntry, msg: Notification)
    requires entry.labels == map["namespace" := "ns1"]
    requires msg.version == "4" && msg.alerts == [entry]
    requires msg.commonLabels == map["alertname" := "NamespaceLowHealthLevel"]
    requires env.store.Responded? && env.net(0) == Delivered && env.now.rfc3339 != ""
    ensures var o := Handle(c, Decoded(msg), env);
      && o.status == StatusOK
      && o.indexed.Some?
      && o.indexed.value.document.commonLabels == map["alertname" := "NamespaceLowHealthLevel"]
      && o.indexed.value.document.timestamp != ""
      && o.dispatched == Some([Invocation(NamespaceLowHealth, env.config.namespaceLowHealthUrl,
           HandlerResult(true, None, [Post(env.config.namespaceLowHealthUrl, map["namespaceName" := "ns1"])]))])
  {
    var document := msg.(timestamp := env.now.rfc3339);
    var url := env.config.namespaceLowHealthUrl;
    var body := map["namespaceName" := "ns1"];
    assert Label(entry.labels, "namespace") == "ns1";
    assert Body(NamespaceLowHealth, entry) == Some(body);
    assert Walk(NamespaceLowHealth, [entry], url, env.net, 1) == HandlerResult(true, None, []);
    assert HandleEvent(NamespaceLowHealth, document, url, env.net)
        == HandlerResult(true, None, [Post(url, body)]);
    assert Label(document.commonLabels, AlertLabel) == NamespaceLowHealthAlert;
    NamespaceLowHealthRoute(document, env.config, env.net);
  }
}
