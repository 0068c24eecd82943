/** The remediation dispatcher (model/alertmanager2es.go, k8sAdminTransHandler).
    It reads the notification's common `alertname` label and, for the two alert
    names it knows, runs the matching handler against that handler's configured
    URL.  The source tests the two names with two independent `if`s; the model
    keeps that shape and proves it equal to a lookup in an explicit routing
    table. */
module Dispatcher {
  import opened Alerts
  import opened Handlers

  const PodRestartAlert: string := "PodRestartTooMany>20"
  const NamespaceLowHealthAlert: string := "NamespaceLowHealthLevel"

  /** The two remediation URLs read once at startup; either may be empty. */
  datatype Config = Config(podRestartUrl: string, namespaceLowHealthUrl: string)

  /** One handler run: which handler, against which URL, and what it returned. */
  datatype Invocation = Invocation(handler: Handler, url: string, result: HandlerResult)

  function Invoke(h: Handler, n: Notification, url: string, net: nat -> Reply): Invocation {
    Invocation(h, url, HandleEvent(h, n, url, net))
  }

  /** The handlers run for `n`, in the order the source runs them. */
  function Dispatch(n: Notification, cfg: Config, net: nat -> Reply): (calls: seq<Invocation>)
    ensures |calls| <= 1
    ensures forall c :: c in calls ==> c.result == HandleEvent(c.handler, n, c.url, net)
  {
    var alertName := Label(n.commonLabels, AlertLabel);
    (if alertName == PodRestartAlert
     then [Invoke(PodRestartTooMany, n, cfg.podRestartUrl, net)] else [])
    + (if alertName == NamespaceLowHealthAlert
       then [Invoke(NamespaceLowHealth, n, cfg.namespaceLowHealthUrl, net)] else [])
  }

  /** The routing table: alert name to handler and target URL. */
  function Routes(cfg: Config): map<string, (Handler, string)> {
    map[PodRestartAlert := (PodRestartTooMany, cfg.podRestartUrl),
        NamespaceLowHealthAlert := (NamespaceLowHealth, cfg.namespaceLowHealthUrl)]
  }

  /** Dispatch runs exactly the table's entry for the alert name, once, and
      nothing when the name (or the missing label, read as "") has no entry. */
  lemma DispatchFollowsRoutes(n: Notification, cfg: Config, net: nat -> Reply)
    ensures var alertName := Label(n.commonLabels, AlertLabel);
      Dispatch(n, cfg, net) ==
        if alertName in Routes(cfg)
        then [Invoke(Routes(cfg)[alertName].0, n, Routes(cfg)[alertName].1, net)]
        else []
  {
    var alertName := Label(n.commonLabels, AlertLabel);
    assert PodRestartAlert != NamespaceLowHealthAlert;
    if alertName == PodRestartAlert {
      assert Dispatch(n, cfg, net) == [Invoke(PodRestartTooMany, n, cfg.podRestartUrl, net)] + [];
    } else if alertName == NamespaceLowHealthAlert {
      assert Dispatch(n, cfg, net) == [] + [Invoke(NamespaceLowHealth, n, cfg.namespaceLowHealthUrl, net)];
    }
  }

  /** A pod-restart alert runs only the pod handler, with the pod URL. */
  lemma PodRestartRoute(n: Notification, cfg: Config, net: nat -> Reply)
    requires Label(n.commonLabels, AlertLabel) == PodRestartAlert
    ensures Dispatch(n, cfg, net) == [Invocation(PodRestartTooMany, cfg.podRestartUrl,
                                                 HandleEvent(PodRestartTooMany, n, cfg.podRestartUrl, net))]
  {
    DispatchFollowsRoutes(n, cfg, net);
  }

  /** A namespace-health alert runs only the namespace handler, with its URL. */
  lemma NamespaceLowHealthRoute(n: Notification, cfg: Config, net: nat -> Reply)
    requires Label(n.commonLabels, AlertLabel) == NamespaceLowHealthAlert
    ensures Dispatch(n, cfg, net) == [Invocation(NamespaceLowHealth, cfg.namespaceLowHealthUrl,
                                                 HandleEvent(NamespaceLowHealth, n, cfg.namespaceLowHealthUrl, net))]
  {
    DispatchFollowsRoutes(n, cfg, net);
  }

  /** All remediation POSTs of a dispatch, in order. */
  function RemediationPosts(calls: seq<Invocation>): seq<Post>
    decreases |calls|
  {
    if |calls| == 0 then [] else calls[0].result.posts + RemediationPosts(calls[1..])
  }

  /** Any other alert name, including a missing label, runs no handler and
      sends nothing. */
  lemma UnknownAlertIsIgnored(n: Notification, cfg: Config, net: nat -> Reply)
    requires Label(n.commonLabels, AlertLabel) != PodRestartAlert
    requires Label(n.commonLabels, AlertLabel) != NamespaceLowHealthAlert
    ensures Dispatch(n, cfg, net) == []
    ensures RemediationPosts(Dispatch(n, cfg, net)) == []
  {
  }
}
