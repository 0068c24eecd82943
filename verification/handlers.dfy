/** The two remediation handlers (model/namespaceLowHealthEvent.go and
    podRestartTooManyEvent.go).  Both implement the one capability
    `HandleEvent(alert, url) (bool, error)` declared in model/interface/event.go
    and share one shape: walk the alert entries in order, stop with
    `(false, nil)` at the first entry lacking a required label, otherwise POST a
    small JSON object to `url`, and stop with `(false, err)` at the first POST
    that fails.  They differ only in the labels they read and the body they send,
    so they are one walker over a tagged variant.

    The outcome of each POST is an oracle: `net(i)` is the reply to the i-th POST
    one handler call issues (counting from 0). */
module Handlers {
  import opened Wrappers
  import opened Alerts

  /** What a remediation POST reports: only whether it returned an error. */
  datatype Reply = Delivered | Failed(error: string)

  /** One outbound POST: its target and the JSON object sent as its body. */
  datatype Post = Post(url: string, body: map<string, string>)

  /** HandleEvent's `(bool, error)` pair, plus the POSTs issued, in order. */
  datatype HandlerResult = HandlerResult(ok: bool, err: Option<string>, posts: seq<Post>)

  /** The implementations of the HandleEvent capability. */
  datatype Handler = PodRestartTooMany | NamespaceLowHealth

  /** The body a handler posts for one entry, or None when a label it needs is
      missing or empty. */
  function Body(h: Handler, e: AlertEntry): (b: Option<map<string, string>>)
    ensures h.NamespaceLowHealth? ==>
      && (b.Some? <==> Label(e.labels, "namespace") != "")
      && (b.Some? ==> b.value.Keys == {"namespaceName"}
                      && b.value["namespaceName"] == Label(e.labels, "namespace"))
    ensures h.PodRestartTooMany? ==>
      && (b.Some? <==> Label(e.labels, "pod") != "" && Label(e.labels, "namespace") != "")
      && (b.Some? ==> b.value.Keys == {"podName", "namespaceName"}
                      && b.value["podName"] == Label(e.labels, "pod")
                      && b.value["namespaceName"] == Label(e.labels, "namespace"))
  {
    var namespaceName := Label(e.labels, "namespace");
    match h
    case NamespaceLowHealth =>
      if |namespaceName| == 0 then None
      else Some(map["namespaceName" := namespaceName])
    case PodRestartTooMany =>
      var podName := Label(e.labels, "pod");
      if |podName| == 0 || |namespaceName| == 0 then None
      else Some(map["podName" := podName, "namespaceName" := namespaceName])
  }

  /** The handler loop from entry `k` on. */
  function Walk(h: Handler, alerts: seq<AlertEntry>, url: string, net: nat -> Reply, k: nat): (r: HandlerResult)
    requires k <= |alerts|
    // the POSTs go to `url`, one for each of the entries k, k+1, ..., in order
    ensures k + |r.posts| <= |alerts|
    ensures forall j :: k <= j < k + |r.posts| ==>
      Body(h, alerts[j]).Some? && r.posts[j - k] == Post(url, Body(h, alerts[j]).value)
    // every POST but possibly the last was delivered
    ensures forall j :: k <= j < k + |r.posts| - 1 ==> net(j).Delivered?
    // an error is returned exactly when the last POST failed, and it is that POST's error
    ensures r.err.Some? <==> |r.posts| > 0 && net(k + |r.posts| - 1).Failed?
    ensures r.err.Some? ==> r.err.value == net(k + |r.posts| - 1).error
    // success means every remaining entry was posted without error
    ensures r.ok <==> k + |r.posts| == |alerts| && r.err.None?
    // a stop without an error is at an entry lacking a required label
    ensures !r.ok && r.err.None? ==> Body(h, alerts[k + |r.posts|]).None?
    decreases |alerts| - k
  {
    if k == |alerts| then HandlerResult(true, None, [])
    else match Body(h, alerts[k])
      case None => HandlerResult(false, None, [])
      case Some(body) =>
        var post := Post(url, body);
        match net(k)
        case Failed(error) => HandlerResult(false, Some(error), [post])
        case Delivered =>
          var rest := Walk(h, alerts, url, net, k + 1);
          rest.(posts := [post] + rest.posts)
  }

  /** HandleEvent(alert, url): the handler's loop over all entries. */
  function HandleEvent(h: Handler, n: Notification, url: string, net: nat -> Reply): (r: HandlerResult)
    ensures |r.posts| <= |n.alerts|
    ensures forall i :: 0 <= i < |r.posts| ==>
      Body(h, n.alerts[i]).Some? && r.posts[i] == Post(url, Body(h, n.alerts[i]).value)
    ensures forall i :: 0 <= i < |r.posts| - 1 ==> net(i).Delivered?
    ensures r.err.Some? <==> |r.posts| > 0 && net(|r.posts| - 1).Failed?
    ensures r.err.Some? ==> r.err.value == net(|r.posts| - 1).error
    ensures r.ok <==> |r.posts| == |n.alerts| && r.err.None?
    ensures !r.ok && r.err.None? ==> Body(h, n.alerts[|r.posts|]).None?
  {
    Walk(h, n.alerts, url, net, 0)
  }

  /** Every entry carries its labels and every POST is delivered. */
  predicate AllGood(h: Handler, alerts: seq<AlertEntry>, net: nat -> Reply) {
    forall i :: 0 <= i < |alerts| ==> Body(h, alerts[i]).Some? && net(i).Delivered?
  }

  /** All or nothing: `(true, nil)` exactly when every entry has its labels and
      every POST succeeds; then there is one POST per entry. */
  lemma AllOrNothing(h: Handler, n: Notification, url: string, net: nat -> Reply)
    ensures HandleEvent(h, n, url, net).ok <==> AllGood(h, n.alerts, net)
    ensures HandleEvent(h, n, url, net).ok ==>
      HandleEvent(h, n, url, net).err.None? && |HandleEvent(h, n, url, net).posts| == |n.alerts|
  {
    var r := HandleEvent(h, n, url, net);
    if r.ok {
      forall i | 0 <= i < |n.alerts|
        ensures Body(h, n.alerts[i]).Some? && net(i).Delivered?
      {
        if i == |r.posts| - 1 {
          assert net(i).Delivered?;
        }
      }
    } else if r.err.Some? {
      assert !net(|r.posts| - 1).Delivered?;
    } else {
      assert Body(h, n.alerts[|r.posts|]).None?;
    }
  }

  /** An empty alert list succeeds without any POST. */
  lemma EmptyAlertsSucceed(h: Handler, n: Notification, url: string, net: nat -> Reply)
    requires |n.alerts| == 0
    ensures HandleEvent(h, n, url, net) == HandlerResult(true, None, [])
  {
  }

  /** From entry j on, a walk whose entries before k are all postable and
      delivered, and whose entry k lacks a label, ends at k with nil error. */
  lemma {:induction false} WalkStopsAtLabel(h: Handler, alerts: seq<AlertEntry>, url: string, net: nat -> Reply, j: nat, k: nat)
    requires j <= k < |alerts|
    requires forall i :: j <= i < k ==> Body(h, alerts[i]).Some? && net(i).Delivered?
    requires Body(h, alerts[k]).None?
    ensures var r := Walk(h, alerts, url, net, j); !r.ok && r.err == None && |r.posts| == k - j
    decreases k - j
  {
    if j < k {
      WalkStopsAtLabel(h, alerts, url, net, j + 1, k);
      var rest := Walk(h, alerts, url, net, j + 1);
      assert Body(h, alerts[j]).Some? && net(j).Delivered?;
      assert Walk(h, alerts, url, net, j)
          == rest.(posts := [Post(url, Body(h, alerts[j]).value)] + rest.posts);
    } else {
      assert Walk(h, alerts, url, net, j) == HandlerResult(false, None, []);
    }
  }

  /** From entry j on, a walk whose entries before k are all postable and
      delivered, and whose POST for entry k fails, ends after posting k with
      k's error. */
  lemma {:induction false} WalkStopsAtPost(h: Handler, alerts: seq<AlertEntry>, url: string, net: nat -> Reply, j: nat, k: nat)
    requires j <= k < |alerts|
    requires forall i :: j <= i < k ==> Body(h, alerts[i]).Some? && net(i).Delivered?
    requires Body(h, alerts[k]).Some? && net(k).Failed?
    ensures var r := Walk(h, alerts, url, net, j);
      !r.ok && r.err == Some(net(k).error) && |r.posts| == k - j + 1
    decreases k - j
  {
    if j < k {
      WalkStopsAtPost(h, alerts, url, net, j + 1, k);
      var rest := Walk(h, alerts, url, net, j + 1);
      assert Body(h, alerts[j]).Some? && net(j).Delivered?;
      assert Walk(h, alerts, url, net, j)
          == rest.(posts := [Post(url, Body(h, alerts[j]).value)] + rest.posts);
    } else {
      assert Walk(h, alerts, url, net, j)
          == HandlerResult(false, Some(net(k).error), [Post(url, Body(h, alerts[k]).value)]);
    }
  }

  /** The first entry lacking a required label ends the walk with
      `(false, nil)`: every earlier entry was posted, it and all later ones are not. */
  lemma StopsAtMissingLabel(h: Handler, n: Notification, url: string, net: nat -> Reply, k: nat)
    requires k < |n.alerts| && Body(h, n.alerts[k]).None?
    requires AllGood(h, n.alerts[..k], net)
    ensures HandleEvent(h, n, url, net).ok == false
    ensures HandleEvent(h, n, url, net).err == None
    ensures |HandleEvent(h, n, url, net).posts| == k
  {
    assert forall i :: 0 <= i < k ==> n.alerts[..k][i] == n.alerts[i];
    WalkStopsAtLabel(h, n.alerts, url, net, 0, k);
  }

  /** The first failed POST ends the walk with `(false, err)`: the entries
      after it are not posted. */
  lemma StopsAtFailedPost(h: Handler, n: Notification, url: string, net: nat -> Reply, k: nat)
    requires k < |n.alerts| && Body(h, n.alerts[k]).Some? && net(k).Failed?
    requires AllGood(h, n.alerts[..k], net)
    ensures HandleEvent(h, n, url, net).ok == false
    ensures HandleEvent(h, n, url, net).err == Some(net(k).error)
    ensures |HandleEvent(h, n, url, net).posts| == k + 1
  {
    assert forall i :: 0 <= i < k ==> n.alerts[..k][i] == n.alerts[i];
    WalkStopsAtPost(h, n.alerts, url, net, 0, k);
  }
}
