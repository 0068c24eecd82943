# alertmanager2es core, modelled in Dafny

alertmanager2es receives Alertmanager webhook notifications over HTTP, stores
each one as a document in a date-partitioned Elasticsearch index, and forwards
two alert types to remediation endpoints of a Kubernetes admin service. This
project models the deterministic core of that pipeline and proves its
properties:

- `IndexName` (index_name.dfy) models `buildIndexName`. It defines the three
  successive `strings.Replace` passes that turn the index-name template into a
  name, and a single-pass reading of the template, `Expand`, as the reference.
  It proves the two agree. Also included: zero-padded decimal formatting of the
  date fields (Go's `"2006"`, `"01"` and `"02"` layouts), with its read-back.
- `Alerts` (alerts.dfy) holds the webhook payload (`AlertmanagerEntry` and its
  alert entries), the constants `supportedWebhookVersion = "4"` and
  `alertLabel = "alertname"`, and Go's map read, where a missing key yields `""`.
- `Handlers` (handlers.dfy) models the two remediation handlers. Both implement
  the one `HandleEvent(alert, url) (bool, error)` capability, so they are modelled
  as variants of one datatype run by one walker. The walker returns `(ok, err)`
  and the ordered list of POSTs it issued.
- `Dispatcher` (dispatch.dfy) models `k8sAdminTransHandler`, which routes on the
  common `alertname` label. It is written with the source's two independent
  tests and proved equal to a lookup in an explicit routing table.
- `Ingest` (ingest.dfy) models `HttpHandler` as a pure step. It takes the
  received/invalid/successful counters and an abstract request, and returns the
  status code, the new counters, the index request issued (if any), and the
  handlers dispatched (if any).

The outside world is supplied as parameters:

- The request is one of four kinds: no body, unreadable body, undecodable body,
  or a decoded notification.
- The clock reading is a calendar date plus its RFC 3339 text.
- The store's answer is either a response with some status or a transport error.
- The replies to remediation POSTs come from an oracle `net`: `net(i)` answers the
  i-th POST of one handler call.
- The two remediation URLs are arbitrary strings, possibly empty.

The pod-restart handler modelled is the one in podRestartTooManyEvent.go. It
takes the target URL as a parameter; its hard-coded URL constant is commented
out. That file declares `package main`, while the dispatcher refers to a type of
the same name in package `model`. That type is not part of this model; the model
assumes it behaves like the shown definition. The `PodRestartTooManyDTO` struct
in the same file is never used: the POST body is built as a string map with
exactly the keys `podName` and `namespaceName`.

Two behaviours of the code that are easy to miss:

- `received` is incremented first, on every call, before any validation.
- A store response counts as success whatever its HTTP status, because only
  the transport error is checked. After such a response the notification is
  still dispatched.

## Model

| member | source | states |
|---|---|---|
| IndexName.Decimal | model/alertmanager2es.go:132 | a number's decimal digits are non-empty, all digits, and read back as the number |
| IndexName.Pad | model/alertmanager2es.go:132-134 | a padded date field is all digits, at least the layout width, exactly that width when the value fits, the plain decimal digits when they already fill the width, and reads back as the value |
| IndexName.FormattedDateWidths | model/alertmanager2es.go:132-134 | for a real date, the year renders as 4 digits and month and day as 2 each, and each reads back as its field |
| IndexName.ReplaceAllAbsent | model/alertmanager2es.go:132-134 | a replacement pass whose pattern does not occur leaves the text unchanged |
| IndexName.YearPass | model/alertmanager2es.go:132 | the `%y` pass equals the single-pass expansion with the year substituted and `%m`/`%d` left in place |
| IndexName.MonthPass | model/alertmanager2es.go:133 | after the year pass, the `%m` pass equals the single-pass expansion with year and month substituted |
| IndexName.DayPass | model/alertmanager2es.go:134 | after the year and month passes, the `%d` pass equals the full single-pass expansion |
| IndexName.BuildIndexNameExpands | model/alertmanager2es.go:129-137 | the index name is the template read left to right, with each `%y`/`%m`/`%d` token replaced by its padded date field and every other character kept |
| IndexName.BuildIndexNameHasNoToken | model/alertmanager2es.go:129-137 | no `%y`, `%m` or `%d` remains in a built index name, whatever the template |
| IndexName.BuildIndexNameTokenFree | model/alertmanager2es.go:129-137 | a template without any of the three tokens is used verbatim as the index name |
| IndexName.BuildIndexNameIgnoresDay | model/alertmanager2es.go:129-137 | if the template has no `%d`, changing the day does not change the name |
| IndexName.BuildIndexNameLength | model/alertmanager2es.go:129-137 | for a real date, the name is the template's length plus two per `%y` token |
| IndexName.DailyIndexExample | model/alertmanager2es.go:129-137 | any `%`-free prefix followed by `%y.%m.%d` becomes that prefix followed by `2024.03.07` on 7 March 2024 |
| Handlers.Body | podRestartTooManyEvent.go:23-36 | an entry is postable exactly when its required labels are non-empty; the pod body has exactly the keys `podName` and `namespaceName`, the namespace body only `namespaceName`, with the label values |
| Handlers.Walk | model/namespaceLowHealthEvent.go:14-37 | from entry k on: the POSTs go to `url`, one per consecutive entry, in order; all but the last were delivered; an error is returned exactly when the last POST failed, and it is that error; success means every remaining entry was posted; a stop without error is at an entry lacking a label |
| Handlers.HandleEvent | podRestartTooManyEvent.go:18-48 | the issued POSTs are an in-order prefix of the entries, each to `url` with that entry's body; `err` is non-nil exactly when the last POST failed; `ok` means every entry was posted without error; otherwise, with nil `err`, the next entry lacks a required label |
| Handlers.AllOrNothing | model/namespaceLowHealthEvent.go:14-37 | the result is `(true, nil)` exactly when every entry has its required labels and every POST succeeds; then there is one POST per entry |
| Handlers.EmptyAlertsSucceed | podRestartTooManyEvent.go:22-47 | an empty alert list returns `(true, nil)` and issues no POST |
| Handlers.StopsAtMissingLabel | model/namespaceLowHealthEvent.go:15-20 | the first entry with a missing or empty required label ends the call with `(false, nil)`; exactly the earlier entries were posted |
| Handlers.StopsAtFailedPost | podRestartTooManyEvent.go:39-43 | the first failed POST ends the call with `(false, err)` carrying that POST's error; no later entry is posted |
| Dispatcher.Dispatch | model/alertmanager2es.go:202-224 | at most one handler runs, and each run's result is that handler's result on the notification and its URL |
| Dispatcher.DispatchFollowsRoutes | model/alertmanager2es.go:202-224 | dispatch runs exactly the routing-table entry for the `alertname` label, once, and nothing for a name (or a missing label) without an entry |
| Dispatcher.PodRestartRoute | model/alertmanager2es.go:207-214 | `PodRestartTooMany>20` runs only the pod-restart handler, against the pod-restart URL |
| Dispatcher.NamespaceLowHealthRoute | model/alertmanager2es.go:216-223 | `NamespaceLowHealthLevel` runs only the namespace handler, against the namespace URL |
| Dispatcher.UnknownAlertIsIgnored | model/alertmanager2es.go:202-224 | any other alert name runs no handler and sends no remediation POST |
| Ingest.Handle | model/alertmanager2es.go:139-200 | each call increments `received` and exactly one of `invalid`/`successful`; nil body, malformed payload, wrong version and transport error answer 400, an unreadable body 500; indexing is attempted exactly for a decoded version-"4" payload, with the stamped document under the name built from the same clock reading; dispatch (of that stamped document) happens exactly when the index request was transported, whatever the response status, and exactly when the answer is 200 |
| Ingest.ReplayKeepsBalance | model/alertmanager2es.go:140-197 | over any series of calls `received` grows by the number of calls and `received == invalid + successful` is kept, so it holds from zero counters on |
| Ingest.RemediationIsIsolated | model/alertmanager2es.go:185-199 | the remediation URLs and the outcome of remediation POSTs do not change the status, the counters or the index request |
| Ingest.NamespaceScenario | model/alertmanager2es.go:176-199 | a version-4 `NamespaceLowHealthLevel` notification with one entry for namespace `ns1` is indexed with its labels and a non-empty timestamp, then posts `{"namespaceName": "ns1"}` once to the namespace URL and succeeds |

## Left out

- `Init` and the Prometheus registration (model/alertmanager2es.go:71-100). The counters are a plain record of unbounded naturals updated one call at a time. Atomic concurrent increments and float counters are not modelled.
- `ConnectElasticsearch` (model/alertmanager2es.go:102-127): client construction, the reachability retries with a sleep, and the panics. These are startup network I/O.
- `InitParser` (model/alertmanager2es.go:226-250) and utils/iniParser.go: file-system and command-line lookups over an INI library. The two URLs they produce are parameters of the dispatcher.
- JSON decoding and encoding. A request is already classified as undecodable or decoded. The ignored marshal error is not modelled, and the stored document is the stamped notification itself.
- `time.Now()` and RFC 3339 formatting. The clock reading is an input: a date plus opaque text.
- IndexName.Pad: Go renders negative years with a minus sign. Dates here have natural-number fields, so negative years are not modelled.
- `utils.NewHttpSend` and `Post` are not part of this model. Only their success or failure is modelled, through the `net` oracle. The response body is ignored, as in the source.
- The store client's request execution. Only its outcome (a response or a transport error) is modelled. The store response's status is carried but not inspected, as in the source.
- Logging, the HTTP response writer and its error text, and closing of request and response bodies.
- model/interface/event.go declares only the shared `HandleEvent` signature. It is reflected by the `Handler` datatype, which both handlers share.
