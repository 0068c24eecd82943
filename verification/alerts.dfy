/** The webhook payload as the exporter decodes it (model/alertmanager2es.go,
    AlertmanagerEntry).  Decoding the payload's timestamps is part of the
    abstract parse; the model keeps them as opaque text. */
module Alerts {

  /** The only webhook payload version the exporter accepts. */
  const SupportedWebhookVersion: string := "4"

  /** The common label that selects a remediation handler. */
  const AlertLabel: string := "alertname"

  type Labels = map<string, string>

  /** Indexing a Go map: a missing key reads as the empty string. */
  function Label(labels: Labels, key: string): string
  {
    if key in labels then labels[key] else ""
  }

  /** One alert inside a notification. */
  datatype AlertEntry = AlertEntry(
    annotations: Labels,
    endsAt: string,
    generatorUrl: string,
    labels: Labels,
    startsAt: string,
    status: string)

  /** One webhook notification: a group of alerts plus the receipt time the
      exporter stamps on it before indexing (`@timestamp`). */
  datatype Notification = Notification(
    alerts: seq<AlertEntry>,
    commonAnnotations: Labels,
    commonLabels: Labels,
    externalUrl: string,
    groupLabels: Labels,
    receiver: string,
    status: string,
    version: string,
    groupKey: string,
    timestamp: string)
}
