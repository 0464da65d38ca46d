/** A metric's identity as the instrumentation layer hands it over (`metrics::Key`). */
module Keys {

  /** One key/value label. Labels become Sentry tags of the same shape. */
  datatype Label = Label(key: string, value: string)

  /** A metric name plus its labels, in the order they were given. */
  datatype Key = Key(name: string, labels: seq<Label>)

  /** The reserved label key that overrides a metric's unit per call. */
  const UnitLabel: string := "unit"
}
