/** Metrics as the aggregators and the alert engine read them (internal/collector/metric.go). */
module Metrics {

  /** A field's dynamic type; float64 and int64 are taken as exact numbers. */
  datatype FieldValue = Float64(r: real) | Int64(i: int) | PlainInt(n: int) | Text(s: string) | Flag(b: bool)

  datatype Metric = Metric(name: string, tags: map<string, string>, fields: map<string, FieldValue>)
}
