/** What the agent and the server exchange: samples, and the batches they travel in. */
module Telemetry {

  /** A UUID. The code only compares these for equality, so a number stands for one. */
  type Uuid = int

  /** One measurement as `sample_metrics` builds it; `recordedAt` is an instant. */
  datatype Sample = Sample(metricName: string, metricValue: string, recordedAt: int, labels: map<string, string>)
}
