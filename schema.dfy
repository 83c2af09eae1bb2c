/** The stored health reading the server works on (a row of the `health_metrics` table). */
module Schema {
  import opened Wrappers

  /**
   * One reading. `isOverride` is a nullable column (None is SQL NULL);
   * `recordedAt` is the timestamp in milliseconds since the epoch.
   */
  datatype HealthMetric = HealthMetric(
    id: int,
    userId: int,
    category: string,
    metricKey: string,
    value: real,
    unit: string,
    isOverride: Option<bool>,
    recordedAt: int)

  /** The key a reading is recorded under. */
  function KeyOf(m: HealthMetric): string {
    m.metricKey
  }
}
