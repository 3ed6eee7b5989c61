/** The records shared by the analysis pipeline and the live telemetry view
    (types/health-data.ts). */
module HealthTypes {

  /** A value that may be absent: a missing key, a JavaScript `null`/`undefined`,
      or an operation that threw. */
  datatype Option<+T> = None | Some(value: T)

  /** One telemetry sample as the realtime feed delivers it. Readings are
      modelled as exact reals; `lastUpdate` is the optional free-text stamp. */
  datatype HealthData = HealthData(
    HeartRate: real,
    SpO2: real,
    acetone: real,
    timestamp: real,
    lastUpdate: Option<string>)

  /** The analysis record. Status and risk are plain strings, not enums: the
      application never checks them against a fixed set of values. */
  datatype GeminiAnalysis = GeminiAnalysis(
    glucoseEstimate: string,
    glucoseRange: string,
    glucoseStatus: string,
    diabetesRisk: string,
    recommendations: seq<string>)
}
