/** What travels on the two Redis streams: jobs to the workers, results to the coordinator. */
module Messages {
  /** One job as the worker reads it. `runnable` says that its record parses and passes validation; a record
      without a usable id or test id has the empty string there. */
  datatype Job = Job(testID: string, jobID: string, runnable: bool)

  /** One results-stream snapshot of a sub-job (`resultUpdate`). */
  datatype ResultUpdate = ResultUpdate(
    requests: int,
    errors: int,
    rps: real,
    p50: string,
    p95: string,
    p99: string,
    done: bool,
    circuitBroken: bool,
    latencySketch: string)

  datatype Message =
    | Report(testID: string, jobID: string, u: ResultUpdate)
    | Abandoned(testID: string, jobID: string)

  /** The message says that its sub-job is over. */
  predicate Final(m: Message) {
    m.Abandoned? || m.u.done
  }
}
