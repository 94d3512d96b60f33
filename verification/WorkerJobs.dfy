/** How the worker reads a job record (worker/job.go). */
module WorkerJobs {
  import opened Wrappers
  import opened Decimal
  import opened Messages

  const MAX_VUS: int := 200
  const MAX_DURATION_SECONDS: int := 300

  /** A field of a stream entry; `Other` is any value that is not a string. */
  datatype Field = Text(text: string) | Other

  type Fields = map<string, Field>

  datatype JobRecord = JobRecord(
    id: string,
    testID: string,
    url: string,
    vus: int,
    durationSeconds: int,
    rampPattern: string)

  datatype JobError =
    | Missing(key: string)
    | NotText(key: string)
    | InvalidVUs
    | InvalidDuration
    | UnknownRampPattern
    | VUsOutOfRange
    | DurationOutOfRange

  function TextField(values: Fields, key: string): Result<string, JobError> {
    if key !in values then Err(Missing(key))
    else
      match values[key]
      case Text(s) => Ok(s)
      case Other => Err(NotText(key))
  }

  predicate IsRampPattern(s: string) {
    s == "steady" || s == "ramp"
  }

  /** `parseJob`: field by field, returning at the first that does not do. */
  function ParseJob(values: Fields): Result<JobRecord, JobError> {
    var id :- TextField(values, "id");
    var testID :- TextField(values, "test_id");
    var url :- TextField(values, "url");
    var rampPattern :- TextField(values, "ramp_pattern");
    var vusText :- TextField(values, "vus");
    match Atoi(vusText)
    case None => Err(InvalidVUs)
    case Some(vus) =>
      var durationText :- TextField(values, "duration_seconds");
      match Atoi(durationText)
      case None => Err(InvalidDuration)
      case Some(duration) =>
        if IsRampPattern(rampPattern) then Ok(JobRecord(id, testID, url, vus, duration, rampPattern))
        else Err(UnknownRampPattern)
  }

  /** `validate`: the hard caps. */
  function Validate(job: JobRecord): Result<(), JobError> {
    if job.vus <= 0 || job.vus > MAX_VUS then Err(VUsOutOfRange)
    else if job.durationSeconds <= 0 || job.durationSeconds > MAX_DURATION_SECONDS then Err(DurationOutOfRange)
    else Ok(())
  }

  predicate Runnable(values: Fields) {
    ParseJob(values).Ok? && Validate(ParseJob(values).value).Ok?
  }

  /** A field as the abandon path reads it: the empty string if it is missing or no string. */
  function LenientField(values: Fields, key: string): string {
    match TextField(values, key)
    case Ok(s) => s
    case Err(_) => ""
  }

  /** An entry of the jobs stream as the lease protocol sees it. */
  function JobOf(values: Fields): Job {
    Job(LenientField(values, "test_id"), LenientField(values, "id"), Runnable(values))
  }

  /** The record the coordinator puts on the jobs stream (coordinator/enqueue.go). */
  function RecordOf(job: JobRecord): Fields {
    map[
      "id" := Text(job.id),
      "test_id" := Text(job.testID),
      "url" := Text(job.url),
      "vus" := Text(Itoa(job.vus)),
      "duration_seconds" := Text(Itoa(job.durationSeconds)),
      "ramp_pattern" := Text(job.rampPattern)]
  }

  lemma FieldsReadBack(job: JobRecord)
    ensures var values := RecordOf(job);
            && TextField(values, "id") == Ok(job.id) && TextField(values, "test_id") == Ok(job.testID)
            && TextField(values, "url") == Ok(job.url) && TextField(values, "ramp_pattern") == Ok(job.rampPattern)
            && TextField(values, "vus") == Ok(Itoa(job.vus))
            && TextField(values, "duration_seconds") == Ok(Itoa(job.durationSeconds))
  {
  }

  /** The worker reads back exactly what the coordinator wrote, unless the ramp pattern is unknown; and it runs
      the job exactly if the numbers are within the caps as well. */
  lemma RecordReadsBack(job: JobRecord)
    requires IsInt64(job.vus) && IsInt64(job.durationSeconds)
    ensures ParseJob(RecordOf(job)) == if IsRampPattern(job.rampPattern) then Ok(job) else Err(UnknownRampPattern)
    ensures Runnable(RecordOf(job)) <==>
              && (job.rampPattern == "steady" || job.rampPattern == "ramp")
              && 1 <= job.vus <= 200 && 1 <= job.durationSeconds <= 300
    ensures JobOf(RecordOf(job)) == Job(job.testID, job.id, Runnable(RecordOf(job)))
  {
    FieldsReadBack(job);
    AtoiInvertsItoa(job.vus);
    AtoiInvertsItoa(job.durationSeconds);
  }

  /** What is wrong with a record that is rejected is what the error says. */
  lemma JobErrorsAreTrue(values: Fields)
    requires ParseJob(values).Err?
    ensures match ParseJob(values).error
            case Missing(key) => key !in values
            case NotText(key) => key in values && values[key].Other?
            case InvalidVUs => "vus" in values && values["vus"].Text? && Atoi(values["vus"].text).None?
            case InvalidDuration =>
              var key := "duration_seconds";
              key in values && values[key].Text? && Atoi(values[key].text).None?
            case UnknownRampPattern =>
              var key := "ramp_pattern";
              key in values && values[key].Text? && values[key].text != "steady" && values[key].text != "ramp"
            case _ => false
  {
  }

  /** And so for one that parses and is out of the caps. */
  lemma CapErrorsAreTrue(job: JobRecord)
    ensures Validate(job) == Err(VUsOutOfRange) <==> !(1 <= job.vus <= 200)
    ensures Validate(job) == Err(DurationOutOfRange) <==> 1 <= job.vus <= 200 && !(1 <= job.durationSeconds <= 300)
  {
  }

  /** The abandon path reads the IDs of any record, leaving out what is missing or no text. */
  lemma AnyRecordHasIDs(values: Fields)
    ensures JobOf(values).testID
         == if "test_id" in values && values["test_id"].Text? then values["test_id"].text else ""
    ensures JobOf(values).jobID == if "id" in values && values["id"].Text? then values["id"].text else ""
    ensures JobOf(values).runnable == Runnable(values)
  {
  }

  /** The caps hold of every job that is run, whoever wrote its record. */
  lemma OnlyCappedJobsRun(values: Fields)
    ensures Runnable(values) <==>
              && (forall k :: k in {"id", "test_id", "url", "ramp_pattern", "vus", "duration_seconds"} ==>
                    k in values && values[k].Text?)
              && (values["ramp_pattern"].text == "steady" || values["ramp_pattern"].text == "ramp")
              && (exists v :: Atoi(values["vus"].text) == Some(v) && 1 <= v <= 200)
              && (exists d :: Atoi(values["duration_seconds"].text) == Some(d) && 1 <= d <= 300)
  {
    if Runnable(values) {
      var job := ParseJob(values).value;
      assert Atoi(values["vus"].text) == Some(job.vus);
      assert Atoi(values["duration_seconds"].text) == Some(job.durationSeconds);
    }
  }
}
