/** Recording a job's progress (`update_job_progress` in
  * `backend/core/utils.py`) against the job table of
  * `backend/database/jobs.py`, modelled as a map from job id to row. The
  * result of a job is a JSON document the model does not look into, so it is
  * a type parameter. */
module JobProgress {
  import opened Wrappers

  /** A row of the `jobs` table, without its key. */
  datatype JobRow<R> = JobRow(status: string, progress: real, result: Option<R>, error: Option<string>)

  /** The dict `get_job` returns and `update_job` takes. */
  datatype Job<R> = Job(jobId: string, status: string, progress: real, result: Option<R>, error: Option<string>)

  /** The optional arguments of `update_job_progress`; `None` leaves a field as
    * it is. */
  datatype Changes<R> = Changes(status: Option<string>, progress: Option<real>, result: Option<R>, error: Option<string>)

  function OrElse<T>(o: Option<T>, default: T): T
  {
    if o.Some? then o.value else default
  }

  /** The job after the field-by-field overwrites of `update_job_progress`. */
  function Updated<R>(j: Job<R>, c: Changes<R>): (r: Job<R>)
    ensures r.jobId == j.jobId
    ensures c.status.None? ==> r.status == j.status
    ensures c.status.Some? ==> r.status == c.status.value
    ensures c.progress.None? ==> r.progress == j.progress
    ensures c.progress.Some? ==> r.progress == c.progress.value
    ensures c.result.None? ==> r.result == j.result
    ensures c.result.Some? ==> r.result == c.result
    ensures c.error.None? ==> r.error == j.error
    ensures c.error.Some? ==> r.error == c.error
  {
    Job(j.jobId, OrElse(c.status, j.status), OrElse(c.progress, j.progress),
        if c.result.Some? then c.result else j.result,
        if c.error.Some? then c.error else j.error)
  }

  /** The arguments of two calls in a row, the later call's winning. */
  function Then<R>(first: Changes<R>, second: Changes<R>): Changes<R>
  {
    Changes(
      if second.status.Some? then second.status else first.status,
      if second.progress.Some? then second.progress else first.progress,
      if second.result.Some? then second.result else first.result,
      if second.error.Some? then second.error else first.error)
  }

  /** Two updates in a row are one update with the arguments combined. */
  lemma UpdatedThen<R>(j: Job<R>, first: Changes<R>, second: Changes<R>)
    ensures Updated(Updated(j, first), second) == Updated(j, Then(first, second))
  {
  }

  /** Repeating an update changes nothing more. */
  lemma UpdatedIdempotent<R>(j: Job<R>, c: Changes<R>)
    ensures Updated(Updated(j, c), c) == Updated(j, c)
  {
    UpdatedThen(j, c, c);
    assert Then(c, c) == c;
  }

  /** No update can clear a recorded error or result: a `None` argument means
    * "keep". */
  lemma UpdatesNeverClear<R>(j: Job<R>, c: Changes<R>)
    ensures j.error.Some? ==> Updated(j, c).error.Some?
    ensures j.result.Some? ==> Updated(j, c).result.Some?
  {
  }

  /** The job table; `written` lists the jobs handed to `update_job`, in order. */
  class JobStorage<R> {
    var rows: map<string, JobRow<R>>
    var written: seq<Job<R>>

    constructor(rows: map<string, JobRow<R>>)
      ensures this.rows == rows && written == []
    {
      this.rows := rows;
      written := [];
    }

    /** `get_job`: the row with that id as a job, or `None` when there is none. */
    function GetJob(jobId: string): (r: Option<Job<R>>)
      reads this
      ensures r.None? <==> jobId !in rows
      ensures r.Some? ==> r.value.jobId == jobId && JobRow(r.value.status, r.value.progress, r.value.result, r.value.error) == rows[jobId]
    {
      if jobId in rows then
        var row := rows[jobId];
        Some(Job(jobId, row.status, row.progress, row.result, row.error))
      else None
    }

    /** `update_job`: the `UPDATE ... WHERE job_id = ?` overwrites the row with
      * the job's id, and touches nothing when there is no such row. */
    method UpdateJob(job: Job<R>)
      modifies this
      ensures job.jobId in old(rows) ==> rows == old(rows)[job.jobId := JobRow(job.status, job.progress, job.result, job.error)]
      ensures job.jobId !in old(rows) ==> rows == old(rows)
      ensures written == old(written) + [job]
    {
      if job.jobId in rows {
        rows := rows[job.jobId := JobRow(job.status, job.progress, job.result, job.error)];
      }
      written := written + [job];
    }
  }

  /** The row a job is stored as. */
  function RowOf<R>(j: Job<R>): JobRow<R>
  {
    JobRow(j.status, j.progress, j.result, j.error)
  }

  /** `update_job_progress`: nothing is written for an unknown job; otherwise
    * the job is read, each given field overwritten, and the job written back
    * once. */
  method UpdateJobProgress<R>(
    store: JobStorage<R>, jobId: string,
    status: Option<string>, progress: Option<real>, result: Option<R>, error: Option<string>)
    modifies store
    ensures jobId !in old(store.rows) ==> store.rows == old(store.rows) && store.written == old(store.written)
    ensures jobId in old(store.rows) ==>
      var j := Updated(old(store.GetJob(jobId)).value, Changes(status, progress, result, error));
      && store.rows == old(store.rows)[jobId := RowOf(j)]
      && store.written == old(store.written) + [j]
  {
    var found := store.GetJob(jobId);
    if found.Some? {
      var job := found.value;
      if status.Some? {
        job := job.(status := status.value);
      }
      if progress.Some? {
        job := job.(progress := progress.value);
      }
      if result.Some? {
        job := job.(result := result);
      }
      if error.Some? {
        job := job.(error := error);
      }
      store.UpdateJob(job);
    }
  }
}
