/** The digest job as the evaluator lists it. */
module Jobs {
  import opened Scheduler

  datatype Job = Job(id: string, owner: string, schedule: Schedule, sources: seq<string>)
}
