/**
 * The remote mailing-list service as the engine sees it: the member record a
 * lookup returns, the write operations the engine batches, and the batch
 * endpoint that accepts a batch and later reports its status.
 *
 * The member lookup itself is a function parameter of the engine (see
 * `Reconcile.Env`), since a run only reads members.
 */
module Remote {
  import opened Wrappers

  /** A remote merge field: absent, present but null, or a name. */
  datatype NameField = Absent | Null | Name(text: string)

  /** The value stored under one interest id: a JSON boolean, or anything else. */
  datatype InterestValue = Flag(b: bool) | Other

  /** A member record as returned by the lookup. */
  datatype Snapshot = Snapshot(
    status: string,
    fname: NameField,
    lname: NameField,
    interests: map<string, InterestValue>)

  datatype HttpMethod = POST | PATCH

  /** The JSON body of one write: address, optional status, FNAME/LNAME/TYPE, interests. */
  datatype MemberData = MemberData(
    emailAddress: string,
    status: Option<string>,
    fname: string,
    lname: string,
    contactType: string,
    interests: map<string, bool>)

  /** One entry of a batch: HTTP method, path, operation_id and body. */
  datatype Operation = Operation(verb: HttpMethod, path: string, operationId: string, body: MemberData)

  /** The identifier the service hands out for a submitted batch. */
  type JobId = nat

  /** A submitted batch and the status the service reports for it. */
  datatype Job = Job(operations: seq<Operation>, status: string)

  /** One status request: the id asked for and the status it answered, or nothing when it failed. */
  datatype StatusRead = StatusRead(id: JobId, answer: Option<string>)

  /**
   * The batch endpoint. `jobs` lists every batch submitted, in order; `polls`
   * lists every status request with its answer, in order. How the service
   * advances a job's status after submission is not part of this model.
   */
  class BatchService {
    var jobs: seq<Job>
    var polls: seq<StatusRead>

    constructor ()
      ensures jobs == [] && polls == []
    {
      jobs := [];
      polls := [];
    }

    /** batch_operations.create: records the batch and returns its id. */
    method Submit(operations: seq<Operation>) returns (id: JobId)
      modifies this
      ensures jobs == old(jobs) + [Job(operations, "pending")]
      ensures id == |old(jobs)| && jobs[id].operations == operations
      ensures polls == old(polls)
    {
      id := |jobs|;
      jobs := jobs + [Job(operations, "pending")];
    }

    /**
     * batch_operations.get: one status read. A request for an unknown id always
     * fails; a request for a submitted batch may fail too (the network, the
     * time-out), and otherwise answers that job's status.
     */
    method Poll(id: JobId) returns (status: Option<string>)
      modifies this`polls
      ensures polls == old(polls) + [StatusRead(id, status)]
      ensures id >= |jobs| ==> status.None?
      ensures status.Some? ==> id < |jobs| && status.value == jobs[id].status
    {
      if id < |jobs| {
        var reached: bool :| true;
        status := if reached then Some(jobs[id].status) else None;
      } else {
        status := None;
      }
      polls := polls + [StatusRead(id, status)];
    }
  }
}
