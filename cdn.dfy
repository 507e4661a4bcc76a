/** The content delivery network the invalidator talks to, standing in for the
    CloudFront client's `create_invalidation`. It keeps a log of every batch submitted;
    what the next call returns, an invalidation id or an error text, is decided by the
    environment through `reply`. */
module Cdn {
  /** The `Paths` entry of an invalidation batch: its `Quantity` and its `Items`. */
  datatype Paths = Paths(quantity: nat, items: seq<string>)
  /** The `InvalidationBatch` argument of `create_invalidation`. */
  datatype InvalidationBatch = InvalidationBatch(paths: Paths, callerReference: string)
  datatype Submission = Submission(distributionId: string, batch: InvalidationBatch)
  /** What a call returns: the new invalidation's id, or the error it raised. */
  datatype Outcome = Created(invalidationId: string) | Failed(error: string)

  class Distribution {
    var submissions: seq<Submission>
    /** The outcome of the next `create_invalidation` call. */
    var reply: Outcome

    constructor (reply: Outcome)
      ensures this.submissions == [] && this.reply == reply
    {
      this.submissions := [];
      this.reply := reply;
    }

    /** One `create_invalidation` call: it is logged and its outcome comes back. */
    method CreateInvalidation(distributionId: string, batch: InvalidationBatch) returns (outcome: Outcome)
      modifies this
      ensures submissions == old(submissions) + [Submission(distributionId, batch)]
      ensures reply == old(reply) && outcome == reply
    {
      submissions := submissions + [Submission(distributionId, batch)];
      outcome := reply;
    }
  }
}
