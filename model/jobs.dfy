/**
 * A job row, as far as the pipeline's stages and handlers see it: its
 * status string, which they read and overwrite in place.
 */
module Jobs {
  /** A `Job` row. */
  class Job {
    var status: string

    constructor(status0: string)
      ensures status == status0
    {
      status := status0;
    }

    /** `job.status = s` */
    method SetStatus(s: string)
      modifies this
      ensures status == s
    {
      status := s;
    }
  }
}
