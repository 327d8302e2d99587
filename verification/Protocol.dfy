/** What the controller and its agents agree on about releases and requests. */
module Protocol {

  /** How one request ends; a request reported as failed may have taken effect all the same. */
  datatype Fate = Lands | Fails | FailsButLands | Crash

  predicate TookEffect(f: Fate) {
    f.Lands? || f.FailsButLands?
  }

  /** How an operation made of several requests or writes ends. */
  datatype Verdict = Succeeded | Failed | Crashed

  /** The offer of one build to one agent. */
  datatype Manifest = Manifest(version: string, target: string, release: string, chunks: nat, totalBytes: nat,
                               sha256: string, publishedAt: int)
}
