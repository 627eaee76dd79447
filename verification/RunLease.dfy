/** `src/cemaf/orchestration/run_lease.py`: one lease file per run, with a fencing token that only grows. */
module RunLeases {
  import opened Sequences

  type Time = int

  /** The content of a lease file; a missing file reads as `NO_LEASE`. */
  datatype LeaseFile = LeaseFile(holderId: Option<string>, fencingToken: nat, expiresAt: Option<Time>)

  const NO_LEASE := LeaseFile(None, 0, None)

  datatype RunLease = RunLease(runId: string, holderId: string, fencingToken: nat, expiresAt: Time)

  /** An empty holder id does not count as a holder. */
  predicate Taken(file: LeaseFile, now: Time) {
    file.holderId.Some? && file.holderId.value != "" && file.expiresAt.Some? && file.expiresAt.value > now
  }

  function Granted(file: LeaseFile, runId: string, holderId: string, ttl: int, now: Time): Option<RunLease> {
    if Taken(file, now) then None else Some(RunLease(runId, holderId, file.fencingToken + 1, now + ttl))
  }

  function Written(lease: RunLease): LeaseFile {
    LeaseFile(Some(lease.holderId), lease.fencingToken, Some(lease.expiresAt))
  }

  predicate Validates(file: LeaseFile, lease: RunLease, now: Time) {
    && file.holderId == Some(lease.holderId)
    && file.fencingToken == lease.fencingToken
    && file.expiresAt.Some? && file.expiresAt.value > now
  }

  predicate MayRelease(file: LeaseFile, lease: RunLease) {
    file.holderId == Some(lease.holderId) && file.fencingToken == lease.fencingToken
  }

  function Released(file: LeaseFile): LeaseFile { LeaseFile(None, file.fencingToken, None) }

  /** What can happen to a lease file from outside a given holder. */
  ghost predicate Later(file: LeaseFile, now: Time, file': LeaseFile, now': Time) {
    && now <= now'
    && (|| file' == file
        || file' == Released(file)
        || exists lease: RunLease :: lease.fencingToken == file.fencingToken + 1 && file' == Written(lease))
  }

  /** A lease that once failed validation fails it forever. */
  lemma StaleStaysStale(file: LeaseFile, now: Time, file': LeaseFile, now': Time, lease: RunLease)
    requires Later(file, now, file', now') && lease.fencingToken <= file.fencingToken
    requires !Validates(file, lease, now)
    ensures !Validates(file', lease, now') && lease.fencingToken <= file'.fencingToken
  {
  }

  function SafeChar(c: char): char { if c == ':' || c == '/' then '-' else c }

  /** `str(run_id).replace(":", "-").replace("/", "-")`: runs that collide here share their files. */
  function SafeName(runId: string): string { Map(SafeChar, runId) }

  /** Two runs share their files exactly when they differ in nothing but ':', '/' and '-'. */
  lemma SharedFiles(a: string, b: string)
    ensures SafeName(a) == SafeName(b) <==>
            |a| == |b| && forall i :: 0 <= i < |a| ==> a[i] == b[i] || (a[i] in ":/-" && b[i] in ":/-")
  {
    if SafeName(a) == SafeName(b) {
      assert |a| == |SafeName(a)| == |b|;
      forall i | 0 <= i < |a| ensures a[i] == b[i] || (a[i] in ":/-" && b[i] in ":/-") {
        assert SafeName(a)[i] == SafeName(b)[i];
      }
    }
  }
}
