/** The bounded retry around a mount (MountWithRetry in pkg/vcloud/mounter.go). */
module MountRetry {
  import opened GoStrings

  const MAX_MOUNT_RETRIES := 5

  /** Seconds. */
  const MOUNT_RETRY_DELAY := 2

  /**
   What the system answers to one attempt: the mount went through, or it failed with an error text;
   `confirmed` is what IsMountPoint would then say about the target.
   */
  datatype Outcome = Mounted | Failed(text: string, confirmed: bool)

  predicate Busy(o: Outcome) {
    o.Failed? && Occurs("device or resource busy", o.text)
  }

  /** An outcome that makes the call succeed. */
  predicate Settles(o: Outcome) {
    o.Mounted? || (Occurs("already mounted", o.text) && o.confirmed)
  }

  /** Seconds slept after attempt k (counted from 1) when it did not settle the call. */
  function Delay(o: Outcome, k: nat): nat {
    if Busy(o) then MOUNT_RETRY_DELAY * k
    else if k < MAX_MOUNT_RETRIES then MOUNT_RETRY_DELAY
    else 0
  }

  /** Seconds slept after the first n attempts. */
  function Slept(outcomes: seq<Outcome>, n: nat): nat
    requires n <= |outcomes|
  {
    if n == 0 then 0 else Slept(outcomes, n - 1) + Delay(outcomes[n - 1], n)
  }

  /** MountWithRetry; `lastErr` is the text of the error it wraps. */
  method MountWithRetry(outcomes: seq<Outcome>) returns (ok: bool, attempts: nat, slept: nat, lastErr: string)
    requires |outcomes| == MAX_MOUNT_RETRIES
    ensures 1 <= attempts <= MAX_MOUNT_RETRIES
    ensures forall k | 0 <= k < attempts - 1 :: !Settles(outcomes[k])
    ensures ok <==> Settles(outcomes[attempts - 1])
    ensures !ok ==> attempts == MAX_MOUNT_RETRIES && outcomes[attempts - 1].Failed?
                    && lastErr == outcomes[attempts - 1].text
    ensures slept == Slept(outcomes, if ok then attempts - 1 else attempts)
  {
    lastErr := "";
    slept := 0;
    attempts := 0;
    var attempt := 1;
    while attempt <= MAX_MOUNT_RETRIES
      invariant 1 <= attempt <= MAX_MOUNT_RETRIES + 1
      invariant attempts == attempt - 1
      invariant forall k | 0 <= k < attempts :: !Settles(outcomes[k])
      invariant slept == Slept(outcomes, attempts)
      invariant attempts > 0 ==> outcomes[attempts - 1].Failed? && lastErr == outcomes[attempts - 1].text
    {
      attempts := attempt;
      var outcome := outcomes[attempt - 1];
      if outcome.Mounted? {
        return true, attempts, slept, lastErr;
      }
      lastErr := outcome.text;
      if Occurs("already mounted", outcome.text) {
        if outcome.confirmed {
          return true, attempts, slept, lastErr;
        }
      }
      if Occurs("device or resource busy", outcome.text) {
        slept := slept + MOUNT_RETRY_DELAY * attempt;
        attempt := attempt + 1;
        continue;
      }
      if attempt < MAX_MOUNT_RETRIES {
        slept := slept + MOUNT_RETRY_DELAY;
      }
      attempt := attempt + 1;
    }
    ok := false;
  }

  /**
   At most n * (n + 1) seconds are slept after n attempts, hence at most 30 in all, and the bound is
   reached exactly when every attempt found the device busy (the first attempt waits as long as a
   busy one either way). If none did, 2 seconds are slept after each attempt but the fifth.
   */
  lemma {:induction false} SleepBound(outcomes: seq<Outcome>, n: nat)
    requires n <= |outcomes| == MAX_MOUNT_RETRIES
    ensures Slept(outcomes, n) <= n * (n + 1) <= 30
    ensures Slept(outcomes, n) == n * (n + 1) <==> forall k | 1 <= k < n :: Busy(outcomes[k])
    ensures (forall k | 0 <= k < n :: !Busy(outcomes[k])) ==> Slept(outcomes, n) == 2 * (if n < 5 then n else 4)
  {
    if n > 0 {
      SleepBound(outcomes, n - 1);
      assert n * (n + 1) == (n - 1) * n + 2 * n;
      assert Delay(outcomes[n - 1], n) == 2 * n <==> n == 1 || Busy(outcomes[n - 1]);
    }
  }
}
