// Storage quotas: byte counters per repository and in total, and a session count.
// Counters are 64-bit and saturate.

module Quota {
  import opened Core
  import opened Sums

  const U64_MAX: nat := 0xFFFF_FFFF_FFFF_FFFF

  // A cap of zero means unlimited.
  datatype Limits = Limits(maxRepoBytes: nat, maxTotalBytes: nat, maxUploadSessions: nat)

  datatype Scope = Repository | Total

  datatype QuotaError = QuotaExceeded(scope: Scope, limit: nat, requested: nat)

  datatype Bytes = Bytes(perRepo: map<Repo, nat>, total: nat)

  function SaturatingAdd(a: nat, b: nat): nat {
    if a + b > U64_MAX then U64_MAX else a + b
  }

  function SaturatingSub(a: nat, b: nat): nat {
    if a < b then 0 else a - b
  }

  function Min(a: nat, b: nat): nat {
    if a < b then a else b
  }

  function Used(b: Bytes, repo: Repo): nat {
    if repo in b.perRepo then b.perRepo[repo] else 0
  }

  predicate TracksBytes(limits: Limits) {
    limits.maxRepoBytes > 0 || limits.maxTotalBytes > 0
  }

  predicate Over(limit: nat, used: nat, size: nat) {
    limit > 0 && SaturatingAdd(used, size) > limit
  }

  // There is room for `size` more under the cap. A cap of the whole 64-bit range refuses
  // nothing, since the sum it is compared with saturates.
  predicate Fits(limit: nat, used: nat, size: nat) {
    limit == 0 || limit >= U64_MAX || used + size <= limit
  }

  function Charge(b: Bytes, repo: Repo, size: nat): Bytes {
    Bytes(b.perRepo[repo := SaturatingAdd(Used(b, repo), size)], SaturatingAdd(b.total, size))
  }

  function Release(b: Bytes, repo: Repo, size: nat): Bytes {
    if repo !in b.perRepo then b
    else
      var actual := Min(size, b.perRepo[repo]);
      var left := b.perRepo[repo] - actual;
      Bytes(if left == 0 then b.perRepo - {repo} else b.perRepo[repo := left],
            SaturatingSub(b.total, actual))
  }

  // The total is the sum over repositories.
  ghost predicate Sound(b: Bytes) {
    b.total == Sum(b.perRepo) && b.total <= U64_MAX
  }

  predicate WithinCaps(limits: Limits, b: Bytes) {
    && (limits.maxRepoBytes > 0 ==> forall r | r in b.perRepo :: b.perRepo[r] <= limits.maxRepoBytes)
    && (limits.maxTotalBytes > 0 ==> b.total <= limits.maxTotalBytes)
  }

  lemma UsedWithinTotal(b: Bytes, repo: Repo)
    requires Sound(b)
    ensures Used(b, repo) <= b.total
  {
    if repo in b.perRepo { PartOfSum(b.perRepo, repo); }
  }

  /** A charge is exact precisely when the true total fits 64 bits: then `size` is added
      to one repository and to the total, and the total stays the sum. */
  lemma ChargeExact(b: Bytes, repo: Repo, size: nat)
    requires Sound(b)
    ensures b.total + size <= U64_MAX <==> Charge(b, repo, size).total == b.total + size
    ensures b.total + size <= U64_MAX ==>
              var b' := Charge(b, repo, size);
              Sound(b') && forall r :: Used(b', r) == Used(b, r) + (if r == repo then size else 0)
  {
    UsedWithinTotal(b, repo);
    SumInsert(b.perRepo, repo, SaturatingAdd(Used(b, repo), size));
  }

  /** Releasing keeps the total equal to the sum, and returns at most what was held. */
  lemma ReleaseExact(b: Bytes, repo: Repo, size: nat)
    requires Sound(b)
    ensures var b' := Release(b, repo, size);
            && Sound(b') && b'.total == b.total - Min(size, Used(b, repo))
            && forall r :: Used(b', r) == Used(b, r) - (if r == repo then Min(size, Used(b, repo)) else 0)
  {
    if repo in b.perRepo {
      UsedWithinTotal(b, repo);
      SumWithout(b.perRepo, repo);
      SumInsert(b.perRepo, repo, b.perRepo[repo] - Min(size, b.perRepo[repo]));
    }
  }

  /** A release undoes the charge it answers. */
  lemma ReleaseUndoesCharge(b: Bytes, repo: Repo, size: nat)
    requires Sound(b) && b.total + size <= U64_MAX
    ensures var b' := Release(Charge(b, repo, size), repo, size);
            Sound(b') && b'.total == b.total && forall r :: Used(b', r) == Used(b, r)
  {
    ChargeExact(b, repo, size);
    ReleaseExact(Charge(b, repo, size), repo, size);
  }

  // Per-repository sums of a list of stored blobs.
  function RepoSum(blobs: seq<(Repo, nat)>, repo: Repo): nat {
    if blobs == [] then 0
    else
      var (r, size) := blobs[|blobs| - 1];
      RepoSum(blobs[..|blobs| - 1], repo) + if r == repo then size else 0
  }

  function SizeSum(blobs: seq<(Repo, nat)>): nat {
    if blobs == [] then 0 else SizeSum(blobs[..|blobs| - 1]) + blobs[|blobs| - 1].1
  }

  lemma {:induction false} SizeSumGrows(blobs: seq<(Repo, nat)>, n: nat)
    requires n <= |blobs|
    ensures SizeSum(blobs[..n]) <= SizeSum(blobs)
  {
    if n == |blobs| {
      assert blobs[..n] == blobs;
    } else {
      SizeSumGrows(blobs[..|blobs| - 1], n);
      assert blobs[..|blobs| - 1][..n] == blobs[..n];
    }
  }

  // ---- upload sessions ----

  datatype SessionEvent = Begin | End

  predicate Admits(limit: nat, n: nat, e: SessionEvent) {
    e.Begin? && (limit == 0 || n < limit)
  }

  function SessionStep(limit: nat, n: nat, e: SessionEvent): nat {
    if Admits(limit, n, e) then n + 1 else if e.End? && n > 0 then n - 1 else n
  }

  function SessionsAfter(limit: nat, n: nat, events: seq<SessionEvent>): nat {
    if events == [] then n
    else SessionStep(limit, SessionsAfter(limit, n, events[..|events| - 1]), events[|events| - 1])
  }

  // How many of the begins were admitted, and how many ends there were.
  function Opened(limit: nat, n: nat, events: seq<SessionEvent>): nat {
    if events == [] then 0
    else
      var before := events[..|events| - 1];
      Opened(limit, n, before) + if Admits(limit, SessionsAfter(limit, n, before), events[|events| - 1]) then 1 else 0
  }

  function Closed(events: seq<SessionEvent>): nat {
    if events == [] then 0 else Closed(events[..|events| - 1]) + if events[|events| - 1].End? then 1 else 0
  }

  // No part of the run closes more than was open at first and opened since.
  ghost predicate Paired(limit: nat, n: nat, events: seq<SessionEvent>) {
    forall i | 0 <= i <= |events| :: Closed(events[..i]) <= n + Opened(limit, n, events[..i])
  }

  /** Over any run of begins and ends the count never falls short of what was opened minus
      what was closed, it stays within the cap, and it is exactly that difference all along
      if and only if every end closes a session that is open. */
  lemma SessionsBalance(limit: nat, n: nat, events: seq<SessionEvent>)
    ensures SessionsAfter(limit, n, events) + Closed(events) >= n + Opened(limit, n, events)
    ensures 0 < limit && n <= limit ==> SessionsAfter(limit, n, events) <= limit
    ensures (forall i | 0 <= i <= |events| ::
               SessionsAfter(limit, n, events[..i]) + Closed(events[..i]) == n + Opened(limit, n, events[..i]))
            <==> Paired(limit, n, events)
  {
    hide SessionsAfter, Opened, Closed;
    AtLeastOpen(limit, n, events);
    if Paired(limit, n, events) {
      forall i | 0 <= i <= |events|
        ensures SessionsAfter(limit, n, events[..i]) + Closed(events[..i]) == n + Opened(limit, n, events[..i])
      {
        PairedIsExact(limit, n, events, i);
      }
    }
  }

  lemma {:induction false} AtLeastOpen(limit: nat, n: nat, events: seq<SessionEvent>)
    ensures SessionsAfter(limit, n, events) + Closed(events) >= n + Opened(limit, n, events)
    ensures 0 < limit && n <= limit ==> SessionsAfter(limit, n, events) <= limit
  {
    if events != [] { AtLeastOpen(limit, n, events[..|events| - 1]); }
  }

  lemma {:induction false} PairedIsExact(limit: nat, n: nat, events: seq<SessionEvent>, i: nat)
    requires i <= |events| && Paired(limit, n, events)
    ensures SessionsAfter(limit, n, events[..i]) + Closed(events[..i]) == n + Opened(limit, n, events[..i])
  {
    if i > 0 {
      PairedIsExact(limit, n, events, i - 1);
      assert events[..i][..i - 1] == events[..i - 1];
      assert Closed(events[..i]) <= n + Opened(limit, n, events[..i]);
    }
  }

  class QuotaTracker {
    const limits: Limits
    var perRepo: map<Repo, nat>
    var total: nat
    var sessions: nat

    ghost function State(): Bytes
      reads this
    {
      Bytes(perRepo, total)
    }

    ghost predicate Valid()
      reads this
    {
      Sound(State())
    }

    constructor (limits: Limits)
      ensures Valid() && this.limits == limits && perRepo == map[] && total == 0 && sessions == 0
    {
      this.limits := limits;
      perRepo, total, sessions := map[], 0, 0;
    }

    method AddBytes(repo: Repo, size: nat)
      modifies `perRepo, `total
      ensures State() == Charge(old(State()), repo, size)
    {
      total := SaturatingAdd(total, size);
      var used := if repo in perRepo then perRepo[repo] else 0;
      perRepo := perRepo[repo := SaturatingAdd(used, size)];
    }

    // All or nothing; the repository cap is reported before the total cap.
    method Admit(repo: Repo, size: nat) returns (r: Result<(), QuotaError>)
      requires Valid()
      modifies `perRepo, `total
      ensures r == if !Fits(limits.maxRepoBytes, old(if repo in perRepo then perRepo[repo] else 0), size)
                     then Err(QuotaExceeded(Repository, limits.maxRepoBytes, size))
                   else if !Fits(limits.maxTotalBytes, old(total), size)
                     then Err(QuotaExceeded(Total, limits.maxTotalBytes, size))
                   else Ok(())
      ensures r.Err? || (limits.maxRepoBytes == 0 && limits.maxTotalBytes == 0) ==> State() == old(State())
      ensures r.Ok? && (limits.maxRepoBytes > 0 || limits.maxTotalBytes > 0) ==>
                State() == Charge(old(State()), repo, size)
      ensures old(total) + size <= U64_MAX ==> Valid()
      ensures old(WithinCaps(limits, State())) ==> WithinCaps(limits, State())
    {
      if !TracksBytes(limits) { return Ok(()); }
      ghost var b := State();
      var repoNow := if repo in perRepo then perRepo[repo] else 0;
      var checks := [(Repository, limits.maxRepoBytes, repoNow), (Total, limits.maxTotalBytes, total)];
      for i := 0 to |checks|
        invariant State() == b
        invariant i > 0 ==> !Over(limits.maxRepoBytes, Used(b, repo), size)
        invariant i > 1 ==> !Over(limits.maxTotalBytes, b.total, size)
      {
        var (scope, limit, used) := checks[i];
        if limit > 0 && SaturatingAdd(used, size) > limit {
          return Err(QuotaExceeded(scope, limit, size));
        }
      }
      ChargeExact(b, repo, size);
      AddBytes(repo, size);
      r := Ok(());
    }

    method Seed(repo: Repo, size: nat)
      requires Valid()
      modifies `perRepo, `total
      ensures State() == if TracksBytes(limits) then Charge(old(State()), repo, size) else old(State())
      ensures old(total) + size <= U64_MAX ==> Valid()
    {
      ChargeExact(State(), repo, size);
      if TracksBytes(limits) { AddBytes(repo, size); }
    }

    method ReleaseBytes(repo: Repo, size: nat)
      requires Valid()
      modifies `perRepo, `total
      ensures Valid() && State() == if TracksBytes(limits) then Release(old(State()), repo, size) else old(State())
    {
      if !TracksBytes(limits) || repo !in perRepo { return; }
      ghost var b := State();
      var used := perRepo[repo];
      var actual := Min(size, used);
      used := used - actual;
      if used == 0 {
        perRepo := perRepo - {repo};
      } else {
        perRepo := perRepo[repo := used];
      }
      total := SaturatingSub(total, actual);
      ReleaseExact(b, repo, size);
    }

    // Counting what is on disk at startup: afterwards every counter equals the sizes
    // of the stored blobs, as long as they fit 64 bits together.
    method SeedAll(blobs: seq<(Repo, nat)>)
      requires Valid() && TracksBytes(limits) && perRepo == map[] && total == 0
      requires SizeSum(blobs) <= U64_MAX
      modifies `perRepo, `total
      ensures Valid() && total == SizeSum(blobs)
      ensures forall repo :: Used(State(), repo) == RepoSum(blobs, repo)
    {
      var i := 0;
      while i < |blobs|
        invariant i <= |blobs| && Valid() && total == SizeSum(blobs[..i])
        invariant forall repo :: Used(State(), repo) == RepoSum(blobs[..i], repo)
      {
        var (repo, size) := blobs[i];
        assert blobs[..i + 1][..i] == blobs[..i];
        SizeSumGrows(blobs, i + 1);
        ChargeExact(State(), repo, size);
        Seed(repo, size);
        i := i + 1;
      }
      assert blobs[..i] == blobs;
    }

    method BeginSession() returns (r: Result<(), nat>)
      modifies `sessions
      ensures r.Ok? <==> limits.maxUploadSessions == 0 || old(sessions) < limits.maxUploadSessions
      ensures sessions == SessionStep(limits.maxUploadSessions, old(sessions), Begin)
      ensures r.Err? ==> r.error == limits.maxUploadSessions
      ensures 0 < limits.maxUploadSessions && old(sessions) <= limits.maxUploadSessions ==>
              sessions <= limits.maxUploadSessions
    {
      if limits.maxUploadSessions == 0 || sessions < limits.maxUploadSessions {
        sessions := sessions + 1;
        r := Ok(());
      } else {
        r := Err(limits.maxUploadSessions);
      }
    }

    // Never below zero.
    method EndSession()
      modifies `sessions
      ensures sessions == SessionStep(limits.maxUploadSessions, old(sessions), End)
    {
      if sessions > 0 { sessions := sessions - 1; }
    }
  }
}
