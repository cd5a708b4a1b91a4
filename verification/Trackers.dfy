// The mutable bookkeeping objects of the storage layer.

module Trackers {
  import opened Core
  import opened Metadata

  type Time = nat

  // The metadata index as an object: every change is an applied operation.
  class MetadataStore {
    var state: Meta

    constructor ()
      ensures state == map[]
    {
      state := map[];
    }

    method ApplyOp(op: MetaOp)
      modifies this
      ensures state == Apply(old(state), op)
    {
      state := Apply(state, op);
    }
  }

  // Candidates for collection, each with the time it was last wanted; manifests
  // that are immune; repositories a sweep must skip. A disabled tracker records
  // nothing.
  class GcTracker {
    const enabled: bool
    const delay: Time
    var candidates: map<Key, Time>
    var roots: set<Key>
    var unsafeRepos: set<Repo>
    var ready: bool

    constructor (enabled: bool, delay: Time)
      ensures this.enabled == enabled && this.delay == delay
      ensures candidates == map[] && roots == {} && unsafeRepos == {} && !ready
    {
      this.enabled, this.delay := enabled, delay;
      candidates, roots, unsafeRepos, ready := map[], {}, {}, false;
    }

    method MarkAt(k: Key, at: Time)
      modifies this`candidates
      ensures candidates == if enabled then old(candidates)[k := at] else old(candidates)
    {
      if enabled { candidates := candidates[k := at]; }
    }

    method Touch(k: Key, now: Time)
      modifies this`candidates
      ensures candidates == if enabled && k in old(candidates) then old(candidates)[k := now] else old(candidates)
    {
      if enabled && k in candidates { candidates := candidates[k := now]; }
    }

    method Clear(k: Key)
      modifies this`candidates
      ensures candidates == if enabled then old(candidates) - {k} else old(candidates)
    {
      if enabled { candidates := candidates - {k}; }
    }

    predicate IsDue(k: Key, now: Time)
      reads this`candidates
    {
      k in candidates && (if now >= candidates[k] then now - candidates[k] else 0) >= delay
    }

    method AddRoot(k: Key)
      modifies this`roots
      ensures roots == if enabled then old(roots) + {k} else old(roots)
    {
      if enabled { roots := roots + {k}; }
    }

    method MarkUnsafe(repo: Repo)
      modifies this`unsafeRepos
      ensures unsafeRepos == if enabled then old(unsafeRepos) + {repo} else old(unsafeRepos)
    {
      if enabled { unsafeRepos := unsafeRepos + {repo}; }
    }
  }
}
