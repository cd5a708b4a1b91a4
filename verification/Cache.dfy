// The small-blob cache: least recently used entries go first, within a byte budget that
// covers keys and bookkeeping. A character of a key stands for one byte.

module Cache {
  import opened Core

  const ENTRY_OVERHEAD: nat := 128

  datatype Entry = Entry(key: string, data: seq<byte>)

  function Cost(e: Entry): nat {
    |e.key| + |e.data| + ENTRY_OVERHEAD
  }

  function Total(entries: seq<Entry>): nat {
    if entries == [] then 0 else Total(entries[..|entries| - 1]) + Cost(entries[|entries| - 1])
  }

  function CacheKey(repo: Repo, digest: Digest): string {
    repo + "\0" + digest
  }

  /** Distinct blobs have distinct keys, since repository names contain no NUL. */
  lemma KeyInjective(r1: Repo, d1: Digest, r2: Repo, d2: Digest)
    requires '\0' !in r1 && '\0' !in r2 && CacheKey(r1, d1) == CacheKey(r2, d2)
    ensures r1 == r2 && d1 == d2
  {
    var k := CacheKey(r1, d1);
    assert k[|r1|] == '\0' && k[|r2|] == '\0';
    assert r1 == k[..|r1|] && r2 == k[..|r2|];
    assert d1 == k[|r1| + 1..] && d2 == k[|r2| + 1..];
  }

  // ---- entries in order of use, most recent first ----

  predicate Distinct(entries: seq<Entry>) {
    forall i, j | 0 <= i < j < |entries| :: entries[i].key != entries[j].key
  }

  function Without(entries: seq<Entry>, key: string): seq<Entry> {
    if entries == [] then []
    else (if entries[0].key == key then [] else [entries[0]]) + Without(entries[1..], key)
  }

  function Lookup(entries: seq<Entry>, key: string): Option<seq<byte>> {
    if entries == [] then None
    else if entries[0].key == key then Some(entries[0].data)
    else Lookup(entries[1..], key)
  }

  // The longest run of most recently used entries that fits the budget.
  predicate LongestFitting(all: seq<Entry>, kept: seq<Entry>, capacity: nat) {
    && kept <= all && Total(kept) <= capacity
    && forall n | |kept| < n <= |all| :: Total(all[..n]) > capacity
  }

  lemma {:induction false} TotalAppend(a: seq<Entry>, b: seq<Entry>)
    ensures Total(a + b) == Total(a) + Total(b)
  {
    if b == [] {
      assert a + b == a;
    } else {
      assert (a + b)[..|a + b| - 1] == a + b[..|b| - 1];
      TotalAppend(a, b[..|b| - 1]);
    }
  }

  lemma {:induction false} WithoutMembers(entries: seq<Entry>, key: string)
    requires Distinct(entries)
    ensures Distinct(Without(entries, key))
    ensures forall e :: e in Without(entries, key) <==> e in entries && e.key != key
  {
    if entries != [] {
      var e, rest := entries[0], entries[1..];
      assert entries == [e] + rest;
      WithoutMembers(rest, key);
      var w := Without(rest, key);
      if e.key == key {
        assert Without(entries, key) == w;
      } else {
        assert Without(entries, key) == [e] + w;
        forall j | 0 <= j < |w| ensures w[j].key != e.key {
          assert w[j] in rest;
        }
      }
    }
  }

  /** Taking out a key cuts its one entry from the list and keeps the others in order. */
  lemma {:induction false} WithoutCuts(entries: seq<Entry>, p: nat)
    requires Distinct(entries) && p < |entries|
    ensures Lookup(entries, entries[p].key) == Some(entries[p].data)
    ensures Without(entries, entries[p].key) == entries[..p] + entries[p + 1..]
  {
    var key, rest := entries[p].key, entries[1..];
    if p == 0 {
      NotThere(rest, key);
    } else {
      WithoutCuts(rest, p - 1);
      assert rest[p - 1] == entries[p];
      assert entries[..p] == [entries[0]] + rest[..p - 1] && entries[p + 1..] == rest[p..];
    }
  }

  lemma {:induction false} WithoutTotal(entries: seq<Entry>, key: string)
    requires Distinct(entries)
    ensures Total(entries) == Total(Without(entries, key)) +
                              (if Lookup(entries, key).Some? then Cost(Entry(key, Lookup(entries, key).value)) else 0)
  {
    if entries != [] {
      var e, rest := entries[0], entries[1..];
      assert entries == [e] + rest;
      WithoutTotal(rest, key);
      TotalFirst(e, rest);
      if e.key == key {
        NotThere(rest, key);
        assert Without(entries, key) == Without(rest, key);
      } else {
        TotalFirst(e, Without(rest, key));
      }
    }
  }

  lemma TotalFirst(e: Entry, rest: seq<Entry>)
    ensures Total([e] + rest) == Cost(e) + Total(rest)
  {
    TotalAppend([e], rest);
    assert [e][..0] == [];
    assert Total([e]) == Cost(e);
  }

  lemma WithoutFacts(entries: seq<Entry>, key: string)
    requires Distinct(entries)
    ensures Distinct(Without(entries, key))
    ensures forall e :: e in Without(entries, key) <==> e in entries && e.key != key
    ensures Total(entries) == Total(Without(entries, key)) +
                              (if Lookup(entries, key).Some? then Cost(Entry(key, Lookup(entries, key).value)) else 0)
  {
    WithoutMembers(entries, key);
    WithoutTotal(entries, key);
  }

  lemma {:induction false} NotThere(entries: seq<Entry>, key: string)
    requires forall i | 0 <= i < |entries| :: entries[i].key != key
    ensures Lookup(entries, key) == None && Without(entries, key) == entries
  {
    if entries != [] {
      NotThere(entries[1..], key);
      assert entries == [entries[0]] + entries[1..];
    }
  }

  class SmallBlobCache {
    const threshold: nat
    const capacity: nat
    var entries: seq<Entry>
    var totalBytes: nat

    // The counter is the sum of the entries' costs, and within budget.
    ghost predicate Valid()
      reads this
    {
      Distinct(entries) && totalBytes == Total(entries) && totalBytes <= capacity
    }

    constructor (threshold: nat, capacity: nat)
      ensures Valid() && entries == [] && this.threshold == threshold && this.capacity == capacity
    {
      this.threshold, this.capacity := threshold, capacity;
      entries, totalBytes := [], 0;
    }

    // A hit becomes the most recently used entry; contents and cost stay the same.
    method Get(repo: Repo, digest: Digest) returns (r: Option<seq<byte>>)
      requires Valid()
      modifies `entries
      ensures Valid() && r == Lookup(old(entries), CacheKey(repo, digest))
      ensures r.None? ==> entries == old(entries)
      ensures r.Some? ==>
                entries == [Entry(CacheKey(repo, digest), r.value)] + Without(old(entries), CacheKey(repo, digest))
    {
      var k := CacheKey(repo, digest);
      r := Lookup(entries, k);
      if r.Some? {
        WithoutFacts(entries, k);
        PushFront(Entry(k, r.value), Without(entries, k));
        entries := [Entry(k, r.value)] + Without(entries, k);
      }
    }

    // An accepted blob is cached in front; what remains behind it is the longest run of
    // most recently used entries that fits.
    method Put(repo: Repo, digest: Digest, data: seq<byte>)
      requires Valid()
      modifies `entries, `totalBytes
      ensures Valid()
      ensures var e := Entry(CacheKey(repo, digest), data);
              if |data| > threshold || Cost(e) > capacity then entries == old(entries)
              else entries != [] && entries[0] == e
                   && LongestFitting([e] + Without(old(entries), e.key), entries, capacity)
    {
      var k := CacheKey(repo, digest);
      var cost := |k| + |data| + ENTRY_OVERHEAD;
      if |data| > threshold || cost > capacity { return; }
      WithoutFacts(entries, k);
      var was := Lookup(entries, k);
      if was.Some? {
        totalBytes := totalBytes - Cost(Entry(k, was.value));
        entries := Without(entries, k);
      } else {
        WithoutAbsent(entries, k);
      }
      PushFront(Entry(k, data), entries);
      totalBytes := totalBytes + cost;
      entries := [Entry(k, data)] + entries;
      Evict(Entry(k, data));
    }

    // Drop the least recently used entry until the budget holds. The newest never goes.
    method Evict(ghost newest: Entry)
      requires Distinct(entries) && totalBytes == Total(entries)
      requires entries != [] && entries[0] == newest && Cost(newest) <= capacity
      modifies `entries, `totalBytes
      ensures Valid() && entries != [] && entries[0] == newest && LongestFitting(old(entries), entries, capacity)
    {
      ghost var all := entries;
      assert all[..|all|] == all;
      assert Total(all[..1]) == Cost(newest) by { assert all[..1][..0] == []; }
      while totalBytes > capacity
        invariant 0 < |entries| <= |all| && entries == all[..|entries|] && totalBytes == Total(entries)
        invariant forall n | |entries| < n <= |all| :: Total(all[..n]) > capacity
        decreases |entries|
      {
        var m := |entries| - 1;
        var evicted := entries[m];
        assert all[..m + 1][..m] == all[..m];
        entries := entries[..m];
        totalBytes := totalBytes - Cost(evicted);
      }
    }

    method Invalidate(repo: Repo, digest: Digest)
      requires Valid()
      modifies `entries, `totalBytes
      ensures Valid() && entries == Without(old(entries), CacheKey(repo, digest))
      ensures Lookup(entries, CacheKey(repo, digest)) == None
    {
      var k := CacheKey(repo, digest);
      WithoutFacts(entries, k);
      var was := Lookup(entries, k);
      if was.Some? {
        totalBytes := totalBytes - Cost(Entry(k, was.value));
        entries := Without(entries, k);
      } else {
        WithoutAbsent(entries, k);
      }
      NotThere(entries, k);
    }
  }

  lemma {:induction false} WithoutAbsent(entries: seq<Entry>, key: string)
    requires Lookup(entries, key) == None
    ensures Without(entries, key) == entries
  {
    if entries != [] {
      WithoutAbsent(entries[1..], key);
      assert entries == [entries[0]] + entries[1..];
    }
  }

  lemma PushFront(e: Entry, rest: seq<Entry>)
    requires Distinct(rest) && forall x | x in rest :: x.key != e.key
    ensures Distinct([e] + rest) && Total([e] + rest) == Cost(e) + Total(rest)
  {
    TotalFirst(e, rest);
    forall i, j | 0 <= i < j < |[e] + rest| ensures ([e] + rest)[i].key != ([e] + rest)[j].key {
      assert ([e] + rest)[j] == rest[j - 1] && rest[j - 1] in rest;
    }
  }
}
