// Listing in pages: at most `limit` names after a cursor, in order, and a mark when more
// remain. A client follows the cursor from page to page while names come and go.

module Paging {
  import opened Core
  import opened Json
  import Metadata
  import Layout
  import IndexFile

  // ---- names in lexicographic order ----

  predicate Before(a: string, b: string) {
    b != [] && (a == [] || a[0] < b[0] || (a[0] == b[0] && Before(a[1..], b[1..])))
  }

  // The first difference decides, and a proper beginning comes first.
  predicate DiffersAt(a: string, b: string, n: nat) {
    n <= |a| && n < |b| && a[..n] == b[..n] && (n == |a| || a[n] < b[n])
  }

  /** The order of names is decided at the first place where they differ. */
  lemma {:induction false} BeforeIff(a: string, b: string)
    ensures Before(a, b) <==> exists n: nat :: DiffersAt(a, b, n)
  {
    if b != [] && (a == [] || a[0] < b[0]) {
      assert DiffersAt(a, b, 0);
    } else if b != [] && a[0] == b[0] {
      BeforeIff(a[1..], b[1..]);
      if Before(a, b) {
        var n: nat :| DiffersAt(a[1..], b[1..], n);
        assert a[..n + 1] == [a[0]] + a[1..][..n] && b[..n + 1] == [b[0]] + b[1..][..n];
        assert DiffersAt(a, b, n + 1);
      }
      if exists n: nat :: DiffersAt(a, b, n) {
        var n: nat :| DiffersAt(a, b, n);
        assert a[1..][..n - 1] == a[..n][1..] && b[1..][..n - 1] == b[..n][1..];
        assert DiffersAt(a[1..], b[1..], n - 1);
      }
    } else {
      forall n: nat ensures !DiffersAt(a, b, n) {
        if 0 < n <= |a| && n < |b| { assert a[..n][0] == a[0] && b[..n][0] == b[0]; }
      }
    }
  }

  predicate UpTo(a: string, b: string) {
    a == b || Before(a, b)
  }

  lemma {:induction false} Irreflexive(a: string)
    ensures !Before(a, a)
  {
    if a != [] { Irreflexive(a[1..]); }
  }

  lemma {:induction false} Transitive(a: string, b: string, c: string)
    requires Before(a, b) && Before(b, c)
    ensures Before(a, c)
  {
    if a != [] && a[0] == b[0] && b[0] == c[0] { Transitive(a[1..], b[1..], c[1..]); }
  }

  lemma {:induction false} Comparable(a: string, b: string)
    ensures a == b || Before(a, b) || Before(b, a)
  {
    if a != [] && b != [] && a[0] == b[0] {
      Comparable(a[1..], b[1..]);
      assert a == [a[0]] + a[1..] && b == [b[0]] + b[1..];
    }
  }

  predicate Sorted(s: seq<string>) {
    forall i, j | 0 <= i < j < |s| :: Before(s[i], s[j])
  }

  // Insert a name in order, dropping a repetition.
  function Insert(s: seq<string>, x: string): seq<string> {
    if s == [] || Before(x, s[0]) then [x] + s
    else if s[0] == x then s
    else [s[0]] + Insert(s[1..], x)
  }

  lemma {:induction false} InsertSorted(s: seq<string>, x: string)
    requires Sorted(s)
    ensures Sorted(Insert(s, x)) && Elements(Insert(s, x)) == Elements(s) + {x}
  {
    if s == [] {
    } else if Before(x, s[0]) {
      forall j | 0 < j < |s| ensures Before(x, s[j]) { Transitive(x, s[0], s[j]); }
      assert Elements([x] + s) == Elements(s) + {x};
    } else if s[0] != x {
      InsertSorted(s[1..], x);
      Comparable(x, s[0]);
      var rest := Insert(s[1..], x);
      assert s == [s[0]] + s[1..];
      assert Elements(s) == {s[0]} + Elements(s[1..]);
      assert Elements([s[0]] + rest) == {s[0]} + Elements(rest);
      forall j | 0 <= j < |rest| ensures Before(s[0], rest[j]) {
        assert rest[j] in Elements(rest);
        if rest[j] != x { var k :| 0 <= k < |s[1..]| && s[1..][k] == rest[j]; assert s[k + 1] == rest[j]; }
      }
    }
  }

  // Sorting and removing repetitions.
  method SortDedup(items: seq<string>) returns (r: seq<string>)
    ensures Sorted(r) && Elements(r) == Elements(items)
  {
    r := [];
    var i := 0;
    while i < |items|
      invariant i <= |items| && Sorted(r) && Elements(r) == Elements(items[..i])
    {
      InsertSorted(r, items[i]);
      assert items[..i + 1] == items[..i] + [items[i]];
      r := Insert(r, items[i]);
      i := i + 1;
    }
    assert items[..i] == items;
  }

  // ---- one page ----

  datatype Page = Page(items: seq<string>, more: bool)

  predicate After(last: Option<string>, x: string) {
    last.Some? ==> Before(last.value, x)
  }

  // The page of `names` at a cursor: the first names after it, nothing skipped, and
  // `more` exactly when some name is left over.
  ghost predicate IsPage(names: set<string>, last: Option<string>, limit: nat, p: Page) {
    && Sorted(p.items) && |p.items| <= limit
    && (forall x | x in p.items :: x in names && After(last, x))
    && (forall x | x in names && After(last, x) && x !in p.items ::
          p.more && |p.items| == limit && forall y | y in p.items :: Before(y, x))
    && (p.more ==> exists x :: x in names && After(last, x) && x !in p.items)
  }

  // How many names of a sorted list are not after the cursor.
  function PartitionPoint(items: seq<string>, last: string): nat {
    if items != [] && UpTo(items[0], last) then 1 + PartitionPoint(items[1..], last) else 0
  }

  lemma {:induction false} PartitionSplits(items: seq<string>, last: string)
    requires Sorted(items)
    ensures var n := PartitionPoint(items, last);
            && n <= |items|
            && (forall i | 0 <= i < n :: !Before(last, items[i]))
            && (forall i | n <= i < |items| :: Before(last, items[i]))
  {
    if items != [] {
      var rest := items[1..];
      PartitionSplits(rest, last);
      assert forall i | 0 < i < |items| :: items[i] == rest[i - 1];
      if UpTo(items[0], last) {
        NotBack(items[0], last);
      } else {
        Comparable(items[0], last);
        forall i | 0 <= i < |items| ensures Before(last, items[i]) {
          if i > 0 { Transitive(last, items[0], items[i]); }
        }
      }
    }
  }

  lemma NotBack(a: string, b: string)
    requires UpTo(a, b)
    ensures !Before(b, a)
  {
    if Before(b, a) {
      if a != b { Transitive(a, b, a); }
      Irreflexive(a);
    }
  }

  function TakePage(items: seq<string>, limit: nat): Page {
    if limit < |items| then Page(items[..limit], true) else Page(items, false)
  }

  function PageSorted(items: seq<string>, last: Option<string>, limit: nat): Page
    requires last.Some? ==> PartitionPoint(items, last.value) <= |items|
  {
    TakePage(items[(if last.Some? then PartitionPoint(items, last.value) else 0)..], limit)
  }

  lemma TakeIsPage(items: seq<string>, limit: nat)
    requires Sorted(items)
    ensures IsPage(Elements(items), None, limit, TakePage(items, limit))
  {
    hide Before;
    var p := TakePage(items, limit);
    forall x | x in Elements(items) && x !in p.items
      ensures p.more && |p.items| == limit && forall y | y in p.items :: Before(y, x)
    {
      var k :| 0 <= k < |items| && items[k] == x;
    }
    if p.more {
      var x := items[limit];
      forall i | 0 <= i < limit ensures items[i] != x { Irreflexive(x); }
      assert x in Elements(items) && x !in p.items;
    }
  }

  // What lies after the cursor is a suffix of the sorted list.
  lemma SuffixAfter(items: seq<string>, last: string)
    requires Sorted(items)
    ensures PartitionPoint(items, last) <= |items|
    ensures forall x :: x in items[PartitionPoint(items, last)..] <==> x in items && Before(last, x)
  {
    hide Before, PartitionPoint;
    PartitionSplits(items, last);
    var n := PartitionPoint(items, last);
    forall x | x in items && Before(last, x) ensures x in items[n..] {
      var k :| 0 <= k < |items| && items[k] == x;
      assert items[n..][k - n] == x;
    }
  }

  /** Paging a sorted list is paging the set of its names. */
  lemma PageSortedIsPage(items: seq<string>, last: Option<string>, limit: nat)
    requires Sorted(items)
    ensures last.Some? ==> PartitionPoint(items, last.value) <= |items|
    ensures IsPage(Elements(items), last, limit, PageSorted(items, last, limit))
  {
    hide Before, PartitionPoint, TakePage;
    if last.Some? { SuffixAfter(items, last.value); }
    var rest := items[(if last.Some? then PartitionPoint(items, last.value) else 0)..];
    assert Sorted(rest);
    TakeIsPage(rest, limit);
    var p := TakePage(rest, limit);
    if p.more {
      var x :| x in Elements(rest) && After(None, x) && x !in p.items;
      assert x in Elements(items) && After(last, x) && x !in p.items;
    }
  }

  /** A page is determined by the names, the cursor and the limit, so it does not matter
      which structure the names were listed from. */
  lemma PageUnique(names: set<string>, last: Option<string>, limit: nat, p: Page, q: Page)
    requires IsPage(names, last, limit, p) && IsPage(names, last, limit, q)
    ensures p == q
  {
    SamePrefix(names, last, limit, p, q, if |p.items| < |q.items| then |p.items| else |q.items|);
    if |p.items| <= |q.items| {
      NotLonger(names, last, limit, p, q);
    } else {
      NotLonger(names, last, limit, q, p);
    }
    assert p.items == q.items;
  }

  lemma NotLonger(names: set<string>, last: Option<string>, limit: nat, p: Page, q: Page)
    requires IsPage(names, last, limit, p) && IsPage(names, last, limit, q)
    requires |p.items| <= |q.items| && p.items == q.items[..|p.items|]
    ensures |p.items| == |q.items|
  {
    hide Before;
    if |p.items| < |q.items| {
      var x := q.items[|p.items|];
      if x in p.items {
        var i :| 0 <= i < |p.items| && p.items[i] == x;
        assert Before(q.items[i], x);
        Irreflexive(x);
      }
    }
  }

  lemma {:induction false} SamePrefix(names: set<string>, last: Option<string>, limit: nat, p: Page, q: Page, n: nat)
    requires IsPage(names, last, limit, p) && IsPage(names, last, limit, q)
    requires n <= |p.items| && n <= |q.items|
    ensures p.items[..n] == q.items[..n]
  {
    hide Before;
    if n > 0 {
      SamePrefix(names, last, limit, p, q, n - 1);
      var x, y := p.items[n - 1], q.items[n - 1];
      if x != y {
        Comparable(x, y);
        NotAhead(names, last, limit, p, q, n - 1);
        NotAhead(names, last, limit, q, p, n - 1);
      }
      assert p.items[..n] == p.items[..n - 1] + [x] && q.items[..n] == q.items[..n - 1] + [y];
    }
  }

  // A page cannot pass over a name that another page of the same names lists.
  lemma NotAhead(names: set<string>, last: Option<string>, limit: nat, p: Page, q: Page, n: nat)
    requires IsPage(names, last, limit, p) && IsPage(names, last, limit, q)
    requires n < |p.items| && n < |q.items| && p.items[..n] == q.items[..n]
    ensures !Before(p.items[n], q.items[n])
  {
    hide Before;
    var x := p.items[n];
    if Before(x, q.items[n]) {
      Irreflexive(x);
      if x in q.items {
        var i :| 0 <= i < |q.items| && q.items[i] == x;
        if i > n { Transitive(x, q.items[n], x); }
      } else {
        assert q.items[n] in q.items;
        Transitive(x, q.items[n], x);
      }
    }
  }

  function TagsOf(entries: seq<Json>): set<string> {
    set e | e in entries && Layout.EntryTag(e).Some? :: Layout.EntryTag(e).value
  }

  method LayoutTagsPage(index: Json, last: Option<string>, limit: nat) returns (p: Page)
    ensures IsPage(TagsOf(Layout.Entries(index)), last, limit, p)
  {
    var entries := Layout.Entries(index);
    var tags: seq<string> := [];
    for i := 0 to |entries|
      invariant Elements(tags) == TagsOf(entries[..i])
    {
      assert entries[..i + 1] == entries[..i] + [entries[i]];
      var t := Layout.EntryTag(entries[i]);
      if t.Some? {
        ElementsSnoc(tags, t.value);
        tags := tags + [t.value];
      }
    }
    assert entries[..|entries|] == entries;
    var sorted := SortDedup(tags);
    PageSortedIsPage(sorted, last, limit);
    p := PageSorted(sorted, last, limit);
  }

  /** The tags listed from a rebuilt file are the metadata's, save those of unlistable
      digests. */
  lemma FileListsTags(rs: Metadata.RepoState, via: Layout.Via, existing: Option<Json>, tags: seq<string>,
                      plain: seq<Digest>)
    requires Metadata.TagsKnown(rs) && Layout.InOrder(rs, tags, plain)
    ensures TagsOf(Layout.Entries(Layout.Rebuilt(rs, via, existing, tags, plain))) ==
            set t | t in rs.tags && !IndexFile.Unlistable(Layout.ExistingEntries(existing), rs.tags[t].digest)
  {
    hide Layout.Rebuilt, Layout.InOrder, Layout.EntryTag, IndexFile.Unlistable, IndexFile.Resolve;
    var entries := Layout.Entries(Layout.Rebuilt(rs, via, existing, tags, plain));
    forall t ensures t in TagsOf(entries) <==> IndexFile.Resolve(entries, t).Some? {
      if t in TagsOf(entries) {
        var e :| e in entries && Layout.EntryTag(e) == Some(t);
        IndexFile.ListedResolves(entries, e);
      } else if IndexFile.Resolve(entries, t).Some? {
        IndexFile.ResolveIn(entries, t);
      }
    }
    forall t ensures IndexFile.Resolve(entries, t).Some? <==>
                     t in rs.tags && !IndexFile.Unlistable(Layout.ExistingEntries(existing), rs.tags[t].digest)
    {
      IndexFile.FileResolvesTags(rs, via, existing, tags, plain, t);
    }
  }

  /** Hence a page listed from the metadata and the same page listed from the file are
      equal, at every cursor and limit, when no tagged digest is unlistable; and the two
      list different sets otherwise. */
  lemma ListingPathsAgree(rs: Metadata.RepoState, via: Layout.Via, existing: Option<Json>, tags: seq<string>,
                          plain: seq<Digest>, last: Option<string>, limit: nat, p: Page, q: Page)
    requires Metadata.TagsKnown(rs) && Layout.InOrder(rs, tags, plain) && IsPage(rs.tags.Keys, last, limit, p)
    requires IsPage(TagsOf(Layout.Entries(Layout.Rebuilt(rs, via, existing, tags, plain))), last, limit, q)
    ensures (forall t | t in rs.tags :: !IndexFile.Unlistable(Layout.ExistingEntries(existing), rs.tags[t].digest)) ==>
            p == q
    ensures TagsOf(Layout.Entries(Layout.Rebuilt(rs, via, existing, tags, plain))) == rs.tags.Keys <==>
            forall t | t in rs.tags :: !IndexFile.Unlistable(Layout.ExistingEntries(existing), rs.tags[t].digest)
  {
    hide Layout.Rebuilt, Layout.InOrder, IndexFile.Unlistable, IsPage, TagsOf;
    FileListsTags(rs, via, existing, tags, plain);
    if forall t | t in rs.tags :: !IndexFile.Unlistable(Layout.ExistingEntries(existing), rs.tags[t].digest) {
      assert TagsOf(Layout.Entries(Layout.Rebuilt(rs, via, existing, tags, plain))) == rs.tags.Keys;
      PageUnique(rs.tags.Keys, last, limit, p, q);
    }
  }

  // ---- following the cursor ----

  // One fetch of a listing: the names at that moment and the page returned.
  datatype Fetch = Fetch(names: set<string>, page: Page)

  // The next cursor is the last name of a page that announced more.
  function Cursor(fetches: seq<Fetch>): Option<string> {
    if fetches == [] || fetches[|fetches| - 1].page.items == [] then None
    else Some(fetches[|fetches| - 1].page.items[|fetches[|fetches| - 1].page.items| - 1])
  }

  // A client's run: every page is fetched at the cursor left by the one before, which
  // announced more. The names may differ from fetch to fetch.
  ghost predicate IsRun(fetches: seq<Fetch>, limit: nat) {
    fetches == [] ||
    (var n := |fetches| - 1;
     && IsRun(fetches[..n], limit)
     && (n > 0 ==> fetches[n - 1].page.more)
     && IsPage(fetches[n].names, Cursor(fetches[..n]), limit, fetches[n].page))
  }

  function Listed(fetches: seq<Fetch>): seq<string> {
    if fetches == [] then [] else Listed(fetches[..|fetches| - 1]) + fetches[|fetches| - 1].page.items
  }

  // A page that announced more is full, so with a positive limit it moves the cursor.
  lemma FullPage(fetches: seq<Fetch>, limit: nat)
    requires IsRun(fetches, limit) && fetches != [] && fetches[|fetches| - 1].page.more && limit > 0
    ensures |fetches[|fetches| - 1].page.items| == limit && Cursor(fetches).Some?
  {
    hide Before, IsRun;
    LastPage(fetches, limit);
  }

  lemma LastPage(fetches: seq<Fetch>, limit: nat)
    requires IsRun(fetches, limit) && fetches != []
    ensures var n := |fetches| - 1;
            IsRun(fetches[..n], limit) && IsPage(fetches[n].names, Cursor(fetches[..n]), limit, fetches[n].page)
            && (n > 0 ==> fetches[n - 1].page.more)
  {
  }

  /** Whatever changes between fetches, names come in order, none comes twice, and the
      cursor stands on the last one listed. */
  lemma {:induction false} RunInOrder(fetches: seq<Fetch>, limit: nat)
    requires IsRun(fetches, limit) && limit > 0
    ensures Sorted(Listed(fetches))
    ensures Listed(fetches) != [] && fetches[|fetches| - 1].page.more ==>
              Cursor(fetches) == Some(Listed(fetches)[|Listed(fetches)| - 1])
  {
    hide Before, IsRun;
    if fetches != [] {
      var n := |fetches| - 1;
      LastPage(fetches, limit);
      RunInOrder(fetches[..n], limit);
      if fetches[n].page.more { FullPage(fetches, limit); }
      if n > 0 {
        assert fetches[..n][n - 1] == fetches[n - 1];
        FullPage(fetches[..n], limit);
        ListedEnds(fetches[..n]);
        Glue(Listed(fetches[..n]), fetches[n].page.items);
      }
    }
  }

  lemma ListedEnds(fetches: seq<Fetch>)
    requires fetches != [] && fetches[|fetches| - 1].page.items != []
    ensures Listed(fetches) != []
  {
  }

  lemma Glue(a: seq<string>, b: seq<string>)
    requires Sorted(a) && Sorted(b) && a != [] && forall x | x in b :: Before(a[|a| - 1], x)
    ensures Sorted(a + b)
  {
    hide Before;
    forall i, j | 0 <= i < j < |a + b| ensures Before((a + b)[i], (a + b)[j]) {
      if i < |a| <= j {
        assert b[j - |a|] in b;
        if i < |a| - 1 { Transitive(a[i], a[|a| - 1], b[j - |a|]); }
      }
    }
  }

  // A name present at every fetch is listed or still lies ahead of the cursor.
  lemma {:induction false} RunMissesNothing(fetches: seq<Fetch>, limit: nat, x: string)
    requires IsRun(fetches, limit) && limit > 0 && fetches != []
    requires forall i | 0 <= i < |fetches| :: x in fetches[i].names
    ensures x in Listed(fetches) || (fetches[|fetches| - 1].page.more && After(Cursor(fetches), x))
  {
    hide Before, IsRun;
    var n := |fetches| - 1;
    LastPage(fetches, limit);
    if n > 0 {
      assert fetches[..n][n - 1] == fetches[n - 1];
      assert forall i | 0 <= i < n :: fetches[..n][i] == fetches[i];
      RunMissesNothing(fetches[..n], limit, x);
    }
    if x !in Listed(fetches) {
      assert x !in fetches[n].page.items;
      FullPage(fetches, limit);
    }
  }

  /** A finished run over changing names returns every name present throughout exactly
      once, in order. */
  lemma FinishedRunIsComplete(fetches: seq<Fetch>, limit: nat, x: string)
    requires IsRun(fetches, limit) && limit > 0 && fetches != [] && !fetches[|fetches| - 1].page.more
    requires forall i | 0 <= i < |fetches| :: x in fetches[i].names
    ensures Sorted(Listed(fetches))
    ensures multiset(Listed(fetches))[x] == 1
  {
    hide IsRun, Before, Listed;
    RunInOrder(fetches, limit);
    RunMissesNothing(fetches, limit, x);
    OnceIfSorted(Listed(fetches), x);
  }

  lemma {:induction false} OnceIfSorted(s: seq<string>, x: string)
    requires Sorted(s) && x in s
    ensures multiset(s)[x] == 1
  {
    hide Before;
    var k :| 0 <= k < |s| && s[k] == x;
    assert s == s[..k] + [x] + s[k + 1..];
    forall i | 0 <= i < |s| && i != k ensures s[i] != x { Irreflexive(x); }
    assert x !in s[..k] && x !in s[k + 1..];
  }

  // Where a client listing a fixed set of names stands.
  ghost predicate Progress(names: set<string>, all: seq<string>, last: Option<string>, more: bool) {
    && Sorted(all) && Elements(all) <= names
    && last == (if all == [] then None else Some(all[|all| - 1]))
    && forall x | x in names && x !in all :: more && After(last, x)
  }

  lemma PageProgress(names: set<string>, all: seq<string>, last: Option<string>, limit: nat, p: Page)
    requires Progress(names, all, last, true) && IsPage(names, last, limit, p) && limit > 0
    ensures Progress(names, all + p.items, if p.items == [] then last else Some(p.items[|p.items| - 1]), p.more)
    ensures p.more ==> |names - Elements(all + p.items)| < |names - Elements(all)|
  {
    hide Before;
    if all != [] { Glue(all, p.items); } else { assert all + p.items == p.items; }
    if p.more {
      var x := p.items[0];
      assert x !in all by {
        if x in all { SeenIsBehind(all, p.items, 0); }
      }
      Shrinks(names, all, p.items, x);
    }
  }

  lemma SeenIsBehind(a: seq<string>, b: seq<string>, j: nat)
    requires Sorted(a + b) && j < |b|
    ensures b[j] !in a
  {
    hide Before;
    if b[j] in a {
      var i :| 0 <= i < |a| && a[i] == b[j];
      assert (a + b)[i] == a[i] && (a + b)[|a| + j] == b[j];
      Irreflexive(b[j]);
    }
  }

  lemma Shrinks(names: set<string>, a: seq<string>, b: seq<string>, x: string)
    requires x in b && x in names && x !in a
    ensures |names - Elements(a + b)| < |names - Elements(a)|
  {
    assert names - Elements(a + b) <= names - Elements(a) - {x};
    SubsetSize(names - Elements(a + b), names - Elements(a) - {x});
  }

  /** On a fixed set of names the client terminates with all of them, in order, whatever
      the positive limit. */
  method ListAll(tags: seq<string>, limit: nat) returns (all: seq<string>)
    requires limit > 0
    ensures Sorted(all) && Elements(all) == Elements(tags)
  {
    hide Before, PartitionPoint;
    var sorted := SortDedup(tags);
    ghost var names := Elements(sorted);
    all := [];
    var last: Option<string> := None;
    var more := true;
    while more
      invariant Progress(names, all, last, more)
      decreases |names - Elements(all)|, more
    {
      PageSortedIsPage(sorted, last, limit);
      var p := PageSorted(sorted, last, limit);
      PageProgress(names, all, last, limit, p);
      all, more := all + p.items, p.more;
      if p.items != [] { last := Some(p.items[|p.items| - 1]); }
    }
  }

  // The server's limit is the client's, capped; it is positive unless one of them is zero.
  function PageLimit(n: Option<nat>, maxPage: nat): (limit: nat)
    ensures limit <= maxPage && (n.Some? ==> limit <= n.value)
    ensures limit == 0 <==> maxPage == 0 || n == Some(0)
  {
    if n.Some? && n.value < maxPage then n.value else maxPage
  }

  /** With a limit of zero a listing is one empty page, whatever there is to list. */
  lemma ZeroLimitListsNothing(names: set<string>, last: Option<string>, p: Page)
    requires IsPage(names, last, 0, p)
    ensures p.items == [] && (p.more <==> exists x :: x in names && After(last, x))
  {
  }
}
