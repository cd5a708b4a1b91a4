// Vocabulary shared by every component of the registry model.

module Core {
  type Repo = string
  type Digest = string
  type Tag = string

  newtype byte = x: int | 0 <= x < 0x100

  datatype Option<+T> = None | Some(value: T)

  datatype Result<+T, +E> = Ok(value: T) | Err(error: E)

  // A blob's address: the repository that holds it and its content digest.
  datatype Key = Key(repo: Repo, digest: Digest)

  function Elements<T>(s: seq<T>): set<T> {
    set x | x in s
  }

  lemma ElementsSnoc<T>(s: seq<T>, x: T)
    ensures Elements(s + [x]) == Elements(s) + {x}
  {
  }

  lemma ElementsEmpty<T>()
    ensures Elements<T>([]) == {}
  {
  }

  lemma SubsetSize<T>(a: set<T>, b: set<T>)
    requires a <= b
    ensures |a| <= |b|
  {
    assert b == a + (b - a);
  }

  predicate DistinctKeys(order: seq<Key>) {
    forall i, j | 0 <= i < j < |order| :: order[i] != order[j]
  }

  // A manifest and everything it refers to.
  function Linked(repo: Repo, d: Digest, references: seq<Digest>): set<Key> {
    {Key(repo, d)} + set r | r in references :: Key(repo, r)
  }
}
