/** What several models share: failure types, bytes and pipes, counting maps and sizes of sets. */
module Common {

  datatype Option<+T> = None | Some(value: T)

  datatype Result<+T, +E> = Ok(value: T) | Err(error: E)

  type Byte = n: nat | n < 256

  /** Names a pipe between the input pump and whoever reads it. */
  type PipeId = nat

  /** A counter map that has given one back: a count that reaches zero is not stored. */
  function Decremented(counts: map<string, int>, k: string): map<string, int>
    requires k in counts
  {
    if counts[k] == 1 then counts - {k} else counts[k := counts[k] - 1]
  }

  /** Takes one from a bucket and drops it at zero. */
  method Decrement(counts: map<string, int>, k: string) returns (r: map<string, int>)
    requires k in counts
    ensures r == Decremented(counts, k)
  {
    r := counts[k := counts[k] - 1];
    if r[k] == 0 {
      r := r - {k};
    }
  }

  lemma {:induction false} SubsetSize<T>(a: set<T>, b: set<T>)
    requires a <= b
    ensures |a| <= |b|
  {
    assert b == a + (b - a);
  }
}
