/** Small shared vocabulary: optional values, calls that may throw, and
    order-preserving filtering of sequences. */
module Common {

  /** An optional value; stands for a JavaScript value that may be `null` or `undefined`. */
  datatype Option<+T> = None | Some(value: T)

  /** The outcome of an awaited call that either resolves with a value or throws. */
  datatype Try<+T> = Ok(value: T) | Thrown

  /** JavaScript truthiness of an optional string: `null`, `undefined`
      and `""` are falsy. */
  predicate Truthy(x: Option<string>) {
    x.Some? && x.value != ""
  }

  /** `suffix` is a suffix of `s` (`String.prototype.endsWith`). */
  predicate IsSuffix<T(==)>(suffix: seq<T>, s: seq<T>) {
    |suffix| <= |s| && s[|s| - |suffix|..] == suffix
  }

  /** The elements of `s` that satisfy `keep`, in their original order
      (`Array.prototype.filter`). */
  function Filter<T(!new)>(s: seq<T>, keep: T -> bool): (r: seq<T>)
    ensures |r| <= |s|
    ensures forall x :: x in r <==> x in s && keep(x)
  {
    if s == [] then []
    else if keep(s[0]) then [s[0]] + Filter(s[1..], keep)
    else Filter(s[1..], keep)
  }

  /** Filtering distributes over concatenation: this, together with the
      behaviour on a one-element sequence, says the relative order of the
      kept elements is the order they had in `a + b`. */
  lemma {:induction false} FilterConcat<T(!new)>(a: seq<T>, b: seq<T>, keep: T -> bool)
    ensures Filter(a + b, keep) == Filter(a, keep) + Filter(b, keep)
  {
    if a == [] {
      assert a + b == b;
    } else {
      assert (a + b)[1..] == a[1..] + b;
      FilterConcat(a[1..], b, keep);
    }
  }

  /** A filter that keeps every element returns the sequence unchanged. */
  lemma {:induction false} FilterKeepsAll<T(!new)>(s: seq<T>, keep: T -> bool)
    requires forall x :: x in s ==> keep(x)
    ensures Filter(s, keep) == s
  {
    if s != [] {
      assert forall x :: x in s[1..] ==> x in s;
      FilterKeepsAll(s[1..], keep);
    }
  }

  /** Filtering twice with the same test is filtering once. */
  lemma FilterIdempotent<T(!new)>(s: seq<T>, keep: T -> bool)
    ensures Filter(Filter(s, keep), keep) == Filter(s, keep)
  {
    FilterKeepsAll(Filter(s, keep), keep);
  }

  /** `key` strictly increases along `s`; with integer ids this also says
      that no two rows share a key. */
  ghost predicate StrictlyIncreasing<T>(s: seq<T>, key: T -> int) {
    forall i, j :: 0 <= i < j < |s| ==> key(s[i]) < key(s[j])
  }

  /** Removing elements keeps the remaining ones in increasing order. */
  lemma {:induction false} FilterPreservesIncreasing<T(!new)>(s: seq<T>, keep: T -> bool, key: T -> int)
    requires StrictlyIncreasing(s, key)
    ensures StrictlyIncreasing(Filter(s, keep), key)
  {
    if s != [] {
      var rest := s[1..];
      assert StrictlyIncreasing(rest, key) by {
        forall i, j | 0 <= i < j < |rest| ensures key(rest[i]) < key(rest[j]) {
          assert rest[i] == s[i + 1] && rest[j] == s[j + 1];
        }
      }
      FilterPreservesIncreasing(rest, keep, key);
      if keep(s[0]) {
        var f := Filter(rest, keep);
        forall x | x in f ensures key(s[0]) < key(x) {
          assert x in rest;
          var j :| 0 <= j < |rest| && rest[j] == x;
          assert s[j + 1] == x;
        }
        var r := [s[0]] + f;
        forall i, j | 0 <= i < j < |r| ensures key(r[i]) < key(r[j]) {
          assert r[j] == f[j - 1];
          assert f[j - 1] in f;
          if i > 0 {
            assert r[i] == f[i - 1];
          }
        }
      }
    }
  }
}
