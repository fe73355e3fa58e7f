/** Shared vocabulary for the docking model: the exceptions the Python code can raise,
    a Result type that carries them, Cartesian points, and the few pieces of Python
    and numpy sequence semantics (indexing, slicing, boolean masking) the core relies on. */
module Basics {

  /** A value that may be absent (Python's `None`, or a local that was never bound). */
  datatype Option<T> = None | Some(value: T)

  /** The exceptions raised by the modelled code. */
  datatype Error =
    | IndexError           // a Python/numpy index outside [-n, n)
    | ValueError           // np.linspace with a negative number of samples
    | UnboundLocalError    // a local read before any assignment (a NameError)
    | TypeError            // a call with a wrong number of positional arguments
    | NotImplementedError  // the abstract docking primitive of the base docker

  /** Either a value or the exception that ended the computation. It supports `:-`,
      which propagates an exception the way Python unwinds the stack. */
  datatype Result<T> = Ok(value: T) | Err(error: Error) {
    predicate IsFailure() { Err? }

    function PropagateFailure<U>(): Result<U>
      requires Err?
    {
      Err(error)
    }

    function Extract(): T
      requires Ok?
    {
      value
    }
  }

  /** A point in Cartesian space (one row of an (n, 3) numpy array), coordinates as reals. */
  datatype Point = Point(x: real, y: real, z: real)

  /** Component-wise sum, numpy's broadcast `row + coor`. */
  function Add(p: Point, q: Point): Point {
    Point(p.x + q.x, p.y + q.y, p.z + q.z)
  }

  /** Squared Euclidean distance, `((p - q) * (p - q)).sum()`. */
  function SqDist(p: Point, q: Point): (d: real)
    ensures d >= 0.0
  {
    var dx, dy, dz := p.x - q.x, p.y - q.y, p.z - q.z;
    assert dx * dx >= 0.0 && dy * dy >= 0.0 && dz * dz >= 0.0;
    dx * dx + dy * dy + dz * dz
  }

  /** Python indexing `s[i]`: negative indices count from the end, anything outside
      [-|s|, |s|) raises IndexError. */
  function PyIndex<T>(s: seq<T>, i: int): (r: Result<T>)
    ensures r.Ok? <==> -|s| <= i < |s|
    ensures 0 <= i < |s| ==> r == Ok(s[i])
    ensures -|s| <= i < 0 ==> r == Ok(s[|s| + i])
    ensures r.Err? ==> r.error == IndexError
  {
    if 0 <= i < |s| then Ok(s[i])
    else if -|s| <= i < 0 then Ok(s[|s| + i])
    else Err(IndexError)
  }

  /** Python slicing `s[:m]`. */
  function SliceTo<T>(s: seq<T>, m: int): (r: seq<T>)
    ensures r <= s
    ensures m >= 0 ==> |r| == if m < |s| then m else |s|
    ensures m < 0 ==> |r| == if |s| + m > 0 then |s| + m else 0
  {
    if m >= 0 then (if m < |s| then s[..m] else s)
    else if |s| + m > 0 then s[..|s| + m]
    else []
  }

  /** Boolean masking `s[mask]` where `mask[i] == p(s[i])`: the elements that pass `p`,
      in their original order. */
  function Keep<T>(s: seq<T>, p: T -> bool): (r: seq<T>)
    ensures |r| <= |s|
    ensures forall x :: x in r ==> x in s && p(x)
  {
    if s == [] then []
    else (if p(s[0]) then [s[0]] else []) + Keep(s[1..], p)
  }

  /** `r` can be obtained from `s` by deleting elements. */
  predicate IsSubsequence<T(==)>(r: seq<T>, s: seq<T>)
    decreases |s|
  {
    if r == [] then true
    else if s == [] then false
    else (r[0] == s[0] && IsSubsequence(r[1..], s[1..])) || IsSubsequence(r, s[1..])
  }

  lemma {:induction false} PrefixIsSubsequence<T>(r: seq<T>, s: seq<T>)
    requires r <= s
    ensures IsSubsequence(r, s)
    decreases |s|
  {
    if r != [] {
      PrefixIsSubsequence(r[1..], s[1..]);
    }
  }

  lemma {:induction false} SubsequenceTransitive<T>(a: seq<T>, b: seq<T>, c: seq<T>)
    requires IsSubsequence(a, b) && IsSubsequence(b, c)
    ensures IsSubsequence(a, c)
    decreases |c|
  {
    if a != [] {
      assert b != [] && c != [];
      if b[0] == c[0] && IsSubsequence(b[1..], c[1..]) {
        if a[0] == b[0] && IsSubsequence(a[1..], b[1..]) {
          SubsequenceTransitive(a[1..], b[1..], c[1..]);
        } else {
          SubsequenceTransitive(a, b[1..], c[1..]);
        }
      } else {
        SubsequenceTransitive(a, b, c[1..]);
      }
    }
  }

  /** Masking keeps the chosen elements in their original order. */
  lemma {:induction false} KeepIsSubsequence<T>(s: seq<T>, p: T -> bool)
    ensures IsSubsequence(Keep(s, p), s)
  {
    if s != [] {
      KeepIsSubsequence(s[1..], p);
      var r := Keep(s, p);
      if p(s[0]) {
        assert r[0] == s[0] && r[1..] == Keep(s[1..], p);
      } else {
        assert r == Keep(s[1..], p);
        if r != [] {
          assert IsSubsequence(r, s[1..]);
        }
      }
    }
  }

  /** Masking keeps every passing element with its full multiplicity and nothing else. */
  lemma {:induction false} KeepCount<T>(s: seq<T>, p: T -> bool, x: T)
    ensures multiset(Keep(s, p))[x] == if p(x) then multiset(s)[x] else 0
  {
    if s != [] {
      KeepCount(s[1..], p, x);
      assert s == [s[0]] + s[1..];
    }
  }

  lemma {:induction false} KeepAppend<T>(a: seq<T>, b: seq<T>, p: T -> bool)
    ensures Keep(a + b, p) == Keep(a, p) + Keep(b, p)
  {
    if a == [] {
      assert a + b == b;
    } else {
      assert (a + b)[0] == a[0] && (a + b)[1..] == a[1..] + b;
      KeepAppend(a[1..], b, p);
    }
  }

  /** Masking a singleton. */
  lemma KeepSingleton<T>(x: T, p: T -> bool)
    ensures Keep([x], p) == if p(x) then [x] else []
  {
    assert [x][1..] == [];
  }

  /** Masking with a mask that rejects everything gives the empty sequence. */
  lemma {:induction false} KeepNone<T>(s: seq<T>, p: T -> bool)
    requires forall x :: x in s ==> !p(x)
    ensures Keep(s, p) == []
  {
    if s != [] {
      assert s[0] in s;
      forall x | x in s[1..] ensures !p(x) {
        assert x in s;
      }
      KeepNone(s[1..], p);
    }
  }
}
