/** Small value types shared by every component of the model. */
module Common {
  /** A value that may be absent: Go's nil pointers and "comma ok" results. */
  datatype Option<+T> = None | Some(value: T)

  /** A value or an error: Go's pairs (value, error). */
  datatype Result<+T, +E> = Ok(value: T) | Err(error: E)

  /** Reading a Go map of counters: an absent key reads as zero. */
  function Load<K>(m: map<K, int>, key: K): int {
    if key in m then m[key] else 0
  }

  /** How many elements of s satisfy p. */
  function Count<T>(s: seq<T>, p: T -> bool): nat {
    if s == [] then 0 else Count(s[..|s| - 1], p) + (if p(s[|s| - 1]) then 1 else 0)
  }

  lemma CountOfAppend<T>(s: seq<T>, x: T, p: T -> bool)
    ensures Count(s + [x], p) == Count(s, p) + (if p(x) then 1 else 0)
  {
    assert (s + [x])[..|s|] == s;
  }

  lemma {:induction false} CountOfUpdate<T>(s: seq<T>, k: nat, x: T, p: T -> bool)
    requires k < |s|
    ensures Count(s[k := x], p) + (if p(s[k]) then 1 else 0) == Count(s, p) + (if p(x) then 1 else 0)
  {
    var t := s[k := x];
    if k == |s| - 1 {
      assert t[..|s| - 1] == s[..|s| - 1];
    } else {
      assert t[..|s| - 1] == s[..|s| - 1][k := x];
      CountOfUpdate(s[..|s| - 1], k, x, p);
    }
  }

  lemma {:induction false} CountPositive<T>(s: seq<T>, k: nat, p: T -> bool)
    requires k < |s| && p(s[k])
    ensures Count(s, p) > 0
  {
    if k < |s| - 1 {
      CountPositive(s[..|s| - 1], k, p);
    }
  }

  /** The sum of the weights of s's elements. */
  function Weigh<T>(s: seq<T>, w: T -> nat): nat {
    if s == [] then 0 else Weigh(s[..|s| - 1], w) + w(s[|s| - 1])
  }

  lemma WeighOfAppend<T>(s: seq<T>, x: T, w: T -> nat)
    ensures Weigh(s + [x], w) == Weigh(s, w) + w(x)
  {
    assert (s + [x])[..|s|] == s;
  }

  lemma {:induction false} WeighOfUpdate<T>(s: seq<T>, k: nat, x: T, w: T -> nat)
    requires k < |s|
    ensures Weigh(s[k := x], w) + w(s[k]) == Weigh(s, w) + w(x)
  {
    var t := s[k := x];
    if k == |s| - 1 {
      assert t[..|s| - 1] == s[..|s| - 1];
    } else {
      assert t[..|s| - 1] == s[..|s| - 1][k := x];
      WeighOfUpdate(s[..|s| - 1], k, x, w);
    }
  }

  lemma {:induction false} WeighAtLeast<T>(s: seq<T>, k: nat, w: T -> nat)
    requires k < |s|
    ensures Weigh(s, w) >= w(s[k])
  {
    if k < |s| - 1 {
      WeighAtLeast(s[..|s| - 1], k, w);
    }
  }

  lemma {:induction false} HeavyElement<T>(s: seq<T>, w: T -> nat) returns (k: nat)
    requires Weigh(s, w) > 0
    ensures k < |s| && w(s[k]) > 0
  {
    k := |s| - 1;
    if w(s[k]) == 0 {
      k := HeavyElement(s[..|s| - 1], w);
    }
  }
}
