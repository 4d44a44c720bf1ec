/** Result types and the fixed-width bounds the other modules share. */
module Basics {

  datatype Option<+T> = None | Some(value: T)

  /** Rust's `u32`; the release profile leaves overflow checks off, so `+= 1` wraps. */
  const U32_MODULUS: nat := 0x1_0000_0000

  newtype u32 = x: int | 0 <= x < 0x1_0000_0000

  /** `x += 1` on a `u32` in a release build. */
  function WrappingSucc(x: u32): (r: u32)
    ensures r as int == (x as int + 1) % U32_MODULUS
  {
    if x == 0xFFFF_FFFF then 0 else x + 1
  }

  /** The first element that passes, by index. */
  function FirstWhere<T>(s: seq<T>, p: T -> bool): (r: Option<nat>)
    ensures r.Some? ==> r.value < |s| && p(s[r.value]) && forall i :: 0 <= i < r.value ==> !p(s[i])
    ensures r.None? ==> forall i :: 0 <= i < |s| ==> !p(s[i])
  {
    if s == [] then None
    else if p(s[0]) then Some(0)
    else
      match FirstWhere(s[1..], p)
      case None => assert forall i :: 0 < i < |s| ==> s[i] == s[1..][i - 1]; None
      case Some(i) => assert forall k :: 0 < k <= i ==> s[k] == s[1..][k - 1]; Some(i + 1)
  }

  /** The last value that `f` gives. */
  function LastSome<S, T>(xs: seq<S>, f: S -> Option<T>): Option<T> {
    if xs == [] then None
    else if f(xs[|xs| - 1]).Some? then f(xs[|xs| - 1])
    else LastSome(xs[..|xs| - 1], f)
  }

  /** `f` gives `y` at index `k`, and nothing after. */
  predicate LastAt<S, T(==)>(xs: seq<S>, k: nat, f: S -> Option<T>, y: T) {
    k < |xs| && f(xs[k]) == Some(y) && forall j :: k < j < |xs| ==> f(xs[j]) == None
  }

  lemma {:induction false} LastSomeIs<S, T>(xs: seq<S>, f: S -> Option<T>)
    ensures forall k: nat, y :: LastAt(xs, k, f, y) ==> LastSome(xs, f) == Some(y)
    ensures LastSome(xs, f).Some? ==> exists k: nat, y :: LastAt(xs, k, f, y)
  {
    if xs != [] {
      var front, last := xs[..|xs| - 1], |xs| - 1;
      LastSomeIs(front, f);
      if f(xs[last]).Some? {
        assert LastAt(xs, last, f, f(xs[last]).value);
        forall k: nat, y | LastAt(xs, k, f, y) ensures k == last {
        }
      } else {
        assert forall k: nat, y :: k < last ==> (LastAt(xs, k, f, y) <==> LastAt(front, k, f, y));
      }
    }
  }

  /** `out` is made of the wanted elements of `s`, in order; `at` says which they are. */
  ghost predicate Picked<S, T>(s: seq<S>, at: seq<nat>, out: seq<T>, stands: (S, nat, T) -> bool, wanted: S -> bool) {
    && |at| == |out|
    && (forall i, j :: 0 <= i < j < |at| ==> at[i] < at[j])
    && (forall i :: 0 <= i < |at| ==> at[i] < |s| && stands(s[at[i]], i, out[i]))
    && (forall k :: 0 <= k < |s| && wanted(s[k]) ==> k in at)
  }

  lemma PickedSnoc<S, T>(s: seq<S>, k: nat, at: seq<nat>, out: seq<T>, stands: (S, nat, T) -> bool, wanted: S -> bool, x: T)
    requires k < |s| && Picked(s[..k], at, out, stands, wanted)
    ensures !wanted(s[k]) ==> Picked(s[..k + 1], at, out, stands, wanted)
    ensures stands(s[k], |out|, x) ==> Picked(s[..k + 1], at + [k], out + [x], stands, wanted)
  {
    var shorter, longer := s[..k], s[..k + 1];
    assert longer[k] == s[k] && forall i :: 0 <= i < k ==> longer[i] == shorter[i];
    forall i | 0 <= i < |at| ensures at[i] < k && longer[at[i]] == shorter[at[i]] {
    }
    var more := at + [k];
    assert more[|at|] == k && forall i :: 0 <= i < |at| ==> more[i] == at[i];
    forall i | i in at ensures i in more {
    }
  }

  ghost predicate Rises(at: seq<nat>, n: nat) {
    (forall i, j :: 0 <= i < j < |at| ==> at[i] < at[j]) && (forall i :: 0 <= i < |at| ==> at[i] < n)
  }

  lemma {:induction false} RisesRoom(at: seq<nat>, n: nat, i: int)
    requires Rises(at, n) && 0 <= i < |at|
    ensures at[i] <= n - (|at| - i)
    decreases |at| - i
  {
    if i + 1 < |at| {
      RisesRoom(at, n, i + 1);
      assert at[i] < at[i + 1];
    }
  }

  /** When all are wanted, all are there. */
  lemma {:induction false} AllPicked(at: seq<nat>, n: nat)
    requires Rises(at, n) && forall k :: 0 <= k < n ==> k in at
    ensures |at| == n && forall i :: 0 <= i < n ==> at[i] == i
    decreases n
  {
    if n == 0 {
      if |at| > 0 { RisesRoom(at, n, 0); }
    } else {
      var m := LastPicked(at, n);
      forall k: nat | k < n - 1 ensures k in at[..m] {
        assert k in at && at[m] == n - 1;
        var j :| 0 <= j < |at| && at[j] == k;
        assert at[..m][j] == k;
      }
      AllPicked(at[..m], n - 1);
    }
  }

  lemma LastPicked(at: seq<nat>, n: nat) returns (i: nat)
    requires n > 0 && Rises(at, n) && n - 1 in at
    ensures i == |at| - 1 && at[i] == n - 1
  {
    i :| 0 <= i < |at| && at[i] == n - 1;
    RisesRoom(at, n, i);
  }

  /** Above every number in use. */
  ghost function Unused(ids: set<nat>): (c: nat)
    ensures forall id :: id in ids ==> id < c
  {
    if ids == {} then 0
    else
      var id :| id in ids;
      var c := Unused(ids - {id});
      assert forall other :: other in ids ==> other == id || other in ids - {id};
      if id < c then c else id + 1
  }
}
