/** Small pieces that the other modules share. */
module Common {

  datatype Option<+T> = None | Some(value: T) {
    function GetOr(default: T): T {
      match this
      case Some(v) => v
      case None => default
    }
  }

  datatype Result<+R, +E> = Success(value: R) | Failure(error: E)

  /** The first element that satisfies `p`, as `Array.prototype.find` and the early-return loops of the source yield it. */
  function Find<T>(xs: seq<T>, p: T -> bool): (r: Option<T>)
    ensures r.None? ==> forall i :: 0 <= i < |xs| ==> !p(xs[i])
    ensures r.Some? ==> p(r.value) && r.value in xs
  {
    if xs == [] then None
    else
      assert xs == [xs[0]] + xs[1..];
      if p(xs[0]) then Some(xs[0]) else Find(xs[1..], p)
  }

  /** `xs[i]` satisfies `p` and nothing before it does. */
  ghost predicate FirstAt<T>(xs: seq<T>, i: nat, p: T -> bool) {
    i < |xs| && p(xs[i]) && forall j :: 0 <= j < i ==> !p(xs[j])
  }

  lemma {:induction false} FindIsFirst<T>(xs: seq<T>, p: T -> bool) returns (i: nat)
    requires Find(xs, p).Some?
    ensures FirstAt(xs, i, p) && Find(xs, p) == Some(xs[i])
  {
    if p(xs[0]) {
      i := 0;
    } else {
      var k := FindIsFirst(xs[1..], p);
      i := k + 1;
      forall j | 0 <= j < i ensures !p(xs[j]) {
        if j > 0 { assert xs[j] == xs[1..][j - 1]; }
      }
    }
  }

  lemma SubsetSize<T>(a: set<T>, b: set<T>)
    requires a <= b
    ensures |a| <= |b|
  {
    assert b == a + (b - a);
  }

  lemma OneLess<T>(a: set<T>, x: T)
    ensures |a - {x}| == |a| - if x in a then 1 else 0
  {
    if x !in a { assert a - {x} == a; }
  }

  lemma OneMoreAtMost<T>(a: set<T>, b: set<T>, x: T)
    requires b <= a + {x}
    ensures |b| <= |a| + 1
  {
    SubsetSize(b, a + {x});
  }

  lemma ExchangedAtMost<T>(a: set<T>, b: set<T>, y: T, x: T)
    requires y in a && b <= (a - {y}) + {x}
    ensures |b| <= |a|
  {
    SubsetSize(b, (a - {y}) + {x});
  }

  lemma PrefixStep<T>(s: seq<T>, i: nat)
    requires i < |s|
    ensures s[..i + 1] == s[..i] + [s[i]]
  {
  }
}

/** Addresses are hexadecimal strings; the source folds their case with `toLowerCase` before most comparisons. */
module Addresses {
  import opened Common

  function LowerChar(c: char): char {
    if 'A' <= c <= 'Z' then (c as int + 32) as char else c
  }

  function Lower(s: string): (r: string)
    ensures |r| == |s|
    ensures Folded(s) ==> r == s
  {
    var r := seq(|s|, i requires 0 <= i < |s| => LowerChar(s[i]));
    assert Folded(s) ==> r == s;
    r
  }

  /** No capital letter occurs in `s`. */
  predicate Folded(s: string) {
    forall i :: 0 <= i < |s| ==> !('A' <= s[i] <= 'Z')
  }

  lemma LowerIsFolded(s: string)
    ensures Folded(Lower(s))
    ensures Lower(Lower(s)) == Lower(s)
  {
  }

  /** An optional address that JavaScript treats as true: present and not the empty string. */
  predicate Truthy(a: Option<string>) {
    a.Some? && a.value != ""
  }

  /** `a?.toLowerCase() === b` */
  predicate Names(a: Option<string>, lowered: string) {
    a.Some? && Lower(a.value) == lowered
  }

  const ZERO_ADDRESS := "0x0000000000000000000000000000000000000000"
}

/** The fields of a UserOperation that validation, the mempool and the bundle builder read. */
module UserOps {
  import opened Common

  datatype Authorization = Authorization(chainId: nat, address: string, nonce: nat)

  datatype UserOp = UserOp(
    sender: string,
    nonce: int,
    factory: Option<string>,
    paymaster: Option<string>,
    callGasLimit: nat,
    maxFeePerGas: nat,
    maxPriorityFeePerGas: nat,
    auth: Option<Authorization>)

  datatype StakeInfo = StakeInfo(addr: string, stake: int, unstakeDelaySec: int)
}
