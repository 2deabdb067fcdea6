/** The abstract stack of 64-bit words (analyzer/stack.go). The top of the
    stack is the LAST element of the sequence, as with the Go slice that
    `append` grows. Underflow never fails: a missing value reads as 0. */
module StackEngine {
  import opened Base

  type Stack = seq<U64>

  const Empty: Stack := []

  function Top(s: Stack): nat
    requires |s| > 0
  {
    |s| - 1
  }

  function Push(s: Stack, v: U64): (r: Stack)
    ensures |r| == |s| + 1
    ensures r[|s|] == v
    ensures r[..|s|] == s
  {
    s + [v]
  }

  /** The popped value and the remaining stack; 0 and the unchanged empty
      stack on underflow. */
  function Pop(s: Stack): (r: (U64, Stack))
    ensures |s| == 0 ==> r == (0, s)
    ensures |s| > 0 ==> |r.1| == |s| - 1 && r.1 + [r.0] == s
  {
    if |s| == 0 then (0, s) else (s[|s| - 1], s[..|s| - 1])
  }

  /** The value n positions below the top (0 = the top), or 0 when the stack
      is not that deep. */
  function Peek(s: Stack, n: nat): (v: U64)
    ensures n < |s| ==> v == s[|s| - 1 - n]
    ensures n >= |s| ==> v == 0
  {
    if |s| - 1 - n < 0 then 0 else s[|s| - 1 - n]
  }

  /** DUPn: push a copy of the value n - 1 below the top. */
  function Dup(s: Stack, n: nat): (r: Stack)
    requires n >= 1
    ensures |r| == |s| + 1
    ensures r[..|s|] == s
    ensures r[|s|] == Peek(s, n - 1)
    ensures Pop(r) == (Peek(s, n - 1), s)
  {
    Push(s, Peek(s, n - 1))
  }

  /** SWAPn: exchange the top with the value n below it; nothing happens
      when the stack holds n values or fewer. */
  function Swap(s: Stack, n: nat): (r: Stack)
    ensures |r| == |s|
    ensures |s| <= n ==> r == s
    ensures |s| > n ==> r[|s| - 1] == s[|s| - 1 - n] && r[|s| - 1 - n] == s[|s| - 1]
    ensures forall i :: 0 <= i < |s| && i != |s| - 1 && i != |s| - 1 - n ==> r[i] == s[i]
  {
    var top := |s| - 1;
    var idx := top - n;
    if idx < 0 then s
    else s[top := s[idx]][idx := s[top]]
  }

  /** Pushing then popping returns the pushed value and the original stack. */
  lemma PushPop(s: Stack, v: U64)
    ensures Pop(Push(s, v)) == (v, s)
  {
    assert Push(s, v)[..|s|] == s;
  }

  /** Popping a non-empty stack and pushing the value back restores it. */
  lemma PopPush(s: Stack)
    requires |s| > 0
    ensures Push(Pop(s).1, Pop(s).0) == s
  {
  }

  /** Popping the empty stack yields the sentinel 0 and leaves it empty. */
  lemma PopEmpty()
    ensures Pop(Empty) == (0, Empty)
  {
  }

  /** Swapping twice with the same depth is the identity. */
  lemma {:induction false} SwapInvolution(s: Stack, n: nat)
    ensures Swap(Swap(s, n), n) == s
  {
    var r := Swap(Swap(s, n), n);
    assert |r| == |s|;
    forall i | 0 <= i < |s|
      ensures r[i] == s[i]
    {
    }
  }
}
