/** Result types and small functions shared by the other modules. */
module Wrappers {

  datatype Option<+T> = None | Some(value: T)

  datatype Result<+T, +E> = Ok(value: T) | Err(error: E)

  /** A command is answered, or took effect without its answer arriving, or never arrived. */
  datatype Reply = Answered | Lost | Unreached

  function Min(a: nat, b: nat): nat {
    if a <= b then a else b
  }

  function Repeat<T>(x: T, n: nat): (r: seq<T>)
    ensures |r| == n && forall i :: 0 <= i < n ==> r[i] == x
  {
    seq(n, _ => x)
  }

  /** Where `p` holds, the next step keeps it exactly when it is not `bad`: so it always holds iff none is. */
  lemma AlwaysIff(n: nat, p: nat -> bool, bad: nat -> bool)
    requires p(0)
    requires forall i: nat :: i < n && p(i) ==> (p(i + 1) <==> !bad(i))
    ensures (forall i: nat :: i <= n ==> p(i)) <==> (forall i: nat :: i < n ==> !bad(i))
  {
    if forall i: nat :: i < n ==> !bad(i) {
      var k := 0;
      while k < n
        invariant k <= n && forall i: nat :: i <= k ==> p(i)
      {
        assert p(k) && !bad(k);
        k := k + 1;
      }
    } else {
      var i: nat :| i < n && bad(i);
      assert p(i) ==> !p(i + 1);
    }
  }
}
