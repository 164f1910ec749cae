/** Voting power of a set of validators, and the arithmetic of two-thirds quorums.

A validator is named by its index in the active validator set; `powers[i]` is the
voting power of validator `i`, fixed for the whole height.
*/
module Powers {

  /** The power held by the members of `s` among the first `k` validators. */
  function PowerBelow(powers: seq<nat>, s: set<nat>, k: nat): nat
    requires k <= |powers|
  {
    if k == 0 then 0
    else PowerBelow(powers, s, k - 1) + if k - 1 in s then powers[k - 1] else 0
  }

  function Power(powers: seq<nat>, s: set<nat>): nat {
    PowerBelow(powers, s, |powers|)
  }

  function Everyone(powers: seq<nat>): set<nat> {
    set i: nat {:trigger powers[i]} | i < |powers|
  }

  function Total(powers: seq<nat>): nat {
    Power(powers, Everyone(powers))
  }

  /** The smallest power that is more than two thirds of the total. */
  function Quorum(powers: seq<nat>): nat {
    Total(powers) * 2 / 3 + 1
  }

  lemma {:induction false} PowerBelowMonotone(powers: seq<nat>, a: set<nat>, b: set<nat>, k: nat)
    requires k <= |powers|
    requires forall i :: i in a && i < k ==> i in b
    ensures PowerBelow(powers, a, k) <= PowerBelow(powers, b, k)
  {
    if k == 0 {
    } else {
      PowerBelowMonotone(powers, a, b, k - 1);
    }
  }

  lemma PowerMonotone(powers: seq<nat>, a: set<nat>, b: set<nat>)
    requires forall i :: i in a && i < |powers| ==> i in b
    ensures Power(powers, a) <= Power(powers, b)
  {
    PowerBelowMonotone(powers, a, b, |powers|);
  }

  /** Counting two sets separately counts their overlap twice. */
  lemma {:induction false} PowerBelowOverlap(powers: seq<nat>, a: set<nat>, b: set<nat>, k: nat)
    requires k <= |powers|
    ensures PowerBelow(powers, a, k) + PowerBelow(powers, b, k)
         == PowerBelow(powers, a + b, k) + PowerBelow(powers, a * b, k)
  {
    if k == 0 {
    } else {
      PowerBelowOverlap(powers, a, b, k - 1);
    }
  }

  /** Adding one validator adds exactly its power. */
  lemma {:induction false} PowerBelowAdd(powers: seq<nat>, s: set<nat>, i: nat, k: nat)
    requires k <= |powers| && i < |powers| && i !in s
    ensures PowerBelow(powers, s + {i}, k) == PowerBelow(powers, s, k) + if i < k then powers[i] else 0
  {
    if k == 0 {
    } else {
      PowerBelowAdd(powers, s, i, k - 1);
    }
  }

  lemma PowerAdd(powers: seq<nat>, s: set<nat>, i: nat)
    requires i < |powers| && i !in s
    ensures Power(powers, s + {i}) == Power(powers, s) + powers[i]
  {
    PowerBelowAdd(powers, s, i, |powers|);
  }

  lemma {:induction false} PowerNone(powers: seq<nat>, k: nat)
    requires k <= |powers|
    ensures PowerBelow(powers, {}, k) == 0
  {
    if k == 0 {
    } else {
      PowerNone(powers, k - 1);
    }
  }

  /** Two quorums share a validator outside any set holding less than a third of the power. */
  lemma QuorumsMeet(powers: seq<nat>, a: set<nat>, b: set<nat>, faulty: set<nat>) returns (i: nat)
    requires 3 * Power(powers, faulty) < Total(powers)
    requires Power(powers, a) >= Quorum(powers) && Power(powers, b) >= Quorum(powers)
    ensures i < |powers| && i in a && i in b && i !in faulty
  {
    if honest :| honest in a * b && honest < |powers| && honest !in faulty {
      i := honest;
    } else {
      PowerBelowOverlap(powers, a, b, |powers|);
      PowerMonotone(powers, a + b, Everyone(powers));
      PowerMonotone(powers, a * b, faulty);
      assert false;
    }
  }
}
