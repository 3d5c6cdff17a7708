/** Which entry of the instruction stack the library looks at for a message: the first from the started frame on. */
module StackScan {
  import opened Common

  /** Entry e is one of the message's: its first word is the message's address. */
  predicate Listed(pointers: seq<nat>, address: nat, e: nat) { e < |pointers| && pointers[e] == address }

  function FirstFrom(pointers: seq<nat>, from: nat, address: nat): (k: nat)
    requires from <= |pointers|
    ensures from <= k <= |pointers| && (k < |pointers| ==> pointers[k] == address)
    ensures forall i :: from <= i < k ==> pointers[i] != address
    decreases |pointers| - from
  {
    if from == |pointers| || pointers[from] == address then from else FirstFrom(pointers, from + 1, address)
  }

  /** `curstack`: the entry at which the started frame begins, if one was ever started. */
  predicate OnStack(pointers: seq<nat>, curstack: Option<nat>) { curstack.Some? ==> curstack.value <= |pointers| }

  /** The entry looked at; there may be none. */
  function Looked(pointers: seq<nat>, curstack: Option<nat>, address: nat): Option<nat>
    requires OnStack(pointers, curstack)
  {
    if curstack == None then None
    else
      var k := FirstFrom(pointers, curstack.value, address);
      if k < |pointers| then Some(k) else None
  }

  /** The message has no entry, or a single one that does not lie below the started frame. */
  predicate InSight(pointers: seq<nat>, curstack: Option<nat>, address: nat)
  {
    forall e :: 0 <= e < |pointers| && Listed(pointers, address, e) ==>
      && curstack.Some? && curstack.value <= e
      && forall f :: 0 <= f < |pointers| && Listed(pointers, address, f) ==> f == e
  }

  /** Just then every entry of the message is the one looked at. */
  lemma InSightIsLooked(pointers: seq<nat>, curstack: Option<nat>, address: nat)
    requires OnStack(pointers, curstack)
    ensures InSight(pointers, curstack, address) <==>
      forall e :: 0 <= e < |pointers| && Listed(pointers, address, e) ==> Looked(pointers, curstack, address) == Some(e)
  {
    if InSight(pointers, curstack, address) {
      forall e | 0 <= e < |pointers| && Listed(pointers, address, e)
        ensures Looked(pointers, curstack, address) == Some(e)
      {
        var k := FirstFrom(pointers, curstack.value, address);
        assert k <= e;
        assert Listed(pointers, address, k);
      }
    }
  }
}
