/** Looking up a queue pair by the number that the verbs layer gave it. */
module QueuePairs {

  /** The first queue pair with that number. */
  function IndexOf(qpNums: seq<int>, qpn: int): (i: nat)
    requires qpn in qpNums
    ensures i < |qpNums| && qpNums[i] == qpn
    ensures forall k :: 0 <= k < i ==> qpNums[k] != qpn
  {
    if qpNums[0] == qpn then 0 else 1 + IndexOf(qpNums[1..], qpn)
  }

  /** The numbers that the verbs layer gives to queue pairs are distinct, so the right one is found. */
  lemma FindsTheQp(qpNums: seq<int>, i: nat)
    requires i < |qpNums| && (forall j, k :: 0 <= j < k < |qpNums| ==> qpNums[j] != qpNums[k])
    ensures IndexOf(qpNums, qpNums[i]) == i
  {
    var j := IndexOf(qpNums, qpNums[i]);
  }
}
