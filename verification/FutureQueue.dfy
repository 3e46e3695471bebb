// The contract assumed of cppext::future_queue: a FIFO of fixed capacity in which push_overwrite always
// makes the new element the back of the queue, replacing the previous back when the queue is full.
module FutureQueue {

  const CAPACITY: nat := 3

  function PushOverwrite<T>(q: seq<T>, x: T): (r: seq<T>)
    ensures |q| <= CAPACITY ==> |r| <= CAPACITY
    ensures |r| > 0 && r[|r| - 1] == x
    ensures forall i :: 0 <= i < |r| - 1 ==> i < |q| && r[i] == q[i]
  {
    if |q| < CAPACITY then q + [x] else q[..CAPACITY - 1] + [x]
  }
}
