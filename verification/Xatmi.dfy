/** Vocabulary shared by the asynchronous adapter: results, reply buffers and the native
    reply queue reduced to the operations the adapter calls. */
module Xatmi {

  datatype Option<+T> = None | Some(value: T)

  /** The error codes the adapter itself branches on or raises; every other native code is `Other`. */
  datatype Error = TPEBLOCK | TPEINVAL | TPELIMIT | TPEOS | TPEPROTO | TPETIME | TPEOTYPE | Other(code: int)

  /** A reply's outcome: success, or a service or descriptor error. */
  datatype Outcome = Success | Failure(error: Error)

  /** An allocation. `NULL` is the null pointer; every allocation gets a new number. */
  type Ptr = nat
  const NULL: Ptr := 0

  type Waker = nat
  const U64_MAX: nat := 0xFFFF_FFFF_FFFF_FFFF

  /** What an allocation holds: its buffer type and subtype, and an uninterpreted payload. */
  datatype Content = Content(typeName: string, subtype: string, payload: int)

  const PROVISIONAL: Content := Content("CARRAY", "", 0)

  /** One message on the shared reply queue. A descriptor of zero or less means that the receive
      failed before a reply was matched to a call. `moves` says that receiving it reallocates the
      buffer lent to the native call. */
  datatype Message = Message(cd: int, outcome: Outcome, content: Content, len: nat, moves: bool)

  /** The native context as the adapter sees it.
      `outstanding` maps each descriptor in use to the generation of its call, `heap` holds the live
      allocations, `allocs` counts the allocations that will still succeed, `next` is the address of
      the next allocation. */
  datatype Native = Native(
    queue: seq<Message>,
    outstanding: map<int, nat>,
    nextGen: nat,
    heap: map<Ptr, Content>,
    allocs: nat,
    next: Ptr
  )

  /** Addresses are allocated upwards from 1. */
  ghost predicate Sound(n: Native) {
    && NULL < n.next
    && forall p :: p in n.heap ==> NULL < p < n.next
  }

  /** Native `tpgetrply` into the allocation `p`: takes the head of the queue. A directed reply frees
      its descriptor and fills the buffer, which may move. */
  function Receive(n: Native, p: Ptr): (r: (Native, Ptr))
    requires n.queue != []
  {
    var m := n.queue[0];
    var rest := n.(queue := n.queue[1..]);
    if m.cd <= 0 then (rest, p)
    else
      var q := if m.moves then n.next else p;
      (rest.(outstanding := n.outstanding - {m.cd},
             heap := (n.heap - {p})[q := m.content],
             next := if m.moves then n.next + 1 else n.next), q)
  }

  function Without(queue: seq<Message>, cd: int): (r: seq<Message>)
    ensures forall m :: m in r <==> m in queue && m.cd != cd
  {
    if queue == [] then []
    else if queue[0].cd == cd then Without(queue[1..], cd)
    else [queue[0]] + Without(queue[1..], cd)
  }

  /** Native `tpcancel`: the call's generation ends and none of its replies is ever received. */
  function CancelNative(n: Native, cd: int): Native {
    if cd in n.outstanding
    then n.(outstanding := n.outstanding - {cd}, queue := Without(n.queue, cd))
    else n
  }

  function FreeNative(n: Native, p: Ptr): Native {
    n.(heap := n.heap - {p})
  }
}
