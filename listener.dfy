/**
 * The listener's port retry: every "address in use" error moves the port up
 * by exactly one and listens again, so the server ends up on the first free
 * port at or above the configured one. Which ports are taken is an abstract
 * finite set.
 */
module Listener {

  /** The largest port `listen` accepts; it throws a RangeError beyond. */
  const MaxPort := 65535

  /** A port `listen` accepts. */
  predicate ValidPort(p: int)
  {
    0 <= p <= MaxPort
  }

  /** The error codes the listener's `error` handler can see. */
  datatype ErrorCode = AddrInUse | OtherError(code: string)

  /** The taken ports at or above `p`; it shrinks as the candidate moves up. */
  function Above(inUse: set<int>, p: int): set<int>
  {
    set q | q in inUse && q >= p
  }

  /** Moving past a taken port leaves one taken port fewer above the candidate. */
  lemma AboveShrinks(p: int, inUse: set<int>)
    requires p in inUse
    ensures |Above(inUse, p + 1)| < |Above(inUse, p)|
  {
    assert p !in Above(inUse, p + 1);
    assert Above(inUse, p) == Above(inUse, p + 1) + {p};
  }

  /** The first port at or above `p` that is not taken. */
  function FirstFree(p: int, inUse: set<int>): (r: int)
    ensures p <= r && r !in inUse
    ensures forall q :: p <= q < r ==> q in inUse
    decreases |Above(inUse, p)|
  {
    if p !in inUse then p
    else
      AboveShrinks(p, inUse);
      FirstFree(p + 1, inUse)
  }

  /** The ports `from`, `from + 1`, ..., `to - 1`, in the order they are tried. */
  function Ports(from: int, to: int): seq<int>
    requires from <= to
  {
    seq(to - from, i => from + i)
  }

  /** The port the listener settles on is determined by the two properties of FirstFree. */
  lemma FirstFreeIsUnique(p: int, inUse: set<int>, r: int)
    requires p <= r && r !in inUse
    requires forall q :: p <= q < r ==> q in inUse
    ensures r == FirstFree(p, inUse)
  {
  }

  /** A free configured port is used as it is: no retry happens. */
  lemma FreePortIsKept(p: int, inUse: set<int>)
    requires p !in inUse
    ensures FirstFree(p, inUse) == p
  {
  }

  /** A taken port is always left: the server listens strictly above it. */
  lemma {:induction false} TakenPortIsSkipped(p: int, inUse: set<int>)
    requires p in inUse
    ensures FirstFree(p, inUse) == FirstFree(p + 1, inUse) > p
  {
  }

  /** No port is left to fall back to exactly when every port from `p` up to 65535 is taken. */
  lemma NoFreePortIff(p: int, inUse: set<int>)
    ensures FirstFree(p, inUse) > MaxPort <==> forall q :: p <= q <= MaxPort ==> q in inUse
  {
    var r := FirstFree(p, inUse);
    if forall q :: p <= q <= MaxPort ==> q in inUse {
      assert r > MaxPort;
    }
  }
}
