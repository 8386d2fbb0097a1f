/** The search for the lowest free address of a role. */
module Allocator {
  import opened Outcomes
  import opened Ipv4

  datatype AllocationError =
    | NoControlPlaneIPs
    | NoWorkerIPs
    | InvalidClaimAddress
    | WriteRefused

  /** The lowest value from `lo` to `hi` that is not in use. */
  function LeastFree(lo: nat, hi: Uint32, inUse: set<Uint32>): Option<Uint32>
    decreases if lo > hi then 0 else hi - lo + 1
  {
    if lo > hi then None
    else if lo in inUse then LeastFree(lo + 1, hi, inUse)
    else Some(lo)
  }

  /** The value at which a `uint32` counter that starts at `start` and runs while it is at
      most `end` finds a free value. A counter whose end is 2^32 - 1 restarts at 0. */
  function FirstFree(start: Uint32, end: Uint32, inUse: set<Uint32>): Option<Uint32> {
    var found := LeastFree(start, end, inUse);
    if found.Some? || end < MAX_UINT32 then found else LeastFree(0, MAX_UINT32, inUse)
  }

  function NextAvailable(controlPlane: bool, inUse: set<Uint32>, range: Range): Result<Addr, AllocationError> {
    match FirstFree(range.Start(controlPlane), range.End(controlPlane), inUse)
    case Some(v) => Ok(FromUint32(v))
    case None => Err(if controlPlane then NoControlPlaneIPs else NoWorkerIPs)
  }

  lemma {:induction false} LeastFreeIsLeast(lo: nat, hi: Uint32, inUse: set<Uint32>)
    ensures match LeastFree(lo, hi, inUse)
            case Some(v) => lo <= v <= hi && v !in inUse && forall x: Uint32 :: lo <= x < v ==> x in inUse
            case None => forall x: Uint32 :: lo <= x <= hi ==> x in inUse
    decreases if lo > hi then 0 else hi - lo + 1
  {
    if lo <= hi && lo in inUse {
      LeastFreeIsLeast(lo + 1, hi, inUse);
    }
  }

  /** For an end below 2^32 - 1 the search returns the minimum of the range minus the used
      values, and fails exactly when that difference is empty. */
  lemma NextAvailableIsLeast(controlPlane: bool, inUse: set<Uint32>, range: Range)
    requires range.End(controlPlane) < MAX_UINT32
    ensures match NextAvailable(controlPlane, inUse, range)
            case Ok(ip) =>
              var v := ToUint32(ip);
              && range.Start(controlPlane) <= v <= range.End(controlPlane)
              && v !in inUse
              && forall x: Uint32 :: range.Start(controlPlane) <= x < v ==> x in inUse
            case Err(e) =>
              && e == (if controlPlane then NoControlPlaneIPs else NoWorkerIPs)
              && forall x: Uint32 :: range.Start(controlPlane) <= x <= range.End(controlPlane) ==> x in inUse
  {
    var start, end := range.Start(controlPlane), range.End(controlPlane);
    LeastFreeIsLeast(start, end, inUse);
    match LeastFree(start, end, inUse)
    case Some(v) => ToFromUint32(v);
    case None =>
  }

  /** Whatever the range, a returned address is not in use. */
  lemma NextAvailableIsFree(controlPlane: bool, inUse: set<Uint32>, range: Range)
    ensures var r := NextAvailable(controlPlane, inUse, range);
            r.Ok? ==> ToUint32(r.value) !in inUse
  {
    var start, end := range.Start(controlPlane), range.End(controlPlane);
    LeastFreeIsLeast(start, end, inUse);
    LeastFreeIsLeast(0, MAX_UINT32, inUse);
    match FirstFree(start, end, inUse)
    case Some(v) => ToFromUint32(v);
    case None =>
  }

  /** A range that ends at 2^32 - 1 is never reported as exhausted while any value is free:
      the search leaves the range and hands out an address from outside it. */
  lemma WrappedSearchLeavesRange(inUse: set<Uint32>, range: Range)
    requires range.controlPlaneEnd == MAX_UINT32
    requires forall x: Uint32 :: range.controlPlaneStart <= x ==> x in inUse
    requires exists x: Uint32 :: x !in inUse
    ensures var r := NextAvailable(true, inUse, range);
            r.Ok? && ToUint32(r.value) < range.controlPlaneStart
  {
    LeastFreeIsLeast(range.controlPlaneStart, MAX_UINT32, inUse);
    LeastFreeIsLeast(0, MAX_UINT32, inUse);
    match FirstFree(range.controlPlaneStart, MAX_UINT32, inUse)
    case Some(v) => ToFromUint32(v);
    case None =>
  }

  /** The counting loop. Its counter wraps only when `end` is 2^32 - 1, and then it ends
      only because some value is free. */
  method SearchFree(start: Uint32, end: Uint32, inUse: set<Uint32>) returns (found: Option<Uint32>)
    requires end == MAX_UINT32 ==> exists x: Uint32 :: x !in inUse
    ensures found == FirstFree(start, end, inUse)
  {
    var v: Uint32 := start;
    ghost var wrapped := false;
    LeastFreeIsLeast(start, end, inUse);
    while v <= end
      invariant !wrapped ==> start <= v && LeastFree(start, end, inUse) == LeastFree(v, end, inUse)
      invariant wrapped ==> end == MAX_UINT32 && LeastFree(start, end, inUse).None?
      invariant wrapped ==> LeastFree(0, MAX_UINT32, inUse) == LeastFree(v, MAX_UINT32, inUse)
      decreases !wrapped, TWO_TO_32 - v
    {
      if v !in inUse {
        return Some(v);
      }
      if v == MAX_UINT32 {
        LeastFreeIsLeast(0, MAX_UINT32, inUse);
        wrapped := true;
      }
      v := Wrap(v + 1);
    }
    return None;
  }

  method NextAvailableIP(controlPlane: bool, inUse: set<Uint32>, range: Range)
    returns (r: Result<Addr, AllocationError>)
    requires range.workerEnd < MAX_UINT32
    requires range.controlPlaneEnd == MAX_UINT32 ==> exists x: Uint32 :: x !in inUse
    ensures r == NextAvailable(controlPlane, inUse, range)
  {
    if controlPlane {
      var found := SearchFree(range.controlPlaneStart, range.controlPlaneEnd, inUse);
      match found
      case Some(v) => return Ok(FromUint32(v));
      case None => return Err(NoControlPlaneIPs);
    }
    var found := SearchFree(range.workerStart, range.workerEnd, inUse);
    match found
    case Some(v) => return Ok(FromUint32(v));
    case None => return Err(NoWorkerIPs);
  }
}
