/**
  The first-in first-out capacity pool shared by all agent runtimes
  (`src/mewcode/agent/capacity.py`).

  No critical section of the pool suspends, so each is one atomic step. A run of
  the pool is any interleaving of those steps, including the cancellation of a
  caller before, at or after the moment its lease is granted.
*/
module CapacityPool {
  import opened Wrappers

  datatype Owner = Owner(kind: string, id: string)

  /** Where one granted or queued call of `acquire` or `try_acquire` is. */
  datatype Phase =
    | Queued                          // its future is pending
    | Granted(token: nat)             // its future holds a lease, the call has not resumed
    | Held(token: nat)                // the call returned its lease
    | Unwinding(token: nat)           // cancelled after the grant, lease not closed yet
    | Cancelled(granted: Option<nat>) // left with the cancellation
    | Refused                         // its future holds the closed-pool error

  datatype Call = Call(owner: Owner, phase: Phase) {
    function Token(): Option<nat> {
      match phase
      case Granted(t) => Some(t)
      case Held(t) => Some(t)
      case Unwinding(t) => Some(t)
      case Cancelled(t) => t
      case _ => None
    }
  }

  /** A lease names its owner; its token is its place among all leases. */
  datatype Lease = Lease(owner: Owner, call: nat, closed: bool)

  datatype Error = InvalidOwner | PoolClosed | OwnerActive

  /** `calls` is in arrival order, `waiters` holds places in `calls`. */
  datatype Pool = Pool(
    limit: nat,
    active: map<Owner, nat>,
    waiters: seq<nat>,
    closed: bool,
    calls: seq<Call>,
    leases: seq<Lease>)

  // --- The critical sections -------------------------------------------------

  function Init(limit: nat): Pool {
    Pool(limit, map[], [], false, [], [])
  }

  function WaiterOwners(p: Pool): seq<Owner>
    requires WaitersInRange(p)
  {
    seq(|p.waiters|, i requires 0 <= i < |p.waiters| => p.calls[p.waiters[i]].owner)
  }

  predicate WaitersInRange(p: Pool) {
    forall i :: 0 <= i < |p.waiters| ==> p.waiters[i] < |p.calls|
  }

  /** `_ensure_open`, then `_ensure_unique`. */
  function Admission(p: Pool, owner: Owner): (e: Option<Error>)
    requires WaitersInRange(p)
  {
    if owner.kind == "" || owner.id == "" then Some(InvalidOwner)
    else if p.closed then Some(PoolClosed)
    else if owner in p.active || owner in WaiterOwners(p) then Some(OwnerActive)
    else None
  }

  /** `_grant` for the call at place `c`, which then stands in phase `phase`. */
  function GrantTo(p: Pool, c: nat, phase: Phase): Pool
    requires c < |p.calls|
  {
    var owner := p.calls[c].owner;
    p.(active := p.active[owner := |p.leases|],
       calls := p.calls[c := Call(owner, phase)],
       leases := p.leases + [Lease(owner, c, false)])
  }

  function GrantNew(p: Pool, owner: Owner): Pool {
    GrantTo(p.(calls := p.calls + [Call(owner, Refused)]), |p.calls|, Held(|p.leases|))
  }

  function TryAcquire(p: Pool, owner: Owner): (r: (Pool, Result<Option<nat>, Error>))
    requires WaitersInRange(p)
  {
    match Admission(p, owner)
    case Some(e) => (p, Err(e))
    case None =>
      if |p.active| >= p.limit || p.waiters != [] then (p, Ok(None))
      else (GrantNew(p, owner), Ok(Some(|p.leases|)))
  }

  function Acquire(p: Pool, owner: Owner): (r: (Pool, Result<Option<nat>, Error>))
    requires WaitersInRange(p)
  {
    match Admission(p, owner)
    case Some(e) => (p, Err(e))
    case None =>
      if |p.active| < p.limit && p.waiters == [] then (GrantNew(p, owner), Ok(Some(|p.leases|)))
      else
        (p.(calls := p.calls + [Call(owner, Queued)], waiters := p.waiters + [|p.calls|]), Ok(None))
  }

  /** `_grant_waiters`. */
  function GrantWaiters(p: Pool): Pool
    requires WaitersInRange(p)
    decreases |p.waiters|
  {
    if p.waiters == [] || |p.active| >= p.limit then p
    else
      var c, rest := p.waiters[0], p.(waiters := p.waiters[1..]);
      if p.calls[c].phase != Queued then GrantWaiters(rest)
      else GrantWaiters(GrantTo(rest, c, Granted(|p.leases|)))
  }

  /** `_release`. */
  function Release(p: Pool, owner: Owner, token: nat): Pool
    requires WaitersInRange(p)
  {
    if owner !in p.active || p.active[owner] != token then p
    else
      var freed := p.(active := p.active - {owner});
      if p.closed then freed else GrantWaiters(freed)
  }

  /** `AgentCapacityLease.close`. */
  function CloseLease(p: Pool, token: nat): Pool
    requires WaitersInRange(p)
  {
    if token >= |p.leases| || p.leases[token].closed then p
    else
      var lease := p.leases[token];
      Release(p.(leases := p.leases[token := lease.(closed := true)]), lease.owner, token)
  }

  /** The waiting caller at place `c` takes the lease its future holds. */
  function Resume(p: Pool, c: nat): Pool {
    if c < |p.calls| && p.calls[c].phase.Granted? then
      p.(calls := p.calls[c := p.calls[c].(phase := Held(p.calls[c].phase.token))])
    else p
  }

  function Without(s: seq<nat>, x: nat): seq<nat> {
    if s == [] then [] else if s[0] == x then s[1..] else [s[0]] + Without(s[1..], x)
  }

  /** The cancellation handler of `acquire`, up to the end of its critical section. */
  function CancelCall(p: Pool, c: nat): Pool {
    if c >= |p.calls| then p
    else if c in p.waiters then
      p.(waiters := Without(p.waiters, c), calls := p.calls[c := p.calls[c].(phase := Cancelled(None))])
    else
      match p.calls[c].phase
      case Granted(t) => p.(calls := p.calls[c := p.calls[c].(phase := Unwinding(t))])
      case Refused => p.(calls := p.calls[c := p.calls[c].(phase := Cancelled(None))])
      case _ => p
  }

  /** The rest of that handler: the lease that arrived too late is closed. */
  function Unwind(p: Pool, c: nat): Pool
    requires WaitersInRange(p)
  {
    if c < |p.calls| && p.calls[c].phase.Unwinding? then
      var t := p.calls[c].phase.token;
      CloseLease(p.(calls := p.calls[c := p.calls[c].(phase := Cancelled(Some(t)))]), t)
    else p
  }

  function RefuseAll(calls: seq<Call>, waiters: seq<nat>): seq<Call>
    ensures |RefuseAll(calls, waiters)| == |calls|
  {
    seq(|calls|, i requires 0 <= i < |calls| =>
      if i in waiters && calls[i].phase.Queued? then calls[i].(phase := Refused) else calls[i])
  }

  /** `AgentCapacityPool.close`. */
  function ClosePool(p: Pool): Pool {
    if p.closed then p
    else p.(closed := true, waiters := [], calls := RefuseAll(p.calls, p.waiters))
  }

  // --- Runs -------------------------------------------------------------------

  datatype Event =
    | TryAcquireEvent(owner: Owner)
    | AcquireEvent(owner: Owner)
    | ResumeEvent(call: nat)
    | CancelEvent(call: nat)
    | UnwindEvent(call: nat)
    | CloseLeaseEvent(token: nat)
    | ClosePoolEvent

  function Step(p: Pool, e: Event): Pool
    requires WaitersInRange(p)
  {
    match e
    case TryAcquireEvent(o) => TryAcquire(p, o).0
    case AcquireEvent(o) => Acquire(p, o).0
    case ResumeEvent(c) => Resume(p, c)
    case CancelEvent(c) => CancelCall(p, c)
    case UnwindEvent(c) => Unwind(p, c)
    case CloseLeaseEvent(t) => CloseLease(p, t)
    case ClosePoolEvent => ClosePool(p)
  }

  // --- The invariant -----------------------------------------------------------

  /** The active table holds exactly the open leases, one per owner, within the limit. */
  ghost predicate SlotsMatch(limit: nat, active: map<Owner, nat>, leases: seq<Lease>) {
    && |active| <= limit
    && (forall o :: o in active ==>
          active[o] < |leases| && leases[active[o]].owner == o && !leases[active[o]].closed)
    && (forall t :: 0 <= t < |leases| && !leases[t].closed ==>
          leases[t].owner in active && active[leases[t].owner] == t)
  }

  /** Exactly the queued calls wait, in arrival order, under owners that appear nowhere else. */
  ghost predicate QueueMatches(active: map<Owner, nat>, waiters: seq<nat>, calls: seq<Call>) {
    && (forall i :: 0 <= i < |waiters| ==> waiters[i] < |calls|)
    && (forall i, j :: 0 <= i < j < |waiters| ==> waiters[i] < waiters[j])
    && (forall c :: 0 <= c < |calls| ==> (calls[c].phase.Queued? <==> c in waiters))
    && (forall i :: 0 <= i < |waiters| ==> calls[waiters[i]].owner !in active)
    && (forall i, j :: 0 <= i < j < |waiters| ==> calls[waiters[i]].owner != calls[waiters[j]].owner)
  }

  /** Every lease belongs to the one call it was granted to. */
  ghost predicate LeasesLinked(calls: seq<Call>, leases: seq<Lease>) {
    && (forall t :: 0 <= t < |leases| ==>
          && leases[t].call < |calls|
          && calls[leases[t].call].Token() == Some(t)
          && calls[leases[t].call].owner == leases[t].owner)
    && (forall c :: 0 <= c < |calls| && calls[c].Token().Some? ==>
          calls[c].Token().value < |leases| && leases[calls[c].Token().value].call == c)
  }

  /** A cancelled call that was granted a lease has closed it. */
  ghost predicate CancelledKeepNone(calls: seq<Call>, leases: seq<Lease>) {
    forall t ::
      (0 <= t < |leases| && leases[t].call < |calls| && calls[leases[t].call].phase.Cancelled?)
      ==> leases[t].closed
  }

  /** Nobody holds a grant who arrived after a caller that still waits; grants follow arrival. */
  ghost predicate FirstInFirstOut(calls: seq<Call>) {
    && (forall i, j :: 0 <= i < j < |calls| && calls[i].phase.Queued? ==> calls[j].Token().None?)
    && (forall i, j :: 0 <= i < j < |calls| && calls[i].Token().Some? && calls[j].Token().Some? ==>
          calls[i].Token().value < calls[j].Token().value)
  }

  ghost predicate Busy(p: Pool) {
    if p.closed then p.waiters == [] else p.waiters != [] ==> |p.active| == p.limit
  }

  ghost predicate Inv(p: Pool) {
    && SlotsMatch(p.limit, p.active, p.leases)
    && QueueMatches(p.active, p.waiters, p.calls)
    && LeasesLinked(p.calls, p.leases)
    && CancelledKeepNone(p.calls, p.leases)
    && FirstInFirstOut(p.calls)
  }

  // Granting: `p` is the pool with the call already taken off the queue.

  lemma GrantToSlots(p: Pool, c: nat, phase: Phase)
    requires SlotsMatch(p.limit, p.active, p.leases)
    requires c < |p.calls| && p.calls[c].owner !in p.active && |p.active| < p.limit
    ensures
      var q := GrantTo(p, c, phase);
      SlotsMatch(q.limit, q.active, q.leases) && |q.active| == |p.active| + 1
  {
    OneMore(p.active, p.calls[c].owner, |p.leases|);
    SlotAdded(p.limit, p.active, p.leases, p.calls[c].owner, c);
  }

  lemma OneMore(active: map<Owner, nat>, owner: Owner, token: nat)
    requires owner !in active
    ensures |active[owner := token]| == |active| + 1
  {
    assert active[owner := token].Keys == active.Keys + {owner};
  }

  lemma SlotAdded(limit: nat, active: map<Owner, nat>, leases: seq<Lease>, owner: Owner, c: nat)
    requires SlotsMatch(limit, active, leases) && owner !in active && |active[owner := |leases|]| <= limit
    ensures SlotsMatch(limit, active[owner := |leases|], leases + [Lease(owner, c, false)])
  {
  }

  lemma GrantToLeases(p: Pool, c: nat, phase: Phase)
    requires LeasesLinked(p.calls, p.leases) && CancelledKeepNone(p.calls, p.leases)
    requires c < |p.calls| && p.calls[c].Token().None?
    requires phase == Granted(|p.leases|) || phase == Held(|p.leases|)
    ensures
      var q := GrantTo(p, c, phase);
      LeasesLinked(q.calls, q.leases) && CancelledKeepNone(q.calls, q.leases)
  {
  }

  lemma GrantToOrder(p: Pool, c: nat, phase: Phase)
    requires FirstInFirstOut(p.calls) && LeasesLinked(p.calls, p.leases)
    requires c < |p.calls| && p.calls[c].Token().None?
    requires phase == Granted(|p.leases|) || phase == Held(|p.leases|)
    requires forall i :: 0 <= i < c ==> !p.calls[i].phase.Queued?
    requires forall j :: c < j < |p.calls| ==> p.calls[j].Token().None?
    ensures FirstInFirstOut(GrantTo(p, c, phase).calls)
  {
  }

  lemma GrantHeadQueue(p: Pool)
    requires QueueMatches(p.active, p.waiters, p.calls) && p.waiters != []
    ensures
      var q := GrantTo(p.(waiters := p.waiters[1..]), p.waiters[0], Granted(|p.leases|));
      QueueMatches(q.active, q.waiters, q.calls)
  {
    var c, rest := p.waiters[0], p.waiters[1..];
    var owner := p.calls[c].owner;
    var calls := p.calls[c := Call(owner, Granted(|p.leases|))];
    HeadLeaves(p.waiters, p.calls, calls);
    assert forall i :: 0 <= i < |rest| ==> rest[i] == p.waiters[i + 1] && calls[rest[i]] == p.calls[p.waiters[i + 1]];
  }

  lemma HeadLeaves(waiters: seq<nat>, calls: seq<Call>, after: seq<Call>)
    requires waiters != [] && waiters[0] < |calls|
    requires forall i, j :: 0 <= i < j < |waiters| ==> waiters[i] < waiters[j]
    requires forall d :: 0 <= d < |calls| ==> (calls[d].phase.Queued? <==> d in waiters)
    requires |after| == |calls| && !after[waiters[0]].phase.Queued?
    requires forall d :: 0 <= d < |calls| && d != waiters[0] ==> after[d] == calls[d]
    ensures forall d :: 0 <= d < |calls| ==> (after[d].phase.Queued? <==> d in waiters[1..])
  {
    forall d | 0 <= d < |calls| ensures after[d].phase.Queued? <==> d in waiters[1..] {
      if d in waiters && d != waiters[0] {
        var i :| 0 <= i < |waiters| && waiters[i] == d;
        assert waiters[1..][i - 1] == d;
      }
    }
  }

  /** The longest waiting call is the first queued one, and no later call holds a token. */
  lemma HeadArrivedFirst(p: Pool)
    requires QueueMatches(p.active, p.waiters, p.calls) && FirstInFirstOut(p.calls) && p.waiters != []
    ensures
      var c := p.waiters[0];
      && p.calls[c].phase.Queued? && p.calls[c].owner !in p.active
      && (forall i :: 0 <= i < c ==> !p.calls[i].phase.Queued?)
      && (forall j :: c < j < |p.calls| ==> p.calls[j].Token().None?)
  {
    var c := p.waiters[0];
    assert p.calls[c].phase.Queued? <==> c in p.waiters;
    forall i | 0 <= i < c ensures !p.calls[i].phase.Queued? {
      assert p.calls[i].phase.Queued? <==> i in p.waiters;
    }
  }

  lemma GrantHeadKeeps(p: Pool)
    requires Inv(p) && p.waiters != [] && |p.active| < p.limit
    ensures p.calls[p.waiters[0]].phase.Queued?
    ensures Inv(GrantTo(p.(waiters := p.waiters[1..]), p.waiters[0], Granted(|p.leases|)))
  {
    HeadArrivedFirst(p);
    GrantHeadQueue(p);
    hide SlotsMatch, QueueMatches, LeasesLinked, CancelledKeepNone, FirstInFirstOut;
    var c, rest := p.waiters[0], p.(waiters := p.waiters[1..]);
    GrantToSlots(rest, c, Granted(|p.leases|));
    GrantToLeases(rest, c, Granted(|p.leases|));
    GrantToOrder(rest, c, Granted(|p.leases|));
  }

  lemma {:induction false} GrantWaitersKeeps(p: Pool)
    requires Inv(p) && !p.closed
    ensures Inv(GrantWaiters(p)) && Busy(GrantWaiters(p))
    decreases |p.waiters|
  {
    if p.waiters != [] && |p.active| < p.limit {
      GrantHeadKeeps(p);
      hide SlotsMatch, LeasesLinked, CancelledKeepNone, FirstInFirstOut;
      GrantWaitersKeeps(GrantTo(p.(waiters := p.waiters[1..]), p.waiters[0], Granted(|p.leases|)));
    }
  }

  // Releasing, cancelling and closing.

  /** A release with a token that is not the owner's current one changes nothing. */
  lemma StaleReleaseIsIgnored(p: Pool, token: nat, owner: Owner)
    requires Inv(p) && token < |p.leases| && p.leases[token].closed
    ensures Release(p, owner, token) == p && CloseLease(p, token) == p
  {
  }

  /** The pool between `del self._active[owner]` and the grants that follow. */
  function Freed(p: Pool, token: nat): Pool
    requires token < |p.leases|
  {
    p.(active := p.active - {p.leases[token].owner},
       leases := p.leases[token := p.leases[token].(closed := true)])
  }

  lemma FreedSlots(p: Pool, token: nat)
    requires SlotsMatch(p.limit, p.active, p.leases) && token < |p.leases| && !p.leases[token].closed
    ensures SlotsMatch(p.limit, Freed(p, token).active, Freed(p, token).leases)
  {
    assert Freed(p, token).active.Keys == p.active.Keys - {p.leases[token].owner};
  }

  lemma FreedLinks(p: Pool, token: nat)
    requires LeasesLinked(p.calls, p.leases) && token < |p.leases|
    ensures LeasesLinked(p.calls, Freed(p, token).leases)
  {
    var leases := Freed(p, token).leases;
    assert forall t :: 0 <= t < |leases| ==>
      leases[t].call == p.leases[t].call && leases[t].owner == p.leases[t].owner;
  }

  lemma FreedKeeps(p: Pool, token: nat)
    requires SlotsMatch(p.limit, p.active, p.leases) && QueueMatches(p.active, p.waiters, p.calls)
    requires LeasesLinked(p.calls, p.leases) && FirstInFirstOut(p.calls)
    requires token < |p.leases| && !p.leases[token].closed
    requires CancelledKeepNone(p.calls, Freed(p, token).leases)
    ensures Inv(Freed(p, token))
  {
    FreedSlots(p, token);
    FreedLinks(p, token);
    hide SlotsMatch, LeasesLinked, CancelledKeepNone, FirstInFirstOut;
  }

  /** Granting only appends leases. */
  lemma {:induction false} GrantWaitersExtends(p: Pool)
    requires WaitersInRange(p)
    ensures p.leases <= GrantWaiters(p).leases
    decreases |p.waiters|
  {
    if p.waiters != [] && |p.active| < p.limit {
      var c, rest := p.waiters[0], p.(waiters := p.waiters[1..]);
      GrantWaitersExtends(if p.calls[c].phase != Queued then rest else GrantTo(rest, c, Granted(|p.leases|)));
    }
  }

  /** Closing an open lease is freeing its slot and serving the queue. */
  lemma CloseLeaseIsFree(p: Pool, token: nat)
    requires SlotsMatch(p.limit, p.active, p.leases) && WaitersInRange(p)
    requires token < |p.leases| && !p.leases[token].closed
    ensures CloseLease(p, token) == if p.closed then Freed(p, token) else GrantWaiters(Freed(p, token))
  {
    var marked := p.(leases := Freed(p, token).leases);
    assert marked.(active := Freed(p, token).active) == Freed(p, token);
  }

  /** Closing the open lease `token` frees its slot and hands it to the longest waiting caller. */
  lemma CloseOpenLease(p: Pool, token: nat)
    requires SlotsMatch(p.limit, p.active, p.leases) && QueueMatches(p.active, p.waiters, p.calls)
    requires LeasesLinked(p.calls, p.leases) && FirstInFirstOut(p.calls) && (p.closed ==> p.waiters == [])
    requires token < |p.leases| && !p.leases[token].closed
    requires CancelledKeepNone(p.calls, Freed(p, token).leases)
    ensures Inv(CloseLease(p, token)) && Busy(CloseLease(p, token))
    ensures token < |CloseLease(p, token).leases| && CloseLease(p, token).leases[token].closed
  {
    CloseLeaseIsFree(p, token);
    FreedKeeps(p, token);
    hide SlotsMatch, LeasesLinked, CancelledKeepNone, FirstInFirstOut;
    if !p.closed {
      GrantWaitersKeeps(Freed(p, token));
      GrantWaitersExtends(Freed(p, token));
    }
  }

  lemma CloseLeaseKeeps(p: Pool, token: nat)
    requires Inv(p) && Busy(p)
    ensures Inv(CloseLease(p, token)) && Busy(CloseLease(p, token))
    ensures token < |p.leases| ==>
      token < |CloseLease(p, token).leases| && CloseLease(p, token).leases[token].closed
  {
    if token < |p.leases| && !p.leases[token].closed {
      assert CancelledKeepNone(p.calls, Freed(p, token).leases);
      hide SlotsMatch, LeasesLinked, CancelledKeepNone, FirstInFirstOut;
      CloseOpenLease(p, token);
    }
  }

  // A call that moves on without changing its owner or its token.

  ghost predicate Advances(before: seq<Call>, after: seq<Call>) {
    && |after| == |before|
    && forall c :: 0 <= c < |after| ==>
        && after[c].owner == before[c].owner
        && after[c].Token() == before[c].Token()
        && (after[c].phase.Queued? ==> before[c].phase.Queued?)
  }

  lemma AdvanceKeepsLinks(before: seq<Call>, after: seq<Call>, leases: seq<Lease>)
    requires LeasesLinked(before, leases) && Advances(before, after)
    ensures LeasesLinked(after, leases)
  {
  }

  lemma AdvanceKeepsOrder(before: seq<Call>, after: seq<Call>)
    requires FirstInFirstOut(before) && Advances(before, after)
    ensures FirstInFirstOut(after)
  {
  }

  lemma AdvanceKeepsQueue(p: Pool, c: nat, call: Call)
    requires QueueMatches(p.active, p.waiters, p.calls)
    requires c < |p.calls| && !p.calls[c].phase.Queued? && !call.phase.Queued?
    ensures QueueMatches(p.active, p.waiters, p.calls[c := call])
  {
    var calls := p.calls[c := call];
    assert c !in p.waiters;
    forall i | 0 <= i < |p.waiters| ensures calls[p.waiters[i]] == p.calls[p.waiters[i]] {
      assert p.waiters[i] in p.waiters;
    }
  }

  lemma ResumeKeeps(p: Pool, c: nat)
    requires Inv(p) && Busy(p)
    ensures Inv(Resume(p, c)) && Busy(Resume(p, c))
  {
    if c < |p.calls| && p.calls[c].phase.Granted? {
      var calls := Resume(p, c).calls;
      assert CancelledKeepNone(calls, p.leases);
      hide SlotsMatch, QueueMatches, LeasesLinked, CancelledKeepNone, FirstInFirstOut;
      AdvanceKeepsLinks(p.calls, calls, p.leases);
      AdvanceKeepsOrder(p.calls, calls);
      AdvanceKeepsQueue(p, c, calls[c]);
    }
  }

  /** The pool inside `Unwind`, just before the late lease is closed. */
  function Unwound(p: Pool, c: nat): Pool
    requires c < |p.calls| && p.calls[c].phase.Unwinding?
  {
    p.(calls := p.calls[c := p.calls[c].(phase := Cancelled(Some(p.calls[c].phase.token)))])
  }

  lemma UnwoundKeepNone(p: Pool, c: nat)
    requires LeasesLinked(p.calls, p.leases) && CancelledKeepNone(p.calls, p.leases)
    requires c < |p.calls| && p.calls[c].phase.Unwinding?
    ensures
      var (t, q) := (p.calls[c].phase.token, Unwound(p, c));
      && t < |q.leases|
      && CancelledKeepNone(q.calls, Freed(q, t).leases)
      && (q.leases[t].closed ==> CancelledKeepNone(q.calls, q.leases))
  {
    assert p.calls[c].Token() == Some(p.calls[c].phase.token);
  }

  /** The handler settles its call, marks the lease closed and gives its slot back. */
  lemma UnwindSteps(p: Pool, c: nat)
    requires WaitersInRange(p) && c < |p.calls| && p.calls[c].phase.Unwinding?
    ensures
      var t := p.calls[c].phase.token;
      var q := p.(calls := p.calls[c := p.calls[c].(phase := Cancelled(Some(t)))]);
      && WaitersInRange(q)
      && Unwind(p, c)
         == if t < |q.leases| && !q.leases[t].closed
            then Release(q.(leases := q.leases[t := q.leases[t].(closed := true)]), q.leases[t].owner, t)
            else q
  {
    hide Release;
  }

  lemma UnwindKeeps(p: Pool, c: nat)
    requires Inv(p) && Busy(p)
    ensures Inv(Unwind(p, c)) && Busy(Unwind(p, c))
  {
    if c < |p.calls| && p.calls[c].phase.Unwinding? {
      var t, q := p.calls[c].phase.token, Unwound(p, c);
      UnwoundKeepNone(p, c);
      hide SlotsMatch, QueueMatches, LeasesLinked, CancelledKeepNone, FirstInFirstOut;
      AdvanceKeepsLinks(p.calls, q.calls, p.leases);
      AdvanceKeepsOrder(p.calls, q.calls);
      AdvanceKeepsQueue(p, c, q.calls[c]);
      if !q.leases[t].closed { CloseOpenLease(q, t); }
    }
  }

  lemma {:induction false} WithoutIsRemoval(s: seq<nat>, x: nat)
    requires x in s && forall i, j :: 0 <= i < j < |s| ==> s[i] < s[j]
    ensures forall y :: y in Without(s, x) <==> y in s && y != x
    ensures forall i, j :: 0 <= i < j < |Without(s, x)| ==> Without(s, x)[i] < Without(s, x)[j]
    ensures |Without(s, x)| == |s| - 1
  {
    if s[0] != x {
      WithoutIsRemoval(s[1..], x);
      forall j | 0 < j < |Without(s, x)| ensures s[0] < Without(s, x)[j] {
        assert Without(s, x)[j] == Without(s[1..], x)[j - 1];
        assert Without(s, x)[j] in s[1..];
      }
    }
  }

  lemma CancelQueuedQueue(p: Pool, c: nat)
    requires QueueMatches(p.active, p.waiters, p.calls) && c < |p.calls| && c in p.waiters
    ensures
      var q := CancelCall(p, c);
      QueueMatches(q.active, q.waiters, q.calls) && |q.waiters| == |p.waiters| - 1
  {
    WithoutIsRemoval(p.waiters, c);
    var q := CancelCall(p, c);
    forall i | 0 <= i < |q.waiters|
      ensures q.waiters[i] < |p.calls| && q.waiters[i] in p.waiters && q.calls[q.waiters[i]] == p.calls[q.waiters[i]]
    {
      assert q.waiters[i] in q.waiters;
    }
  }

  lemma CancelUnqueuedQueue(p: Pool, c: nat)
    requires QueueMatches(p.active, p.waiters, p.calls) && c < |p.calls| && c !in p.waiters
    ensures
      var q := CancelCall(p, c);
      q.waiters == p.waiters && QueueMatches(q.active, q.waiters, q.calls)
  {
    AdvanceKeepsQueue(p, c, CancelCall(p, c).calls[c]);
  }

  lemma CancelAdvances(p: Pool, c: nat)
    requires QueueMatches(p.active, p.waiters, p.calls)
    ensures Advances(p.calls, CancelCall(p, c).calls)
  {
    hide QueueMatches, Advances;
    if c < |p.calls| {
      QueuedIsWaiting(p.active, p.waiters, p.calls, c);
      var after := CancelCall(p, c).calls;
      assert after == p.calls[c := after[c]];
      OneAdvances(p.calls, c, after[c]);
    } else {
      AdvancesItself(p.calls);
    }
  }

  lemma QueuedIsWaiting(active: map<Owner, nat>, waiters: seq<nat>, calls: seq<Call>, c: nat)
    requires QueueMatches(active, waiters, calls) && c < |calls|
    ensures calls[c].phase.Queued? <==> c in waiters
  {
  }

  lemma OneAdvances(calls: seq<Call>, c: nat, call: Call)
    requires c < |calls| && call.owner == calls[c].owner && call.Token() == calls[c].Token()
    requires call.phase.Queued? ==> calls[c].phase.Queued?
    ensures Advances(calls, calls[c := call])
  {
  }

  lemma AdvancesItself(calls: seq<Call>)
    ensures Advances(calls, calls)
  {
  }

  lemma CancelKeepsNone(p: Pool, c: nat)
    requires LeasesLinked(p.calls, p.leases) && CancelledKeepNone(p.calls, p.leases)
    requires QueueMatches(p.active, p.waiters, p.calls)
    ensures CancelledKeepNone(CancelCall(p, c).calls, p.leases)
  {
    assert forall t :: 0 <= t < |p.leases| ==> p.calls[p.leases[t].call].Token() == Some(t);
  }

  lemma CancelCallKeeps(p: Pool, c: nat)
    requires Inv(p) && Busy(p)
    ensures Inv(CancelCall(p, c)) && Busy(CancelCall(p, c))
  {
    hide SlotsMatch, QueueMatches, LeasesLinked, CancelledKeepNone, FirstInFirstOut;
    if c < |p.calls| {
      var q := CancelCall(p, c);
      CancelAdvances(p, c);
      AdvanceKeepsLinks(p.calls, q.calls, p.leases);
      AdvanceKeepsOrder(p.calls, q.calls);
      CancelKeepsNone(p, c);
      if c in p.waiters { CancelQueuedQueue(p, c); } else { CancelUnqueuedQueue(p, c); }
    }
  }

  lemma ClosePoolKeeps(p: Pool)
    requires Inv(p) && Busy(p)
    ensures Inv(ClosePool(p)) && Busy(ClosePool(p)) && ClosePool(p).waiters == []
  {
    if !p.closed {
      var q := ClosePool(p);
      assert QueueMatches(q.active, q.waiters, q.calls) && CancelledKeepNone(q.calls, q.leases);
      hide SlotsMatch, QueueMatches, LeasesLinked, CancelledKeepNone, FirstInFirstOut;
      AdvanceKeepsLinks(p.calls, q.calls, p.leases);
      AdvanceKeepsOrder(p.calls, q.calls);
    }
  }

  lemma NewCallKeeps(calls: seq<Call>, leases: seq<Lease>, call: Call)
    requires LeasesLinked(calls, leases) && CancelledKeepNone(calls, leases) && FirstInFirstOut(calls)
    requires call.Token().None? && !call.phase.Cancelled?
    ensures LeasesLinked(calls + [call], leases) && CancelledKeepNone(calls + [call], leases)
    ensures FirstInFirstOut(calls + [call])
  {
  }

  lemma GrantNewQueue(p: Pool, owner: Owner)
    requires QueueMatches(p.active, p.waiters, p.calls) && p.waiters == []
    ensures QueueMatches(GrantNew(p, owner).active, [], GrantNew(p, owner).calls)
    ensures forall i :: 0 <= i < |p.calls| ==> !p.calls[i].phase.Queued?
  {
    forall i | 0 <= i < |p.calls| ensures !p.calls[i].phase.Queued? {
      assert p.calls[i].phase.Queued? <==> i in p.waiters;
    }
  }

  lemma GrantNewKeeps(p: Pool, owner: Owner)
    requires Inv(p) && p.waiters == [] && owner !in p.active && |p.active| < p.limit
    ensures Inv(GrantNew(p, owner))
  {
    hide SlotsMatch, QueueMatches, LeasesLinked, CancelledKeepNone, FirstInFirstOut;
    var q := p.(calls := p.calls + [Call(owner, Refused)]);
    GrantNewQueue(p, owner);
    NewCallKeeps(p.calls, p.leases, Call(owner, Refused));
    GrantToSlots(q, |p.calls|, Held(|p.leases|));
    GrantToLeases(q, |p.calls|, Held(|p.leases|));
    GrantToOrder(q, |p.calls|, Held(|p.leases|));
  }

  lemma EnqueueQueue(p: Pool, owner: Owner)
    requires QueueMatches(p.active, p.waiters, p.calls) && owner !in p.active && owner !in WaiterOwners(p)
    ensures QueueMatches(p.active, p.waiters + [|p.calls|], p.calls + [Call(owner, Queued)])
  {
    forall i | 0 <= i < |p.waiters| ensures p.calls[p.waiters[i]].owner != owner {
      assert WaiterOwners(p)[i] == p.calls[p.waiters[i]].owner;
    }
  }

  lemma EnqueueKeeps(p: Pool, owner: Owner)
    requires Inv(p) && owner !in p.active && owner !in WaiterOwners(p)
    ensures Inv(p.(calls := p.calls + [Call(owner, Queued)], waiters := p.waiters + [|p.calls|]))
  {
    EnqueueQueue(p, owner);
    hide SlotsMatch, QueueMatches, LeasesLinked, CancelledKeepNone, FirstInFirstOut;
    NewCallKeeps(p.calls, p.leases, Call(owner, Queued));
  }

  lemma StepKeeps(p: Pool, e: Event)
    requires Inv(p) && Busy(p)
    ensures Inv(Step(p, e)) && Busy(Step(p, e))
  {
    hide SlotsMatch, LeasesLinked, CancelledKeepNone, FirstInFirstOut;
    hide Resume, CancelCall, Unwind, CloseLease, ClosePool, GrantNew;
    match e
    case TryAcquireEvent(o) =>
      if Admission(p, o).None? && |p.active| < p.limit && p.waiters == [] { GrantNewBusy(p, o); }
    case AcquireEvent(o) =>
      if Admission(p, o).None? {
        if |p.active| < p.limit && p.waiters == [] { GrantNewBusy(p, o); } else { EnqueueBusy(p, o); }
      }
    case ResumeEvent(c) => ResumeKeeps(p, c);
    case CancelEvent(c) => CancelCallKeeps(p, c);
    case UnwindEvent(c) => UnwindKeeps(p, c);
    case CloseLeaseEvent(t) => CloseLeaseKeeps(p, t);
    case ClosePoolEvent => ClosePoolKeeps(p);
  }

  lemma GrantNewBusy(p: Pool, owner: Owner)
    requires Inv(p) && Admission(p, owner).None? && |p.active| < p.limit && p.waiters == []
    ensures Inv(GrantNew(p, owner)) && Busy(GrantNew(p, owner))
  {
    GrantNewKeeps(p, owner);
  }

  lemma EnqueueBusy(p: Pool, owner: Owner)
    requires Inv(p) && Busy(p) && Admission(p, owner).None? && (|p.active| >= p.limit || p.waiters != [])
    ensures
      var q := p.(calls := p.calls + [Call(owner, Queued)], waiters := p.waiters + [|p.calls|]);
      Inv(q) && Busy(q)
  {
    EnqueueKeeps(p, owner);
    assert |p.active| <= p.limit;
  }

  /**
    The pool after the events `es`. In every run an owner has at most one slot, active
    callers stay within the limit, an open pool with waiters is full, grants follow
    arrival, and every slot belongs to a call that has not finished cancelling.
  */
  ghost function Run(limit: nat, es: seq<Event>): (p: Pool)
    ensures Inv(p) && Busy(p)
    decreases |es|
  {
    if es == [] then Init(limit)
    else
      var q := Run(limit, es[..|es| - 1]);
      StepKeeps(q, es[|es| - 1]);
      Step(q, es[|es| - 1])
  }

  /** What the invariant means to callers of the pool. */
  lemma RunGuarantees(limit: nat, es: seq<Event>)
    ensures
      var p := Run(limit, es);
      && |p.active| <= p.limit
      && (!p.closed && p.waiters != [] ==> |p.active| == p.limit)
      && (forall o :: o in p.active ==> o !in WaiterOwners(p))
      && (forall i, j :: 0 <= i < j < |p.waiters| ==> WaiterOwners(p)[i] != WaiterOwners(p)[j])
      && (forall o :: o in p.active ==>
            && p.active[o] < |p.leases|
            && p.leases[p.active[o]].call < |p.calls|
            && var call := p.calls[p.leases[p.active[o]].call];
               call.owner == o && !call.phase.Queued? && !call.phase.Cancelled? && !call.phase.Refused?)
  {
    hide Run, SlotsMatch, QueueMatches, LeasesLinked, CancelledKeepNone, FirstInFirstOut;
    var p := Run(limit, es);
    LimitKept(p.limit, p.active, p.leases);
    WaitersApart(p);
    ActiveIsHeld(p);
  }

  lemma LimitKept(limit: nat, active: map<Owner, nat>, leases: seq<Lease>)
    requires SlotsMatch(limit, active, leases)
    ensures |active| <= limit
  {
  }

  lemma WaitersApart(p: Pool)
    requires QueueMatches(p.active, p.waiters, p.calls)
    ensures WaitersInRange(p) && forall o :: o in p.active ==> o !in WaiterOwners(p)
    ensures forall i, j :: 0 <= i < j < |p.waiters| ==> WaiterOwners(p)[i] != WaiterOwners(p)[j]
  {
    assert forall i :: 0 <= i < |p.waiters| ==> WaiterOwners(p)[i] !in p.active;
  }

  /** An active entry is the current lease of a call of that owner. */
  lemma ActiveIsHeld(p: Pool)
    requires SlotsMatch(p.limit, p.active, p.leases) && LeasesLinked(p.calls, p.leases)
    requires CancelledKeepNone(p.calls, p.leases)
    ensures forall o :: o in p.active ==>
      && p.active[o] < |p.leases|
      && p.leases[p.active[o]].call < |p.calls|
      && var call := p.calls[p.leases[p.active[o]].call];
         call.owner == o && !call.phase.Queued? && !call.phase.Cancelled? && !call.phase.Refused?
  {
    forall o | o in p.active
      ensures p.active[o] < |p.leases| && p.leases[p.active[o]].call < |p.calls|
      ensures
        var call := p.calls[p.leases[p.active[o]].call];
        call.owner == o && !call.phase.Queued? && !call.phase.Cancelled? && !call.phase.Refused?
    {
      assert p.calls[p.leases[p.active[o]].call].Token() == Some(p.active[o]);
    }
  }

  /** Nothing stands in the way of a new lease for `owner`. */
  predicate Welcome(p: Pool, owner: Owner) {
    && owner.kind != "" && owner.id != "" && !p.closed && owner !in p.active
    && forall c :: 0 <= c < |p.calls| && p.calls[c].phase.Queued? ==> p.calls[c].owner != owner
  }

  /** A call fails for a blank owner, a closed pool or a busy owner, in this order, and changes nothing then. */
  lemma RefusedIff(p: Pool, owner: Owner)
    requires Inv(p) && Busy(p)
    ensures
      var (q, r) := TryAcquire(p, owner);
      && (r.Ok? <==> Welcome(p, owner))
      && (r.Err? ==> q == p && Acquire(p, owner) == (p, r))
      && (Acquire(p, owner).1.Ok? <==> Welcome(p, owner))
      && (r == Err(InvalidOwner) <==> owner.kind == "" || owner.id == "")
      && (r == Err(PoolClosed) <==> owner.kind != "" && owner.id != "" && p.closed)
  {
    hide SlotsMatch, LeasesLinked, CancelledKeepNone, FirstInFirstOut, GrantNew;
    WaitersAre(p, owner);
  }

  lemma WaitersAre(p: Pool, owner: Owner)
    requires QueueMatches(p.active, p.waiters, p.calls)
    ensures WaitersInRange(p)
    ensures owner in WaiterOwners(p)
        <==> exists c :: 0 <= c < |p.calls| && p.calls[c].phase.Queued? && p.calls[c].owner == owner
  {
    if c :| 0 <= c < |p.calls| && p.calls[c].phase.Queued? && p.calls[c].owner == owner {
      var i :| 0 <= i < |p.waiters| && p.waiters[i] == c;
      assert WaiterOwners(p)[i] == owner;
    }
    if i :| 0 <= i < |p.waiters| && WaiterOwners(p)[i] == owner {
      assert p.calls[p.waiters[i]].phase.Queued?;
    }
  }

  /** A fresh open lease of `owner` is the only change. */
  predicate Leased(p: Pool, q: Pool, owner: Owner, token: nat) {
    && token == |p.leases| && q.leases == p.leases + [Lease(owner, |p.calls|, false)]
    && q.active == p.active[owner := token] && q.calls == p.calls + [Call(owner, Held(token))]
    && q.waiters == p.waiters && q.closed == p.closed && q.limit == p.limit
  }

  /** A welcome owner gets a lease if and only if there is room; otherwise it is told so, or waits as the last one. */
  lemma GrantedIff(p: Pool, owner: Owner)
    requires Inv(p) && Busy(p) && Welcome(p, owner)
    ensures
      var ((q, r), (w, a)) := (TryAcquire(p, owner), Acquire(p, owner));
      && r == a && r.Ok? && (r.value.Some? <==> |p.active| < p.limit)
      && (r.value.Some? ==> Leased(p, q, owner, r.value.value) && w == q)
      && (r.value.None? ==>
            q == p && w == p.(calls := p.calls + [Call(owner, Queued)], waiters := p.waiters + [|p.calls|]))
  {
    hide SlotsMatch, LeasesLinked, CancelledKeepNone, FirstInFirstOut, Welcome, Admission;
    RefusedIff(p, owner);
    hide QueueMatches;
    assert |p.active| < p.limit ==> p.waiters == [];
    NewLease(p, owner);
    hide GrantNew;
    AdmittedWhen(p, owner);
  }

  lemma AdmittedWhen(p: Pool, owner: Owner)
    requires WaitersInRange(p) && TryAcquire(p, owner).1.Ok?
    ensures Admission(p, owner).None?
  {
    hide GrantNew;
  }

  lemma NewLease(p: Pool, owner: Owner)
    ensures Leased(p, GrantNew(p, owner), owner, |p.leases|)
  {
  }

  /** Closing an open lease while others wait serves exactly the first of them. */
  lemma CloseServesNext(p: Pool, token: nat)
    requires Inv(p) && Busy(p) && !p.closed && token < |p.leases| && !p.leases[token].closed
    ensures
      var q := CloseLease(p, token);
      && p.leases[token].owner in p.active
      && (p.waiters == [] ==> q.active == p.active - {p.leases[token].owner} && q.calls == p.calls)
      && (p.waiters != [] ==>
            && q.waiters == p.waiters[1..] && |q.calls| == |p.calls| && p.waiters[0] < |p.calls|
            && q.calls[p.waiters[0]].phase.Granted?
            && forall c :: 0 <= c < |p.calls| && c != p.waiters[0] ==> q.calls[c] == p.calls[c])
  {
    hide LeasesLinked, CancelledKeepNone, FirstInFirstOut;
    var owner := p.leases[token].owner;
    var freed := p.(leases := p.leases[token := p.leases[token].(closed := true)], active := p.active - {owner});
    assert CloseLease(p, token) == GrantWaiters(freed);
    if p.waiters != [] {
      var c, rest := p.waiters[0], freed.(waiters := p.waiters[1..]);
      FullWithout(p.active, owner);
      assert p.calls[c].phase.Queued? by { assert c in p.waiters; }
      var next := GrantTo(rest, c, Granted(|freed.leases|));
      assert next.active.Keys == freed.active.Keys + {p.calls[c].owner};
      assert GrantWaiters(freed) == GrantWaiters(next) == next;
    }
  }

  lemma FullWithout(active: map<Owner, nat>, owner: Owner)
    requires owner in active
    ensures |active - {owner}| == |active| - 1
  {
    assert (active - {owner}).Keys == active.Keys - {owner};
  }

  /** A later caller is never served while an earlier one waits, by whichever method it came. */
  lemma NoOvertaking(limit: nat, es: seq<Event>, i: nat, j: nat)
    requires i < j < |Run(limit, es).calls|
    ensures
      var calls := Run(limit, es).calls;
      && (calls[j].Token().Some? ==> !calls[i].phase.Queued?)
      && (calls[i].Token().Some? && calls[j].Token().Some? ==> calls[i].Token().value < calls[j].Token().value)
  {
  }

  lemma CancelledHoldsNothing(p: Pool, c: nat)
    requires SlotsMatch(p.limit, p.active, p.leases) && CancelledKeepNone(p.calls, p.leases)
    requires c < |p.calls| && p.calls[c].phase.Cancelled?
    ensures forall o :: o in p.active ==> p.leases[p.active[o]].call != c
  {
  }

  lemma CancelThenUnwind(p: Pool, c: nat)
    requires QueueMatches(p.active, p.waiters, p.calls) && c < |p.calls| && !p.calls[c].phase.Held?
    ensures WaitersInRange(CancelCall(p, c))
    ensures
      var q := Unwind(CancelCall(p, c), c);
      |q.calls| == |p.calls| && q.calls[c].phase.Cancelled?
  {
    var m := CancelCall(p, c);
    assert WaitersInRange(m) by {
      if c in p.waiters { CancelQueuedQueue(p, c); } else { CancelUnqueuedQueue(p, c); }
    }
    if m.calls[c].phase.Unwinding? {
      CloseKeepsCalls(Unwound(m, c), m.calls[c].phase.token, c);
    }
  }

  lemma RunExtends(limit: nat, es: seq<Event>, e: Event)
    ensures Run(limit, es + [e]) == Step(Run(limit, es), e)
  {
    assert (es + [e])[..|es|] == es;
  }

  /** Cancelling a caller and letting its handler finish leaves it without a slot, however the race went. */
  lemma CancelledCallerLeavesNoSlot(limit: nat, es: seq<Event>, c: nat)
    requires c < |Run(limit, es).calls| && !Run(limit, es).calls[c].phase.Held?
    ensures
      var q := Run(limit, es + [CancelEvent(c)] + [UnwindEvent(c)]);
      && c < |q.calls| && q.calls[c].phase.Cancelled?
      && (forall o :: o in q.active ==> q.leases[q.active[o]].call != c)
  {
    CancelUnwindRun(limit, es, c);
    CancelThenUnwind(Run(limit, es), c);
    hide QueueMatches, LeasesLinked, FirstInFirstOut;
    CancelledHoldsNothing(Run(limit, es + [CancelEvent(c)] + [UnwindEvent(c)]), c);
  }

  lemma CancelUnwindRun(limit: nat, es: seq<Event>, c: nat)
    ensures WaitersInRange(CancelCall(Run(limit, es), c))
    ensures Run(limit, es + [CancelEvent(c)] + [UnwindEvent(c)]) == Unwind(CancelCall(Run(limit, es), c), c)
  {
    hide Inv, Busy, Run, CancelCall, Unwind, TryAcquire, Acquire, Resume, CloseLease, ClosePool, WaitersInRange;
    RunExtends(limit, es, CancelEvent(c));
    InRange(Run(limit, es));
    InRange(Run(limit, es + [CancelEvent(c)]));
    RunExtends(limit, es + [CancelEvent(c)], UnwindEvent(c));
  }

  lemma InRange(p: Pool)
    requires Inv(p)
    ensures WaitersInRange(p)
  {
  }

  /** Only queued calls change when a lease is closed. */
  lemma CloseKeepsCalls(p: Pool, token: nat, c: nat)
    requires WaitersInRange(p) && c < |p.calls| && !p.calls[c].phase.Queued?
    ensures |CloseLease(p, token).calls| == |p.calls| && CloseLease(p, token).calls[c] == p.calls[c]
  {
    if token < |p.leases| && !p.leases[token].closed {
      var marked := p.(leases := p.leases[token := p.leases[token].(closed := true)]);
      GrantWaitersKeepsCalls(marked.(active := marked.active - {p.leases[token].owner}), c);
    }
  }

  lemma {:induction false} GrantWaitersKeepsCalls(p: Pool, c: nat)
    requires WaitersInRange(p) && c < |p.calls| && !p.calls[c].phase.Queued?
    ensures |GrantWaiters(p).calls| == |p.calls| && GrantWaiters(p).calls[c] == p.calls[c]
    decreases |p.waiters|
  {
    if p.waiters != [] && |p.active| < p.limit {
      var w, rest := p.waiters[0], p.(waiters := p.waiters[1..]);
      GrantWaitersKeepsCalls(if p.calls[w].phase != Queued then rest else GrantTo(rest, w, Granted(|p.leases|)), c);
    }
  }

  // --- How a call moves ----------------------------------------------------------------------

  /** Where event `e` takes a call at place `c` that stands in `before`, while the pool is not closed to it. */
  predicate MovesTo(c: nat, before: Phase, e: Event, after: Phase) {
    match before
    case Held(_) => after == before
    case Cancelled(_) => after == before
    case Granted(t) =>
      after == if e == ResumeEvent(c) then Held(t) else if e == CancelEvent(c) then Unwinding(t) else before
    case Unwinding(t) => after == if e == UnwindEvent(c) then Cancelled(Some(t)) else before
    case Refused => after == if e == CancelEvent(c) then Cancelled(None) else before
    case Queued =>
      if e == CancelEvent(c) then after == Cancelled(None)
      else if e.ClosePoolEvent? then after.Refused?
      else after.Queued? || (after.Granted? && (e.CloseLeaseEvent? || e.UnwindEvent?))
  }

  /** The life of a call: each move has one cause, and nothing else moves it. */
  lemma CallMoves(p: Pool, e: Event, c: nat)
    requires Inv(p) && Busy(p) && c < |p.calls|
    ensures WaitersInRange(p) && c < |Step(p, e).calls|
    ensures Step(p, e).calls[c].owner == p.calls[c].owner
    ensures MovesTo(c, p.calls[c].phase, e, Step(p, e).calls[c].phase)
  {
    hide SlotsMatch, LeasesLinked, CancelledKeepNone, FirstInFirstOut, Busy, CloseLease, MovesTo, OnlyGrants;
    hide CancelCall, TryAcquire, Acquire, Resume, ClosePool;
    var before := p.calls[c].phase;
    if e.UnwindEvent? {
      UnwindMoves(p, e.call, c);
    } else if e.CloseLeaseEvent? {
      ClosingMoves(p, e.token, c);
      GrantsMove(p.calls, CloseLease(p, e.token).calls, c, e);
    } else if e.ClosePoolEvent? {
      ClosingRefuses(p, c);
    } else {
      CallerMoves(p, e, c);
    }
  }

  lemma GrantsMove(calls: seq<Call>, after: seq<Call>, c: nat, e: Event)
    requires c < |calls| && OnlyGrants(calls, after, c) && e.CloseLeaseEvent?
    ensures MovesTo(c, calls[c].phase, e, after[c].phase)
  {
  }

  /** What the callers themselves do. */
  lemma CallerMoves(p: Pool, e: Event, c: nat)
    requires QueueMatches(p.active, p.waiters, p.calls) && WaitersInRange(p) && c < |p.calls|
    requires e.TryAcquireEvent? || e.AcquireEvent? || e.ResumeEvent? || e.CancelEvent?
    ensures
      var q := Step(p, e);
      c < |q.calls| && q.calls[c].owner == p.calls[c].owner && MovesTo(c, p.calls[c].phase, e, q.calls[c].phase)
  {
    hide Unwind, CloseLease, ClosePool, Without;
  }

  lemma UnwindMoves(p: Pool, u: nat, c: nat)
    requires WaitersInRange(p) && c < |p.calls|
    ensures
      var q := Unwind(p, u);
      && c < |q.calls| && q.calls[c].owner == p.calls[c].owner
      && MovesTo(c, p.calls[c].phase, UnwindEvent(u), q.calls[c].phase)
  {
    hide CloseLease;
    if u < |p.calls| && p.calls[u].phase.Unwinding? {
      ClosingMoves(Unwound(p, u), p.calls[u].phase.token, c);
    }
  }

  lemma ClosingRefuses(p: Pool, c: nat)
    requires QueueMatches(p.active, p.waiters, p.calls) && Busy(p) && c < |p.calls|
    ensures
      var q := ClosePool(p);
      && |q.calls| == |p.calls| && q.calls[c].owner == p.calls[c].owner
      && MovesTo(c, p.calls[c].phase, ClosePoolEvent, q.calls[c].phase)
  {
  }

  /** Closing a lease only grants: a call that waits may get one, no other call moves. */
  lemma ClosingMoves(p: Pool, token: nat, c: nat)
    requires WaitersInRange(p) && c < |p.calls|
    ensures OnlyGrants(p.calls, CloseLease(p, token).calls, c)
  {
    if token < |p.leases| && !p.leases[token].closed {
      var marked := p.(leases := p.leases[token := p.leases[token].(closed := true)]);
      GrantingMoves(marked.(active := marked.active - {p.leases[token].owner}), c);
    }
  }

  predicate OnlyGrants(calls: seq<Call>, after: seq<Call>, c: nat)
    requires c < |calls|
  {
    && |after| == |calls| && after[c].owner == calls[c].owner
    && (after[c].phase == calls[c].phase || (calls[c].phase.Queued? && after[c].phase.Granted?))
  }

  lemma {:induction false} GrantingMoves(p: Pool, c: nat)
    requires WaitersInRange(p) && c < |p.calls|
    ensures OnlyGrants(p.calls, GrantWaiters(p).calls, c)
    decreases |p.waiters|
  {
    if p.waiters != [] && |p.active| < p.limit {
      var w, rest := p.waiters[0], p.(waiters := p.waiters[1..]);
      GrantingMoves(if p.calls[w].phase != Queued then rest else GrantTo(rest, w, Granted(|p.leases|)), c);
    }
  }
}
