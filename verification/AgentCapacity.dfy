/** The pool as the program keeps it: tables that its methods update in place. */
module AgentCapacity {
  import opened Wrappers
  import Text
  import P = CapacityPool

  class AgentCapacityPool {
    const limit: nat
    var active: map<P.Owner, nat>
    var waiters: seq<nat>
    var closed: bool
    var calls: seq<P.Call>
    var leases: seq<P.Lease>

    function View(): P.Pool
      reads this
    {
      P.Pool(limit, active, waiters, closed, calls, leases)
    }

    ghost predicate Valid()
      reads this
    {
      P.Inv(View()) && P.Busy(View())
    }

    constructor (limit: nat)
      requires limit >= 1
      ensures Valid() && View() == P.Init(limit)
    {
      this.limit := limit;
      active, waiters, closed, calls, leases := map[], [], false, [], [];
    }

    static function OwnerOf(kind: string, id: string): P.Owner {
      P.Owner(Text.Strip(kind), Text.Strip(id))
    }

    method Grant(owner: P.Owner, call: nat, phase: P.Phase) returns (token: nat)
      requires call < |calls| && calls[call].owner == owner
      modifies this
      ensures View() == P.GrantTo(old(View()), call, phase) && token == |old(leases)|
    {
      token := |leases|;
      active := active[owner := token];
      leases := leases + [P.Lease(owner, call, false)];
      calls := calls[call := P.Call(owner, phase)];
    }

    method TryAcquire(kind: string, id: string) returns (r: Result<Option<nat>, P.Error>)
      requires Valid()
      modifies this
      ensures Valid() && (View(), r) == P.TryAcquire(old(View()), OwnerOf(kind, id))
    {
      P.StepKeeps(View(), P.TryAcquireEvent(OwnerOf(kind, id)));
      var owner := OwnerOf(kind, id);
      var admission := P.Admission(View(), owner);
      if admission.Some? {
        return Err(admission.value);
      }
      if |active| >= limit || waiters != [] {
        return Ok(None);
      }
      var call := |calls|;
      calls := calls + [P.Call(owner, P.Refused)];
      var token := Grant(owner, call, P.Held(|leases|));
      return Ok(Some(token));
    }

    /** The first critical section of `acquire`; the result is None when the caller must wait. */
    method Acquire(kind: string, id: string) returns (r: Result<Option<nat>, P.Error>)
      requires Valid()
      modifies this
      ensures Valid() && (View(), r) == P.Acquire(old(View()), OwnerOf(kind, id))
    {
      P.StepKeeps(View(), P.AcquireEvent(OwnerOf(kind, id)));
      var owner := OwnerOf(kind, id);
      var admission := P.Admission(View(), owner);
      if admission.Some? {
        return Err(admission.value);
      }
      var call := |calls|;
      if |active| < limit && waiters == [] {
        calls := calls + [P.Call(owner, P.Refused)];
        var token := Grant(owner, call, P.Held(|leases|));
        return Ok(Some(token));
      }
      calls := calls + [P.Call(owner, P.Queued)];
      waiters := waiters + [call];
      return Ok(None);
    }

    method GrantWaiters()
      requires P.WaitersInRange(View())
      modifies this
      ensures View() == P.GrantWaiters(old(View()))
    {
      while waiters != [] && |active| < limit
        invariant P.WaitersInRange(View())
        invariant P.GrantWaiters(View()) == P.GrantWaiters(old(View()))
        decreases |waiters|
      {
        var call := waiters[0];
        waiters := waiters[1..];
        if !calls[call].phase.Queued? {
          continue;
        }
        var _ := Grant(calls[call].owner, call, P.Granted(|leases|));
      }
    }

    method Release(owner: P.Owner, token: nat)
      requires P.WaitersInRange(View())
      modifies this
      ensures View() == P.Release(old(View()), owner, token)
    {
      if owner !in active || active[owner] != token {
        return;
      }
      active := active - {owner};
      if !closed {
        GrantWaiters();
      }
    }

    method CloseLease(token: nat)
      requires Valid()
      modifies this
      ensures Valid() && View() == P.CloseLease(old(View()), token)
    {
      P.CloseLeaseKeeps(View(), token);
      if token >= |leases| || leases[token].closed {
        return;
      }
      var owner := leases[token].owner;
      leases := leases[token := leases[token].(closed := true)];
      Release(owner, token);
    }

    /** The waiting caller at place `call` resumes with the lease of its future. */
    method Resume(call: nat)
      requires Valid()
      modifies this
      ensures Valid() && View() == P.Resume(old(View()), call)
    {
      P.ResumeKeeps(View(), call);
      if call < |calls| && calls[call].phase.Granted? {
        calls := calls[call := calls[call].(phase := P.Held(calls[call].phase.token))];
      }
    }

    /** The cancellation handler of `acquire` for the caller at place `call`, under the lock. */
    method CancelAcquire(call: nat)
      requires Valid() && call < |calls|
      modifies this
      ensures Valid() && View() == P.CancelCall(old(View()), call)
    {
      P.CancelCallKeeps(View(), call);
      if call in waiters {
        waiters := P.Without(waiters, call);
        calls := calls[call := calls[call].(phase := P.Cancelled(None))];
      } else if calls[call].phase.Granted? {
        calls := calls[call := calls[call].(phase := P.Unwinding(calls[call].phase.token))];
      } else if calls[call].phase.Refused? {
        calls := calls[call := calls[call].(phase := P.Cancelled(None))];
      }
    }

    /** The end of that handler: `await granted.close()`. */
    method CloseGranted(call: nat)
      requires Valid() && call < |calls|
      modifies this
      ensures Valid() && View() == P.Unwind(old(View()), call)
    {
      P.UnwindKeeps(View(), call);
      assert P.WaitersInRange(View());
      hide P.Inv, P.Busy, P.GrantWaiters, P.Release, P.CloseLease;
      if calls[call].phase.Unwinding? {
        P.UnwindSteps(View(), call);
        hide P.Unwind;
        var token := calls[call].phase.token;
        calls := calls[call := calls[call].(phase := P.Cancelled(Some(token)))];
        if token < |leases| && !leases[token].closed {
          var owner := leases[token].owner;
          leases := leases[token := leases[token].(closed := true)];
          Release(owner, token);
        }
      }
    }

    method Close()
      requires Valid()
      modifies this
      ensures Valid() && View() == P.ClosePool(old(View()))
    {
      P.ClosePoolKeeps(View());
      if closed {
        return;
      }
      closed := true;
      var pending := waiters;
      waiters := [];
      var i := 0;
      while i < |pending|
        invariant 0 <= i <= |pending|
        invariant unchanged(this`active, this`leases) && closed && waiters == []
        invariant calls == P.RefuseAll(old(calls), pending[..i])
      {
        if calls[pending[i]].phase.Queued? {
          calls := calls[pending[i] := calls[pending[i]].(phase := P.Refused)];
        }
        i := i + 1;
      }
      assert pending[..|pending|] == pending;
    }
  }
}
