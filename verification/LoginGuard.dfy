/**
 The login back-off (internal/httpapi/auth.go): failed logins are counted per address, and from the
 fifth on each one blocks the address for 30 seconds longer than the last.

 Requests are handled one after another; each reads the clock when it is checked, when the failure
 is recorded, when the block is set and when old entries are swept.  Times are in nanoseconds.
 */
module LoginGuard {
  import opened Text

  const SECOND: nat := 1_000_000_000
  const DAY: nat := 86400 * SECOND

  datatype Attempt = Attempt(failures: nat, lastSeen: int, blocked: Option<int>)

  type Logins = map<string, Attempt>

  datatype Request = Request(address: string, success: bool, checked: int, seen: int, base: int, swept: int)

  predicate Blocked(logins: Logins, address: string, now: int) {
    address in logins && logins[address].blocked.Some? && logins[address].blocked.value > now
  }

  /** One more failure on record. */
  function Failed(logins: Logins, r: Request): Attempt {
    var old' := if r.address in logins then logins[r.address] else Attempt(0, 0, None);
    var n := old'.failures + 1;
    Attempt(n, r.seen, if n >= 5 then Some(r.base + (n - 4) * 30 * SECOND) else old'.blocked)
  }

  function Swept(logins: Logins, now: int): Logins {
    map a | a in logins && now - logins[a].lastSeen <= DAY :: logins[a]
  }

  function Recorded(logins: Logins, r: Request): Logins {
    if r.success then logins - {r.address}
    else Swept(logins[r.address := Failed(logins, r)], r.swept)
  }

  /** `loginPost`: a blocked address is turned away before anything is recorded. */
  function Handle(logins: Logins, r: Request): Logins {
    if Blocked(logins, r.address, r.checked) then logins else Recorded(logins, r)
  }

  class Guard {
    var logins: Logins

    constructor ()
      ensures logins == map[]
    {
      logins := map[];
    }

    /** How long the address is still blocked; not positive if it is not. */
    method LoginBlocked(address: string, now: int) returns (wait: int)
      ensures wait > 0 <==> Blocked(logins, address, now)
      ensures wait > 0 ==> now + wait == logins[address].blocked.value
    {
      if address !in logins || logins[address].blocked.None? {
        return 0;
      }
      return logins[address].blocked.value - now;
    }

    method RecordLogin(r: Request)
      modifies this
      ensures logins == Recorded(old(logins), r)
    {
      if r.success {
        logins := logins - {r.address};
        return;
      }
      var n := (if r.address in logins then logins[r.address].failures else 0) + 1;
      var blocked := if r.address in logins then logins[r.address].blocked else None;
      if n >= 5 {
        blocked := Some(r.base + (n - 4) * 30 * SECOND);
      }
      logins := logins[r.address := Attempt(n, r.seen, blocked)];
      ghost var recorded := logins;
      var keys := logins.Keys;
      while keys != {}
        invariant keys <= recorded.Keys && logins.Keys <= recorded.Keys
        invariant forall a :: a in recorded ==>
                    (a in logins <==> a in keys || r.swept - recorded[a].lastSeen <= DAY)
        invariant forall a :: a in logins ==> logins[a] == recorded[a]
        decreases |keys|
      {
        var key :| key in keys;
        if r.swept - logins[key].lastSeen > DAY {
          logins := logins - {key};
        }
        keys := keys - {key};
      }
      assert logins == Swept(recorded, r.swept);
    }

    method HandleLogin(r: Request)
      modifies this
      ensures logins == Handle(old(logins), r)
    {
      var wait := LoginBlocked(r.address, r.checked);
      if wait <= 0 {
        RecordLogin(r);
      }
    }
  }

  // ----- Runs -----

  function Run(rs: seq<Request>): Logins {
    if rs == [] then map[] else Handle(Run(rs[..|rs| - 1]), rs[|rs| - 1])
  }

  /** The clock never goes back, within a request or from one to the next. */
  predicate Sequential(rs: seq<Request>) {
    && (forall i :: 0 <= i < |rs| ==> rs[i].checked <= rs[i].seen <= rs[i].base <= rs[i].swept)
    && (forall i, j :: 0 <= i < j < |rs| ==> rs[i].swept <= rs[j].checked)
  }

  /** The times at which failures of this address were recorded. */
  function Failures(rs: seq<Request>, address: string): seq<int> {
    if rs == [] then []
    else
      var before, r := rs[..|rs| - 1], rs[|rs| - 1];
      Failures(before, address) +
      if r.address == address && !r.success && !Blocked(Run(before), address, r.checked) then [r.seen] else []
  }

  predicate NoSuccess(rs: seq<Request>, address: string) {
    forall i :: 0 <= i < |rs| && rs[i].address == address ==> !rs[i].success
  }

  predicate NoLongGap(times: seq<int>) {
    forall i :: 0 < i < |times| ==> times[i] - times[i - 1] <= DAY
  }

  /** From the fifth failure on, the n-th and the next are at least 30(n-4) seconds apart. */
  predicate Spaced(times: seq<int>) {
    forall n :: 5 <= n < |times| ==> times[n] >= times[n - 1] + (n - 4) * 30 * SECOND
  }

  /** What the map holds for an address, given its recorded failures and the time. */
  predicate Reflects(logins: Logins, address: string, times: seq<int>, now: int) {
    if times == [] then address !in logins
    else
      var n, last := |times|, times[|times| - 1];
      if address in logins then
        && logins[address].failures == n && logins[address].lastSeen == last
        && (n < 5 ==> logins[address].blocked.None?)
        && (n >= 5 ==>
              && logins[address].blocked.Some?
              && last + (n - 4) * 30 * SECOND <= logins[address].blocked.value <= now + (n - 4) * 30 * SECOND)
      else now - last > DAY
  }

  function LastSweep(rs: seq<Request>, now: int): int {
    if rs == [] then now else rs[|rs| - 1].swept
  }

  lemma OtherAddressKeeps(logins: Logins, r: Request, address: string, times: seq<int>, now: int)
    requires Reflects(logins, address, times, now) && now <= r.swept && r.address != address
    ensures Reflects(Handle(logins, r), address, times, r.swept)
  {
  }

  lemma BlockedKeeps(logins: Logins, address: string, times: seq<int>, now: int, later: int)
    requires Reflects(logins, address, times, now) && now <= later
    ensures Reflects(logins, address, times, later)
  {
  }

  lemma FailureReflects(logins: Logins, r: Request, times: seq<int>, now: int)
    requires Reflects(logins, r.address, times, now) && !r.success && !Blocked(logins, r.address, r.checked)
    requires now <= r.checked <= r.seen <= r.base <= r.swept
    requires Spaced(times) && NoLongGap(times + [r.seen])
    ensures Reflects(Handle(logins, r), r.address, times + [r.seen], r.swept)
    ensures Spaced(times + [r.seen])
  {
    var all := times + [r.seen];
    if times != [] {
      assert all[|times|] - all[|times| - 1] <= DAY;
      assert r.address in logins;
    }
  }

  lemma NoGapPrefix(times: seq<int>, more: seq<int>)
    requires NoLongGap(times + more)
    ensures NoLongGap(times)
  {
    forall i | 0 < i < |times|
      ensures times[i] - times[i - 1] <= DAY
    {
      assert (times + more)[i] == times[i] && (times + more)[i - 1] == times[i - 1];
    }
  }

  lemma {:induction false} RunReflects(rs: seq<Request>, address: string)
    requires Sequential(rs) && NoSuccess(rs, address) && NoLongGap(Failures(rs, address))
    ensures Spaced(Failures(rs, address))
    ensures Reflects(Run(rs), address, Failures(rs, address), LastSweep(rs, 0))
  {
    hide Spaced, NoLongGap, Reflects, Handle, Blocked;
    if rs == [] {
      NothingRecorded(address);
    } else {
      var before, r := rs[..|rs| - 1], rs[|rs| - 1];
      var times := Failures(before, address);
      NoGapPrefix(times, Failures(rs, address)[|times|..]);
      assert Failures(rs, address) == times + Failures(rs, address)[|times|..];
      RunReflects(before, address);
      StepReflects(before, r, address);
    }
  }

  lemma NothingRecorded(address: string)
    ensures Spaced([]) && Reflects(map[], address, [], 0)
  {
  }

  lemma StepReflects(before: seq<Request>, r: Request, address: string)
    requires Sequential(before + [r]) && (r.address == address ==> !r.success)
    requires Spaced(Failures(before, address)) && NoLongGap(Failures(before + [r], address))
    requires Reflects(Run(before), address, Failures(before, address), LastSweep(before, 0))
    ensures Spaced(Failures(before + [r], address))
    ensures Reflects(Run(before + [r]), address, Failures(before + [r], address), r.swept)
  {
    var rs := before + [r];
    assert rs[..|rs| - 1] == before && rs[|rs| - 1] == r;
    var logins, times := Run(before), Failures(before, address);
    var now := if before == [] then r.checked else before[|before| - 1].swept;
    assert now <= r.checked by {
      if before != [] {
        assert rs[|before| - 1].swept <= rs[|before|].checked;
      }
    }
    assert r.checked <= r.seen <= r.base <= r.swept by {
      assert rs[|before|] == r;
    }
    assert Reflects(logins, address, times, now);
    hide Spaced, NoLongGap, Reflects, Handle, Sequential;
    if r.address != address {
      OtherAddressKeeps(logins, r, address, times, now);
      assert Failures(rs, address) == times;
    } else if Blocked(logins, address, r.checked) {
      BlockedKeeps(logins, address, times, now, r.swept);
      assert Failures(rs, address) == times;
      TurnedAway(logins, r);
    } else {
      FailureReflects(logins, r, times, now);
    }
  }

  lemma TurnedAway(logins: Logins, r: Request)
    requires Blocked(logins, r.address, r.checked)
    ensures Handle(logins, r) == logins
  {
  }

  /**
   After any sequential run, for an address with no success and no long gap: the first four failures
   never block it, and after the n-th it is blocked for at least 30(n-4) seconds from that failure, and
   no longer than that from now.
   */
  lemma BlockedExactlySoLong(rs: seq<Request>, address: string, t: int)
    requires Sequential(rs) && NoSuccess(rs, address) && NoLongGap(Failures(rs, address))
    ensures
      var times, now := Failures(rs, address), LastSweep(rs, 0);
      && (|times| < 5 ==> !Blocked(Run(rs), address, t))
      && (t >= now + (|times| as int - 4) * 30 * SECOND ==> !Blocked(Run(rs), address, t))
      && (|times| >= 5 && now - times[|times| - 1] <= DAY && t < times[|times| - 1] + (|times| - 4) * 30 * SECOND ==>
            Blocked(Run(rs), address, t))
  {
    RunReflects(rs, address);
    hide Run, Failures;
  }

  /** A success wipes the slate: the address is not blocked, and its next failure is its first. */
  lemma SuccessForgets(logins: Logins, r: Request, next: Request, t: int)
    requires r.success && !Blocked(logins, r.address, r.checked)
    requires next.address == r.address && !next.success && next.swept - next.seen <= DAY
    ensures !Blocked(Handle(logins, r), r.address, t)
    ensures
      var after := Handle(Handle(logins, r), next);
      r.address in after && after[r.address] == Attempt(1, next.seen, None)
  {
  }

  /** A recorded failure forgets exactly what was last seen more than a day before. */
  lemma SweepForgetsOldOnly(logins: Logins, r: Request, a: string)
    requires !r.success && !Blocked(logins, r.address, r.checked) && a != r.address
    ensures a in Handle(logins, r) <==> a in logins && r.swept - logins[a].lastSeen <= DAY
    ensures a in Handle(logins, r) ==> Handle(logins, r)[a] == logins[a]
  {
  }

  lemma {:induction false} SpacingAddsUp(times: seq<int>, n: nat)
    requires Spaced(times) && 5 <= n <= |times|
    ensures times[n - 1] - times[4] >= 15 * (n - 5) * (n - 4) * SECOND
  {
    if n > 5 {
      SpacingAddsUp(times, n - 1);
      assert times[n - 1] >= times[n - 2] + (n - 5) * 30 * SECOND;
      assert 15 * (n - 6) * (n - 5) + 30 * (n - 5) == 15 * (n - 5) * (n - 4);
    }
  }

  /**
   In every sequential run, for an address with no success and no two of its recorded failures more
   than 24 hours apart, at least 15(n-5)(n-4) seconds pass between the fifth recorded failure and
   the n-th, whatever other addresses do.
   */
  lemma BackOffDelays(rs: seq<Request>, address: string, n: nat)
    requires Sequential(rs) && NoSuccess(rs, address) && NoLongGap(Failures(rs, address))
    requires 5 <= n <= |Failures(rs, address)|
    ensures Failures(rs, address)[n - 1] - Failures(rs, address)[4] >= 15 * (n - 5) * (n - 4) * SECOND
  {
    hide Failures, Run;
    RunReflects(rs, address);
    SpacingAddsUp(Failures(rs, address), n);
  }
}
