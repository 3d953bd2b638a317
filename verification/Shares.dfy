/**
 Share links (internal/database/database.go): redeem, validate and revoke are atomic transactions on
 one row; a run is any sequence of them.
 */
module Shares {
  import opened Text
  import opened Timestamps

  datatype Share = Share(workstation: string, uses: nat, maxUses: Option<int>, revoked: bool, expires: Option<Civil>)

  datatype Request = Redeem(now: Civil) | Validate(workstation: string, now: Civil) | Revoke(workstation: string)

  predicate Live(s: Share, now: Civil) {
    !s.revoked && (s.expires.None? || Unexpired(s.expires.value, now))
  }

  predicate Granted(s: Share, r: Request) {
    match r
    case Redeem(now) => Live(s, now) && (s.maxUses.None? || s.uses < s.maxUses.value)
    case Validate(workstation, now) => s.workstation == workstation && Live(s, now)
    case Revoke(workstation) => s.workstation == workstation && !s.revoked
  }

  function After(s: Share, r: Request): Share {
    if !Granted(s, r) then s
    else
      match r
      case Redeem(_) => s.(uses := s.uses + 1)
      case Validate(_, _) => s
      case Revoke(_) => s.(revoked := true)
  }

  function Run(s: Share, rs: seq<Request>): Share {
    if rs == [] then s else After(Run(s, rs[..|rs| - 1]), rs[|rs| - 1])
  }

  /** How many of the first requests were successful redemptions. */
  function Redemptions(s: Share, rs: seq<Request>): nat {
    if rs == [] then 0
    else
      var before, last := rs[..|rs| - 1], rs[|rs| - 1];
      Redemptions(s, before) + if last.Redeem? && Granted(Run(s, before), last) then 1 else 0
  }

  /** The use count is exactly the number of successful redemptions, and never passes the cap. */
  lemma {:induction false} UsesCountRedemptions(s: Share, rs: seq<Request>)
    ensures
      var t := Run(s, rs);
      && t.uses == s.uses + Redemptions(s, rs)
      && t.maxUses == s.maxUses && t.expires == s.expires && t.workstation == s.workstation
      && (s.maxUses.Some? && s.uses <= s.maxUses.value ==> t.uses <= s.maxUses.value)
  {
    hide Live;
    if rs != [] {
      UsesCountRedemptions(s, rs[..|rs| - 1]);
    }
  }

  lemma {:induction false} RevokedStays(s: Share, rs: seq<Request>)
    requires s.revoked
    ensures Run(s, rs) == s
  {
    if rs != [] {
      RevokedStays(s, rs[..|rs| - 1]);
    }
  }

  lemma {:induction false} RunConcat(s: Share, first: seq<Request>, more: seq<Request>)
    ensures Run(s, first + more) == Run(Run(s, first), more)
  {
    hide After;
    var all := first + more;
    if more == [] {
      assert all == first;
    } else {
      assert all[..|all| - 1] == first + more[..|more| - 1];
      RunConcat(s, first, more[..|more| - 1]);
    }
  }

  /** A share is revoked exactly by a revocation that names its workstation. */
  lemma {:induction false} RevokedExactly(s: Share, rs: seq<Request>)
    ensures Run(s, rs).revoked <==> s.revoked || exists i :: 0 <= i < |rs| && rs[i] == Revoke(s.workstation)
    ensures Run(s, rs).(uses := s.uses, revoked := s.revoked) == s
  {
    hide Live;
    if rs != [] {
      var before, last := rs[..|rs| - 1], rs[|rs| - 1];
      RevokedExactly(s, before);
      assert forall i :: 0 <= i < |before| ==> rs[i] == before[i];
    }
  }

  /** Exactly what is granted after any run: only for the share's own workstation, and only while it lasts. */
  lemma GrantedExactly(s: Share, rs: seq<Request>, next: Request)
    ensures
      var revoked := s.revoked || exists i :: 0 <= i < |rs| && rs[i] == Revoke(s.workstation);
      Granted(Run(s, rs), next) <==>
      && !revoked
      && match next
         case Redeem(now) =>
           && (s.expires.Some? ==> Unexpired(s.expires.value, now))
           && (s.maxUses.Some? ==> s.uses + Redemptions(s, rs) < s.maxUses.value)
         case Validate(workstation, now) =>
           workstation == s.workstation && (s.expires.Some? ==> Unexpired(s.expires.value, now))
         case Revoke(workstation) => workstation == s.workstation
  {
    RevokedExactly(s, rs);
    UsesCountRedemptions(s, rs);
    hide Unexpired, Run, Redemptions;
  }

  /** Once a revocation has succeeded, nothing is granted again. */
  lemma NothingAfterRevocation(s: Share, first: seq<Request>, revoke: Request, more: seq<Request>, next: Request)
    requires revoke.Revoke? && Granted(Run(s, first), revoke)
    ensures !Granted(Run(s, first + [revoke] + more), next)
  {
    RunConcat(s, first, [revoke]);
    RunConcat(s, first + [revoke], more);
    assert [revoke][..0] == [];
    assert Run(Run(s, first), [revoke]) == After(Run(s, first), revoke);
    RevokedStays(Run(s, first + [revoke]), more);
  }

  /** A full second or more after expiry nothing is granted, whatever was done to the share before. */
  lemma NothingAfterExpiry(s: Share, rs: seq<Request>, next: Request)
    requires !next.Revoke? && s.expires.Some? && Valid(s.expires.value) && Valid(next.now)
    requires Nanoseconds(next.now) >= Nanoseconds(s.expires.value) + 1_000_000_000
    ensures !Granted(Run(s, rs), next)
  {
    hide Unexpired, Valid;
    UsesCountRedemptions(s, rs);
    ExpiryIsSharpToOneSecond(s.expires.value, next.now);
  }

  class Row {
    var share: Share

    constructor (share: Share)
      ensures this.share == share
    {
      this.share := share;
    }

    method RedeemShare(now: Civil) returns (granted: Option<Share>)
      modifies this
      ensures granted.Some? <==> Granted(old(share), Redeem(now))
      ensures share == After(old(share), Redeem(now)) && (granted.Some? ==> granted.value == share)
    {
      hide Unexpired;
      var s := share;
      if s.revoked || (s.expires.Some? && !Unexpired(s.expires.value, now))
         || (s.maxUses.Some? && s.uses >= s.maxUses.value) {
        return None;
      }
      share := s.(uses := s.uses + 1);
      return Some(share);
    }

    method ValidateShare(workstation: string, now: Civil) returns (ok: bool)
      ensures ok <==> Granted(share, Validate(workstation, now))
      ensures After(share, Validate(workstation, now)) == share
    {
      ok := share.workstation == workstation && !share.revoked
            && (share.expires.None? || Unexpired(share.expires.value, now));
    }

    method RevokeShare(workstation: string) returns (changed: bool)
      modifies this
      ensures changed <==> Granted(old(share), Revoke(workstation))
      ensures share == After(old(share), Revoke(workstation))
    {
      changed := share.workstation == workstation && !share.revoked;
      if changed {
        share := share.(revoked := true);
      }
    }
  }
}
