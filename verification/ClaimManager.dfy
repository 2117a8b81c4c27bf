/** SymphonyClaimManager (src/symphony/claim.ts) with each method run alone on the claim table. */
module ClaimManager {
  import opened Wrappers
  import opened ClaimTable
  import opened ClaimProtocol
  import opened LockKeys

  datatype Level = GlobalLevel | ProjectLevel | HostLevel | StateLevel

  /** One concurrency level: how many runs it counts now, and its limit if it has one. */
  datatype Usage = Usage(count: nat, limit: Option<nat>)

  datatype Usages = Usages(globally: Usage, inProject: Usage, onHost: Usage, inState: Usage)

  datatype Reply =
    | Granted(id: nat, epoch: int)
    | Taken
    | Full(level: Level)
    | LockFailed

  predicate Reached(u: Usage) {
    u.limit.Some? && u.count >= u.limit.value
  }

  /** Room for one more at every level that has a limit. */
  predicate HasRoom(u: Usages) {
    && (u.globally.limit.Some? ==> u.globally.count + 1 <= u.globally.limit.value)
    && (u.inProject.limit.Some? ==> u.inProject.count + 1 <= u.inProject.limit.value)
    && (u.onHost.limit.Some? ==> u.onHost.count + 1 <= u.onHost.limit.value)
    && (u.inState.limit.Some? ==> u.inState.count + 1 <= u.inState.limit.value)
  }

  /** An unexpired live claim of the item, made with the same idempotency key. */
  predicate IsRepeat(c: Claim, o: Options, now: int) {
    && c.item == o.item && c.status in {Pending, Assigned, Active} && now < c.leaseExpiresAt
    && o.idempotencyKey.Some? && c.idempotencyKey.Some? && c.idempotencyKey.value == o.idempotencyKey.value
  }

  class SymphonyClaimManager {
    var claims: Claims

    /** The table keeps one live claim per item and consecutive epochs. */
    ghost predicate Valid()
      reads this
    {
      EpochsInOrder(claims) && OneLive(claims)
    }

    constructor ()
      ensures Valid() && claims == []
    {
      claims := [];
    }

    /** claimWorkItem: repeats an unexpired claim made with the same key; otherwise fails on a key that is
        no lock key, refuses an item that is taken, then the first level that is full; otherwise appends a
        live claim with a fresh epoch. */
    method ClaimWorkItem(o: Options, u: Usages, now: int, until: int) returns (r: Reply)
      requires Valid()
      modifies this
      ensures Valid()
      ensures FoundReusable(old(claims), o, now) ==>
        && claims == old(claims) && r.Granted?
        && r.id < |claims| && Reusable(claims[r.id], o, now) && r.epoch == claims[r.id].epoch
      ensures r == LockFailed <==> !FoundReusable(old(claims), o, now) && !KeysFit(o)
      ensures !FoundReusable(old(claims), o, now) && KeysFit(o) && HasLive(old(claims), o.item, {}) ==> r == Taken
      ensures r.Taken? ==> HasLive(old(claims), o.item, {})
      ensures FoundReusable(old(claims), o, now) <==>
        exists i :: 0 <= i < |old(claims)| && IsRepeat(old(claims)[i], o, now)
      ensures HasLive(old(claims), o.item, {}) <==>
        exists i :: 0 <= i < |old(claims)| && old(claims)[i].item == o.item && old(claims)[i].status in {Pending, Assigned, Active}
      ensures r == Full(GlobalLevel) ==> Reached(u.globally)
      ensures r == Full(ProjectLevel) ==> !Reached(u.globally) && Reached(u.inProject)
      ensures r == Full(HostLevel) ==> !Reached(u.globally) && !Reached(u.inProject) && Reached(u.onHost)
      ensures r == Full(StateLevel) ==>
        !Reached(u.globally) && !Reached(u.inProject) && !Reached(u.onHost) && Reached(u.inState)
      ensures r.Full? ==> !HasRoom(u)
      ensures !r.Granted? ==> claims == old(claims)
      ensures r.Granted? && !FoundReusable(old(claims), o, now) ==>
        && HasRoom(u) && !HasLive(old(claims), o.item, {})
        && r.id == |old(claims)|
        && claims == old(claims) + [Claim(o.item, o.orchestrator, Active, r.epoch, until, None, o.idempotencyKey)]
        && forall i :: 0 <= i < |old(claims)| && old(claims)[i].item == o.item ==> old(claims)[i].epoch < r.epoch
    {
      assert forall i :: 0 <= i < |claims| ==> (Reusable(claims[i], o, now) <==> IsRepeat(claims[i], o, now));
      if o.idempotencyKey.Some? && FoundReusable(claims, o, now) {
        var i := PickReusable(claims, o, now);
        return Granted(i, claims[i].epoch);
      }
      if !IsLockKey(o.projectKey) || !IsLockKey(o.hostKey) { return LockFailed; }
      if HasLive(claims, o.item, {}) { return Taken; }
      if Reached(u.globally) { return Full(GlobalLevel); }
      if Reached(u.inProject) { return Full(ProjectLevel); }
      if Reached(u.onHost) { return Full(HostLevel); }
      if Reached(u.inState) { return Full(StateLevel); }
      var epoch := MaxEpoch(claims, o.item) + 1;
      AppendKeeps(claims, Claim(o.item, o.orchestrator, Active, epoch, until, None, o.idempotencyKey));
      claims := claims + [Claim(o.item, o.orchestrator, Active, epoch, until, None, o.idempotencyKey)];
      r := Granted(|claims| - 1, epoch);
    }

    method ReleaseClaim(id: nat, now: int) returns (changed: bool)
      requires Valid()
      modifies this
      ensures Valid() && claims == Release(old(claims), id, now)
      ensures changed <==> id < |old(claims)| && Live(old(claims)[id])
      ensures id < |claims| ==> !Live(claims[id])
      ensures |claims| == |old(claims)| && forall i :: 0 <= i < |claims| && i != id ==> claims[i] == old(claims)[i]
      ensures changed ==> claims[id] == old(claims)[id].(status := Released, releasedAt := Some(now))
      ensures !changed ==> claims == old(claims)
    {
      changed := id < |claims| && Live(claims[id]);
      QuietKeepsValid(claims, Release(claims, id, now));
      claims := Release(claims, id, now);
    }

    /** renewLease never revives a claim that is no longer live. */
    method RenewLease(id: nat, until: int) returns (changed: bool)
      requires Valid()
      modifies this
      ensures Valid() && claims == Renew(old(claims), id, until)
      ensures changed <==> id < |old(claims)| && Live(old(claims)[id])
      ensures |claims| == |old(claims)| && forall i :: 0 <= i < |claims| && i != id ==> claims[i] == old(claims)[i]
      ensures changed ==> claims[id] == old(claims)[id].(leaseExpiresAt := until)
      ensures !changed ==> claims == old(claims)
    {
      changed := id < |claims| && Live(claims[id]);
      QuietKeepsValid(claims, Renew(claims, id, until));
      claims := Renew(claims, id, until);
    }

    /** expireStaleClaims: afterwards no selected lease is both live and past its end. */
    method ExpireStaleClaims(owner: Option<string>, now: int) returns (n: nat)
      requires Valid()
      modifies this
      ensures Valid() && claims == Expire(old(claims), owner, now)
      ensures n == |set i | 0 <= i < |old(claims)| && Stale(old(claims)[i], owner, now)|
      ensures forall i :: 0 <= i < |claims| && Live(claims[i]) && (owner == None || owner == Some(claims[i].orchestrator)) ==>
        claims[i].leaseExpiresAt >= now
      ensures |claims| == |old(claims)| && forall i :: 0 <= i < |claims| ==>
        claims[i] ==
          if Live(old(claims)[i]) && old(claims)[i].leaseExpiresAt < now && (owner == None || owner == Some(old(claims)[i].orchestrator))
          then old(claims)[i].(status := Expired, releasedAt := Some(now)) else old(claims)[i]
    {
      n := |set i | 0 <= i < |claims| && Stale(claims[i], owner, now)|;
      QuietKeepsValid(claims, Expire(claims, owner, now));
      claims := Expire(claims, owner, now);
    }
  }

  lemma QuietKeepsValid(a: Claims, b: Claims)
    requires EpochsInOrder(a) && OneLive(a) && |a| == |b|
    requires forall i :: 0 <= i < |a| ==>
      b[i].item == a[i].item && b[i].epoch == a[i].epoch && (Live(b[i]) ==> Live(a[i]))
    ensures EpochsInOrder(b) && OneLive(b)
  {
    QuietUpdate(System(a, map[], map[]), b);
  }

  lemma AppendKeeps(claims: Claims, row: Claim)
    requires EpochsInOrder(claims) && OneLive(claims)
    requires row.epoch == MaxEpoch(claims, row.item) + 1 && !HasLive(claims, row.item, {})
    ensures EpochsInOrder(claims + [row]) && OneLive(claims + [row])
    ensures forall i :: 0 <= i < |claims| && claims[i].item == row.item ==> claims[i].epoch < row.epoch
  {
    MaxEpochIsCount(claims, row.item);
    AppendFits(claims, row);
    assert claims[..|claims|] == claims;
    forall i | 0 <= i < |claims| && claims[i].item == row.item ensures claims[i].epoch < row.epoch {
      CountMonotone(claims, i + 1, |claims|, row.item);
      assert claims[..i + 1][..i] == claims[..i];
    }
  }
}
