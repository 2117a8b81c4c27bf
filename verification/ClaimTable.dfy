/** The symphony_claim table and its single-statement writers. A claim's id is its position: rows are
    appended and never deleted. */
module ClaimTable {
  import opened Wrappers

  datatype ClaimStatus = Pending | Assigned | Active | Released | Expired | Completed

  datatype Claim = Claim(
    item: string, orchestrator: string, status: ClaimStatus, epoch: int, leaseExpiresAt: int,
    releasedAt: Option<int>, idempotencyKey: Option<string>)

  type Claims = seq<Claim>

  predicate Live(c: Claim) {
    c.status in {Pending, Assigned, Active}
  }

  /** releaseClaim. */
  function Release(claims: Claims, id: nat, now: int): (r: Claims)
    ensures |r| == |claims|
  {
    if id < |claims| && Live(claims[id])
    then claims[id := claims[id].(status := Released, releasedAt := Some(now))] else claims
  }

  /** renewLease. */
  function Renew(claims: Claims, id: nat, until: int): (r: Claims)
    ensures |r| == |claims|
  {
    if id < |claims| && Live(claims[id]) then claims[id := claims[id].(leaseExpiresAt := until)] else claims
  }

  /** A row the expiry UPDATE selects; without an orchestrator it selects everyone's. */
  predicate Stale(c: Claim, owner: Option<string>, now: int) {
    Live(c) && c.leaseExpiresAt < now && (owner.Some? ==> c.orchestrator == owner.value)
  }

  /** expireStaleClaims. */
  function Expire(claims: Claims, owner: Option<string>, now: int): (r: Claims)
    ensures |r| == |claims|
  {
    seq(|claims|, i requires 0 <= i < |claims| =>
      if Stale(claims[i], owner, now) then claims[i].(status := Expired, releasedAt := Some(now)) else claims[i])
  }

  /** Recovery's release of every live claim of one orchestrator. */
  function ReleaseAllOf(claims: Claims, owner: string, now: int): (r: Claims)
    ensures |r| == |claims|
  {
    seq(|claims|, i requires 0 <= i < |claims| =>
      if Live(claims[i]) && claims[i].orchestrator == owner
      then claims[i].(status := Released, releasedAt := Some(now)) else claims[i])
  }
}
