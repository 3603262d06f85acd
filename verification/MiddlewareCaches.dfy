/** The two in-process caches as the middleware updates them. */
module MiddlewareCaches {
  import opened Common
  import opened BusCaches

  /** permCache of src/middleware/authorize.ts. */
  class PermissionCache {
    var permCache: Cache

    constructor ()
      ensures permCache == map[]
    {
      permCache := map[];
    }

    method Forget(userId: string)
      modifies this
      ensures permCache == ForgetPermissions(old(permCache), userId)
    {
      if userId == "" {
        permCache := map[];
        return;
      }
      var keys := permCache.Keys;
      while keys != {}
        invariant keys <= old(permCache).Keys
        invariant permCache.Keys <= old(permCache).Keys
        invariant forall key :: key in permCache ==> permCache[key] == old(permCache)[key]
        invariant forall key :: key in keys ==> key in permCache
        invariant forall key :: key in old(permCache) && key !in keys ==> (key in permCache <==> !(userId + ":" <= key))
        decreases |keys|
      {
        var key :| key in keys;
        if userId + ":" <= key { permCache := permCache - {key}; }
        keys := keys - {key};
      }
      assert permCache == ForgetPermissions(old(permCache), userId);
    }

    /** matrixAllows up to its await: a usable cached answer, or none and the query is sent. */
    method MatrixAllows(userId: string, rest: string, now: nat) returns (cached: Option<bool>)
      ensures cached == Lookup(permCache, PermissionKey(userId, rest), now)
      ensures var key := userId + ":" + rest;
        && (cached.Some? <==> key in permCache && now < permCache[key].expires)
        && (cached.Some? ==> cached.value == permCache[key].value)
    {
      var key := PermissionKey(userId, rest);
      if key in permCache && permCache[key].expires > now { return Some(permCache[key].value); }
      cached := None;
    }

    /** The rest of matrixAllows: the answer is cached for `ttlMs` and returned. */
    method MatrixAnswered(userId: string, rest: string, now: nat, ttlMs: nat, epoch: nat, query: nat, answer: bool)
      returns (allowed: bool)
      modifies this
      ensures allowed == answer
      ensures permCache == Store(old(permCache), PermissionKey(userId, rest), Some(answer), now + ttlMs, epoch, query)
    {
      permCache := permCache[PermissionKey(userId, rest) := Entry(answer, now + ttlMs, epoch, query)];
      allowed := answer;
    }
  }

  /** tenantCache of src/middleware/tenant-context.ts. */
  class TenantCache {
    var tenantCache: Cache

    constructor ()
      ensures tenantCache == map[]
    {
      tenantCache := map[];
    }

    method Forget(tenantId: string)
      modifies this
      ensures tenantCache == ForgetTenant(old(tenantCache), tenantId)
    {
      if tenantId != "" { tenantCache := tenantCache - {tenantId}; } else { tenantCache := map[]; }
    }

    /** getTenantStatus up to its await. */
    method GetTenantStatus(tenantId: string, now: nat) returns (cached: Option<bool>)
      ensures cached == Lookup(tenantCache, tenantId, now)
      ensures cached.Some? <==> tenantId in tenantCache && now < tenantCache[tenantId].expires
      ensures cached.Some? ==> cached.value == tenantCache[tenantId].value
    {
      if tenantId in tenantCache && tenantCache[tenantId].expires > now { return Some(tenantCache[tenantId].value); }
      cached := None;
    }

    /** The rest: None means the tenant does not exist; that is never cached, and drops what was. */
    method TenantAnswered(tenantId: string, now: nat, ttlMs: nat, epoch: nat, query: nat, row: Option<bool>)
      returns (status: Option<bool>)
      modifies this
      ensures status == row
      ensures tenantCache == Store(old(tenantCache), tenantId, row, now + ttlMs, epoch, query)
    {
      status := row;
      if row.None? {
        tenantCache := tenantCache - {tenantId};
        return;
      }
      tenantCache := tenantCache[tenantId := Entry(row.value, now + ttlMs, epoch, query)];
    }
  }
}
