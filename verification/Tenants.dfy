/** Tenants, their API keys and request validation (kurd/multitenancy.py:30-166). */
module Tenants {
  import opened Options
  import opened TenantQuota
  import opened ToolAccess

  class Tenant {
    const id: string
    const apiKey: string
    var quotaRps: int
    var allowedTools: set<string>
    var enabled: bool
    var window: Window

    constructor (id: string, apiKey: string, quotaRps: int, allowedTools: set<string>, now: int)
      ensures this.id == id && this.apiKey == apiKey && this.quotaRps == quotaRps
      ensures this.allowedTools == allowedTools && enabled && window == Window(0, now)
    {
      this.id, this.apiKey, this.quotaRps, this.allowedTools := id, apiKey, quotaRps, allowedTools;
      enabled, window := true, Window(0, now);
    }

    method CheckQuota(now: int) returns (ok: bool)
      modifies this`window
      ensures (window, ok) == Check(old(window), quotaRps, now)
    {
      if now - window.lastReset > SECOND {
        window := window.(count := 0);
        window := window.(lastReset := now);
      }
      if window.count >= quotaRps {
        return false;
      }
      window := window.(count := window.count + 1);
      return true;
    }

    method GetQuotaRemaining(now: int) returns (left: int)
      modifies this`window
      ensures window == Refresh(old(window), now)
      ensures left == Remaining(old(window), quotaRps, now) >= 0
      ensures left > 0 <==> Check(old(window), quotaRps, now).1
    {
      if now - window.lastReset > SECOND {
        window := Window(0, now);
      }
      left := if quotaRps - window.count > 0 then quotaRps - window.count else 0;
    }
  }

  datatype Verdict = Allowed | InvalidKey | Disabled | ToolForbidden | QuotaExceeded

  datatype Removal = Removed | NoSuchTenant | KeyError

  class TenantManager {
    var tenants: map<string, Tenant>
    var apiKeyToTenant: map<string, string>

    /** Each tenant is filed under its own id. */
    ghost predicate Valid()
      reads this
    {
      forall id | id in tenants :: tenants[id].id == id
    }

    /** The two maps are mutually inverse: the index leads from each tenant's key, and only from those, back to it. */
    ghost predicate Indexed()
      reads this
    {
      && (forall id | id in tenants :: tenants[id].apiKey in apiKeyToTenant && apiKeyToTenant[tenants[id].apiKey] == id)
      && (forall key | key in apiKeyToTenant ::
            apiKeyToTenant[key] in tenants && tenants[apiKeyToTenant[key]].apiKey == key)
    }

    constructor ()
      ensures Valid() && Indexed() && tenants == map[] && apiKeyToTenant == map[]
    {
      tenants, apiKeyToTenant := map[], map[];
    }

    /** Refuses an id in use. A key in use is not refused: it is taken over by the new tenant, and the index stays the
        inverse of the table exactly when that does not happen. */
    method AddTenant(id: string, apiKey: string, quotaRps: int, allowedTools: set<string>, now: int)
        returns (added: bool)
      requires Valid()
      modifies this
      ensures Valid()
      ensures added <==> id !in old(tenants)
      ensures !added ==> tenants == old(tenants) && apiKeyToTenant == old(apiKeyToTenant)
      ensures added ==>
                && id in tenants && fresh(tenants[id]) && tenants == old(tenants)[id := tenants[id]]
                && tenants[id].apiKey == apiKey && tenants[id].quotaRps == quotaRps && tenants[id].enabled
                && tenants[id].allowedTools == (if allowedTools == {} then {"*"} else allowedTools)
                && tenants[id].window == Window(0, now)
                && apiKeyToTenant == old(apiKeyToTenant)[apiKey := id]
      ensures old(Indexed()) && added ==> (Indexed() <==> apiKey !in old(apiKeyToTenant))
    {
      if id in tenants {
        return false;
      }
      var tenant := new Tenant(id, apiKey, quotaRps, if allowedTools == {} then {"*"} else allowedTools, now);
      tenants := tenants[id := tenant];
      apiKeyToTenant := apiKeyToTenant[apiKey := id];
      if old(Indexed()) && apiKey in old(apiKeyToTenant) {
        var owner := old(apiKeyToTenant)[apiKey];
        assert owner in tenants && tenants[owner].apiKey == apiKey && apiKeyToTenant[apiKey] == id != owner;
      }
      return true;
    }

    /** Deleting the index entry comes first and raises when it is missing, which cannot happen while the index is the
        inverse of the table. */
    method RemoveTenant(id: string) returns (r: Removal)
      requires Valid()
      modifies this
      ensures Valid()
      ensures r.NoSuchTenant? <==> id !in old(tenants)
      ensures r.KeyError? <==> id in old(tenants) && old(tenants)[id].apiKey !in old(apiKeyToTenant)
      ensures r.Removed? ==>
                && tenants == old(tenants) - {id}
                && apiKeyToTenant == old(apiKeyToTenant) - {old(tenants)[id].apiKey}
      ensures !r.Removed? ==> tenants == old(tenants) && apiKeyToTenant == old(apiKeyToTenant)
      ensures old(Indexed()) ==> Indexed() && !r.KeyError?
    {
      if id !in tenants {
        return NoSuchTenant;
      }
      var tenant := tenants[id];
      if tenant.apiKey !in apiKeyToTenant {
        return KeyError;
      }
      apiKeyToTenant := apiKeyToTenant - {tenant.apiKey};
      tenants := tenants - {id};
      return Removed;
    }

    /** An empty tenant id counts as no tenant. */
    function TenantByApiKey(apiKey: string): (r: Option<Tenant>)
      reads this
    {
      if apiKey in apiKeyToTenant && apiKeyToTenant[apiKey] != "" && apiKeyToTenant[apiKey] in tenants
      then Some(tenants[apiKeyToTenant[apiKey]]) else None
    }

    /** A request consumes quota only once key, state and tool have been accepted, and only its own tenant's. */
    method ValidateRequest(apiKey: string, tool: string, now: int) returns (v: Verdict)
      requires Valid()
      modifies tenants.Values`window
      ensures TenantByApiKey(apiKey).None? ==> v == InvalidKey
      ensures TenantByApiKey(apiKey).Some? ==>
                var t := TenantByApiKey(apiKey).value;
                var (window, ok) := Check(old(t.window), t.quotaRps, now);
                && v == (if !t.enabled then Disabled
                         else if !CanCall(t.allowedTools, tool) then ToolForbidden
                         else if !ok then QuotaExceeded else Allowed)
                && t.window == if v.Allowed? || v.QuotaExceeded? then window else old(t.window)
      ensures forall id | id in tenants && Some(tenants[id]) != TenantByApiKey(apiKey) ::
                tenants[id].window == old(tenants[id].window)
    {
      var found := TenantByApiKey(apiKey);
      if found.None? {
        return InvalidKey;
      }
      var tenant := found.value;
      assert tenant in tenants.Values;
      if !tenant.enabled {
        return Disabled;
      }
      if !CanCall(tenant.allowedTools, tool) {
        return ToolForbidden;
      }
      var ok := tenant.CheckQuota(now);
      return if ok then Allowed else QuotaExceeded;
    }

    /** While the index is the inverse of the table, a key finds a tenant exactly when some tenant with a non-empty id
        has that key, and it finds that tenant. */
    lemma {:induction false} KeyFindsItsTenant(apiKey: string)
      requires Valid() && Indexed()
      ensures forall id | id in tenants && id != "" && tenants[id].apiKey == apiKey ::
                TenantByApiKey(apiKey) == Some(tenants[id])
      ensures (forall id | id in tenants && id != "" :: tenants[id].apiKey != apiKey) ==> TenantByApiKey(apiKey).None?
    {
    }
  }
}
