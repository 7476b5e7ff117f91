// `bbblb tenant create|remove|override`.

module TenantCli {
  import opened Base
  import opened Model
  import opened OverrideCli

  /** Python's `a or b` on an optional string: None and "" are false. */
  function Or(a: Option<string>, b: string): (r: string)
    ensures a.Some? && a.value != "" ==> r == a.value
    ensures a.None? || a.value == "" ==> r == b
  {
    if a.Some? && a.value != "" then a.value else b
  }

  /** The row `create` leaves: realm and secret are the given values, else
      the existing ones, else `name.DOMAIN` and the random token; a new
      tenant is enabled and has no meetings. */
  function CreatedTenant(existing: Option<TenantRow>, name: string, realm: Option<string>, secret: Option<string>,
                         domain: string, token: string): (r: TenantRow)
    ensures realm.Some? && realm.value != "" ==> r.realm == realm.value
    ensures (realm.None? || realm.value == "") && existing.Some? && existing.value.realm != "" ==> r.realm == existing.value.realm
    ensures (realm.None? || realm.value == "") && (existing.None? || existing.value.realm == "") ==> r.realm == name + "." + domain
    ensures secret.Some? && secret.value != "" ==> r.secret == secret.value
    ensures (secret.None? || secret.value == "") && existing.Some? && existing.value.secret != "" ==> r.secret == existing.value.secret
    ensures (secret.None? || secret.value == "") && (existing.None? || existing.value.secret == "") ==> r.secret == token
    ensures existing.Some? ==> r.enabled == existing.value.enabled && r.meetings == existing.value.meetings
    ensures existing.None? ==> r.enabled && r.meetings == {}
  {
    var oldRealm := if existing.Some? then Some(existing.value.realm) else None;
    var oldSecret := if existing.Some? then Some(existing.value.secret) else None;
    var base := if existing.Some? then existing.value else TenantRow("", "", true, {});
    base.(realm := Or(realm, Or(oldRealm, name + "." + domain)), secret := Or(secret, Or(oldSecret, token)))
  }

  /** `tenant create`. An existing name without --update is refused
      (RuntimeError) and nothing changes; otherwise the row is created or
      updated and committed. `token` stands for `secrets.token_urlsafe(16)`. */
  method Create(reg: Registry, name: string, update: bool, realm: Option<string>, secret: Option<string>,
                domain: string, token: string) returns (r: Result<string, string>)
    modifies reg`tenants
    ensures r.Err? <==> name in old(reg.tenants) && !update
    ensures r.Err? ==> reg.tenants == old(reg.tenants)
    ensures r.Ok? ==> r.value == (if name in old(reg.tenants) then "UPDATED" else "CREATED")
    ensures r.Ok? ==> reg.tenants == old(reg.tenants)[name :=
      CreatedTenant(if name in old(reg.tenants) then Some(old(reg.tenants)[name]) else None, name, realm, secret, domain, token)]
  {
    var existing := if name in reg.tenants then Some(reg.tenants[name]) else None;
    if existing.Some? && !update {
      return Err("Tenant with name " + name + " already exists.");
    }
    var action := if existing.None? then "CREATED" else "UPDATED";
    reg.tenants := reg.tenants[name := CreatedTenant(existing, name, realm, secret, domain, token)];
    return Ok(action);
  }

  /** `tenant remove`: an unknown name only gets a message. */
  method Remove(reg: Registry, name: string) returns (found: bool)
    modifies reg`tenants
    ensures found <==> name in old(reg.tenants)
    ensures reg.tenants == old(reg.tenants) - {name}
  {
    if name !in reg.tenants {
      return false;
    }
    reg.tenants := reg.tenants - {name};
    return true;
  }

  /** `tenant override`: exit status 1 for an unknown tenant and for an
      argument that does not parse, which leaves the transaction and so the
      clear rolled back; otherwise the clear (with --clear) and the additions
      are committed. Unlike `override set`, a call without any argument is
      accepted. */
  method Override(reg: Registry, name: string, clear: bool, overrides: seq<string>) returns (exit: int)
    modifies reg`overrideCalls
    ensures exit == 0 || exit == 1
    ensures exit == 0 <==> name in reg.tenants && forall i :: 0 <= i < |overrides| ==> ParseOverride(overrides[i]).Some?
    ensures exit == 0 ==>
      reg.overrideCalls == old(reg.overrideCalls) + (if clear then [ClearOverrides(name)] else []) + AddCalls(name, overrides)
    ensures exit == 1 ==> reg.overrideCalls == old(reg.overrideCalls)
  {
    if name !in reg.tenants {
      return 1;
    }
    var calls: seq<OverrideCall> := if clear then [ClearOverrides(name)] else [];
    var adds := CollectAdds(name, overrides);
    if adds.None? {
      return 1;
    }
    reg.overrideCalls := reg.overrideCalls + calls + adds.value;
    return 0;
  }

  /** Updating without --realm and --secret keeps a row whose realm and
      secret are set, so a second `create --update` changes nothing. */
  lemma UpdateIdempotent(t: TenantRow, name: string, domain: string, token: string)
    requires t.realm != "" && t.secret != ""
    ensures CreatedTenant(Some(t), name, None, None, domain, token) == t
  {
  }

  /** The row a first `create` leaves is kept by a later plain update. */
  lemma CreateThenUpdate(name: string, realm: Option<string>, secret: Option<string>, domain: string, token: string, token2: string)
    requires token != ""
    ensures var t := CreatedTenant(None, name, realm, secret, domain, token);
      CreatedTenant(Some(t), name, None, None, domain, token2) == t
  {
    var t := CreatedTenant(None, name, realm, secret, domain, token);
    assert t.realm != "" by {
      if !(realm.Some? && realm.value != "") {
        assert |name + "." + domain| > 0;
      }
    }
    UpdateIdempotent(t, name, domain, token2);
  }
}
