// `bbblb state save` and `bbblb state load`: exporting the servers and
// tenants as a JSON document, and reconciling the tables with such a
// document.

module StateCli {
  import opened Model

  /** The entries of the JSON document. */
  datatype ServerConf = ServerConf(secret: string, enabled: bool)

  datatype TenantConf = TenantConf(secret: string, realm: string, enabled: bool)

  datatype StateFile = StateFile(servers: map<string, ServerConf>, tenants: map<string, TenantConf>)

  /** `logchange`: the attribute takes the new value, and the run counts as
      changed when the old value was different. */
  function LogChange<T(==)>(current: T, value: T, changes: bool): (r: (T, bool))
    ensures r.0 == value
    ensures r.1 <==> changes || current != value
  {
    if current == value then (current, changes) else (value, true)
  }

  // ---------------------------------------------------------------------
  // Create or modify

  /** The row of a server named in the document: the document's secret and
      enabled flag, and the meetings it had. */
  function ServerFromConf(servers: map<string, ServerRow>, conf: ServerConf, d: string): ServerRow {
    ServerRow(conf.secret, conf.enabled, if d in servers then servers[d].meetings else {})
  }

  /** The servers after the create-or-modify loop: every server of the
      document has its secret and enabled flag; the others are untouched. */
  function UpsertedServers(servers: map<string, ServerRow>, confs: map<string, ServerConf>): (r: map<string, ServerRow>)
    ensures forall d :: d in r <==> d in servers || d in confs
    ensures forall d :: d in confs ==> r[d] == ServerFromConf(servers, confs[d], d)
    ensures forall d :: d in servers && d !in confs ==> r[d] == servers[d]
  {
    map d | d in servers.Keys + confs.Keys :: if d in confs then ServerFromConf(servers, confs[d], d) else servers[d]
  }

  /** A server of the document that is new or differs from its row. */
  predicate ServerDiffers(servers: map<string, ServerRow>, confs: map<string, ServerConf>, d: string)
    requires d in confs
  {
    d !in servers || servers[d].secret != confs[d].secret || servers[d].enabled != confs[d].enabled
  }

  /** One iteration of the servers loop: a missing server is created (a
      change), then its secret and enabled flag are set, logging a change
      when either differed. */
  method UpsertServer(rows: map<string, ServerRow>, domain: string, conf: ServerConf, changes: bool)
    returns (out: map<string, ServerRow>, changed: bool)
    ensures out == rows[domain := ServerRow(conf.secret, conf.enabled, if domain in rows then rows[domain].meetings else {})]
    ensures changed <==> changes || domain !in rows || rows[domain].secret != conf.secret || rows[domain].enabled != conf.enabled
  {
    var row: ServerRow;
    changed := changes;
    if domain !in rows {
      row := ServerRow("", true, {});
      changed := true;
    } else {
      row := rows[domain];
    }
    var secret := LogChange(row.secret, conf.secret, changed);
    var enabled := LogChange(row.enabled, conf.enabled, secret.1);
    changed := enabled.1;
    out := rows[domain := ServerRow(secret.0, enabled.0, row.meetings)];
  }

  /** The servers loop, in document order. */
  method UpsertServers(servers: map<string, ServerRow>, confs: map<string, ServerConf>, order: seq<string>)
    returns (out: map<string, ServerRow>, changes: bool)
    requires forall d :: d in confs <==> d in order
    ensures out == UpsertedServers(servers, confs)
    ensures changes <==> exists d :: d in confs && ServerDiffers(servers, confs, d)
  {
    out := servers;
    changes := false;
    ghost var done: set<string> := {};
    var i := 0;
    while i < |order|
      invariant 0 <= i <= |order|
      invariant done == set j | 0 <= j < i :: order[j]
      invariant done <= confs.Keys
      invariant out.Keys == servers.Keys + done
      invariant forall d :: d in out ==> out[d] == if d in done then ServerFromConf(servers, confs[d], d) else servers[d]
      invariant changes <==> exists d :: d in done && ServerDiffers(servers, confs, d)
    {
      var domain := order[i];
      out, changes := UpsertServer(out, domain, confs[domain], changes);
      done := done + {domain};
      i := i + 1;
    }
    assert done == confs.Keys;
  }

  function TenantFromConf(tenants: map<string, TenantRow>, conf: TenantConf, n: string): TenantRow {
    TenantRow(conf.secret, conf.realm, conf.enabled, if n in tenants then tenants[n].meetings else {})
  }

  function UpsertedTenants(tenants: map<string, TenantRow>, confs: map<string, TenantConf>): (r: map<string, TenantRow>)
    ensures forall n :: n in r <==> n in tenants || n in confs
    ensures forall n :: n in confs ==> r[n] == TenantFromConf(tenants, confs[n], n)
    ensures forall n :: n in tenants && n !in confs ==> r[n] == tenants[n]
  {
    map n | n in tenants.Keys + confs.Keys :: if n in confs then TenantFromConf(tenants, confs[n], n) else tenants[n]
  }

  predicate TenantDiffers(tenants: map<string, TenantRow>, confs: map<string, TenantConf>, n: string)
    requires n in confs
  {
    n !in tenants || tenants[n].secret != confs[n].secret || tenants[n].realm != confs[n].realm
      || tenants[n].enabled != confs[n].enabled
  }

  /** One iteration of the tenants loop: a missing tenant is created (a
      change), then its secret, realm and enabled flag are set, logging a
      change when any of them differed. */
  method UpsertTenant(rows: map<string, TenantRow>, name: string, conf: TenantConf, changes: bool)
    returns (out: map<string, TenantRow>, changed: bool)
    ensures out == rows[name := TenantRow(conf.secret, conf.realm, conf.enabled, if name in rows then rows[name].meetings else {})]
    ensures changed <==>
      changes || name !in rows || rows[name].secret != conf.secret || rows[name].realm != conf.realm || rows[name].enabled != conf.enabled
  {
    var row: TenantRow;
    changed := changes;
    if name !in rows {
      row := TenantRow("", "", true, {});
      changed := true;
    } else {
      row := rows[name];
    }
    var secret := LogChange(row.secret, conf.secret, changed);
    var realm := LogChange(row.realm, conf.realm, secret.1);
    var enabled := LogChange(row.enabled, conf.enabled, realm.1);
    changed := enabled.1;
    out := rows[name := TenantRow(secret.0, realm.0, enabled.0, row.meetings)];
  }

  /** The tenants loop, in document order. */
  method UpsertTenants(tenants: map<string, TenantRow>, confs: map<string, TenantConf>, order: seq<string>)
    returns (out: map<string, TenantRow>, changes: bool)
    requires forall n :: n in confs <==> n in order
    ensures out == UpsertedTenants(tenants, confs)
    ensures changes <==> exists n :: n in confs && TenantDiffers(tenants, confs, n)
  {
    out := tenants;
    changes := false;
    ghost var done: set<string> := {};
    var i := 0;
    while i < |order|
      invariant 0 <= i <= |order|
      invariant done == set j | 0 <= j < i :: order[j]
      invariant done <= confs.Keys
      invariant out.Keys == tenants.Keys + done
      invariant forall n :: n in out ==> out[n] == if n in done then TenantFromConf(tenants, confs[n], n) else tenants[n]
      invariant changes <==> exists n :: n in done && TenantDiffers(tenants, confs, n)
    {
      var name := order[i];
      out, changes := UpsertTenant(out, name, confs[name], changes);
      done := done + {name};
      i := i + 1;
    }
    assert done == confs.Keys;
  }

  // ---------------------------------------------------------------------
  // Disable or remove

  /** An obsolete row is removed with --clean when it has no meetings or
      when --nuke ends them; otherwise it is only disabled. */
  predicate Removed(clean: bool, nuke: bool, meetings: set<string>) {
    clean && (nuke || meetings == {})
  }

  /** The rows after the obsolete loop. */
  function Retired<T>(rows: map<string, T>, obsolete: set<string>, nuke: bool, clean: bool,
                      meetingsOf: T -> set<string>, disable: T -> T): (r: map<string, T>)
    ensures r.Keys <= rows.Keys
    ensures forall d :: d in rows && d !in obsolete ==> d in r && r[d] == rows[d]
    ensures forall d :: d in rows && d in obsolete ==>
      (d !in r <==> Removed(clean, nuke, meetingsOf(rows[d]))) && (d in r ==> r[d] == disable(rows[d]))
  {
    map d | d in rows && !(d in obsolete && Removed(clean, nuke, meetingsOf(rows[d]))) ::
      if d in obsolete then disable(rows[d]) else rows[d]
  }

  /** An obsolete row is gone when removed and disabled otherwise; the other
      rows are untouched. */
  lemma RetiredMeaning<T>(rows: map<string, T>, obsolete: set<string>, nuke: bool, clean: bool,
                          meetingsOf: T -> set<string>, disable: T -> T, d: string)
    ensures var r := Retired(rows, obsolete, nuke, clean, meetingsOf, disable);
      && (d in r <==> d in rows && !(d in obsolete && Removed(clean, nuke, meetingsOf(rows[d]))))
      && (d in r ==> r[d] == if d in obsolete then disable(rows[d]) else rows[d])
  {
  }

  /** The meetings ended for the obsolete rows. */
  function EndedMeetings<T>(rows: map<string, T>, obsolete: set<string>, meetingsOf: T -> set<string>): set<string> {
    set d, m | d in obsolete && d in rows && m in meetingsOf(rows[d]) :: m
  }

  /** A meeting is ended iff it belongs to one of the obsolete rows. */
  lemma EndedMeetingsMeaning<T>(rows: map<string, T>, obsolete: set<string>, meetingsOf: T -> set<string>, m: string)
    ensures m in EndedMeetings(rows, obsolete, meetingsOf) <==> exists d :: d in obsolete && d in rows && m in meetingsOf(rows[d])
  {
  }

  lemma EndedMeetingsAdd<T>(rows: map<string, T>, done: set<string>, d: string, meetingsOf: T -> set<string>)
    requires d in rows
    ensures EndedMeetings(rows, done + {d}, meetingsOf) == EndedMeetings(rows, done, meetingsOf) + meetingsOf(rows[d])
  {
  }

  /** The obsolete loop, one obsolete row at a time in the order the set of
      obsolete names yields them. Every obsolete row marks the run as
      changed, removed or not, disabled before or not. */
  method RetireRows<T>(rows: map<string, T>, obsolete: set<string>, order: seq<string>, nuke: bool, clean: bool, dryRun: bool,
                       meetingsOf: T -> set<string>, disable: T -> T)
    returns (out: map<string, T>, changes: bool, ended: set<string>)
    requires obsolete <= rows.Keys
    requires forall d :: d in obsolete <==> d in order
    requires forall i, j :: 0 <= i < j < |order| ==> order[i] != order[j]
    ensures out == Retired(rows, obsolete, nuke, clean, meetingsOf, disable)
    ensures changes <==> obsolete != {}
    ensures ended == if nuke && !dryRun then EndedMeetings(rows, obsolete, meetingsOf) else {}
  {
    out := rows;
    changes := false;
    ended := {};
    ghost var done: set<string> := {};
    RetiredNone(rows, nuke, clean, meetingsOf, disable);
    EndedMeetingsNone(rows, meetingsOf);
    var i := 0;
    while i < |order|
      invariant 0 <= i <= |order|
      invariant done == set j | 0 <= j < i :: order[j]
      invariant out == Retired(rows, done, nuke, clean, meetingsOf, disable)
      invariant changes <==> i > 0
      invariant ended == if nuke && !dryRun then EndedMeetings(rows, done, meetingsOf) else {}
    {
      var d := order[i];
      assert d !in done;
      changes := true;
      out, ended := RetireOne(rows, done, out, ended, d, nuke, clean, dryRun, meetingsOf, disable);
      done := done + {d};
      i := i + 1;
    }
    assert done == obsolete;
    assert obsolete != {} <==> |order| > 0 by {
      if |order| > 0 {
        assert order[0] in obsolete;
      }
    }
  }

  /** One turn of the obsolete loop: end the row's meetings with --nuke
      (unless this is a dry run), then remove or disable the row. */
  method RetireOne<T>(rows: map<string, T>, ghost done: set<string>, out: map<string, T>, ended: set<string>, d: string,
                      nuke: bool, clean: bool, dryRun: bool, meetingsOf: T -> set<string>, disable: T -> T)
    returns (out': map<string, T>, ended': set<string>)
    requires d in rows && d !in done
    requires out == Retired(rows, done, nuke, clean, meetingsOf, disable)
    requires ended == if nuke && !dryRun then EndedMeetings(rows, done, meetingsOf) else {}
    ensures out' == Retired(rows, done + {d}, nuke, clean, meetingsOf, disable)
    ensures ended' == if nuke && !dryRun then EndedMeetings(rows, done + {d}, meetingsOf) else {}
  {
    var meetings := meetingsOf(rows[d]);
    ended' := ended;
    if nuke && !dryRun {
      // ending the meetings of a row without meetings ends nothing
      ended' := ended + meetings;
      EndedMeetingsAdd(rows, done, d, meetingsOf);
    }
    RetiredAdd(rows, done, d, nuke, clean, meetingsOf, disable);
    if Removed(clean, nuke, meetings) {
      out' := out - {d};
    } else {
      out' := out[d := disable(rows[d])];
    }
  }

  lemma RetiredNone<T>(rows: map<string, T>, nuke: bool, clean: bool, meetingsOf: T -> set<string>, disable: T -> T)
    ensures Retired(rows, {}, nuke, clean, meetingsOf, disable) == rows
  {
  }

  lemma EndedMeetingsNone<T>(rows: map<string, T>, meetingsOf: T -> set<string>)
    ensures EndedMeetings(rows, {}, meetingsOf) == {}
  {
  }

  lemma RetiredAdd<T>(rows: map<string, T>, done: set<string>, d: string, nuke: bool, clean: bool,
                      meetingsOf: T -> set<string>, disable: T -> T)
    requires d in rows && d !in done
    ensures Retired(rows, done + {d}, nuke, clean, meetingsOf, disable) ==
      if Removed(clean, nuke, meetingsOf(rows[d])) then Retired(rows, done, nuke, clean, meetingsOf, disable) - {d}
      else Retired(rows, done, nuke, clean, meetingsOf, disable)[d := disable(rows[d])]
  {
  }

  function ServerMeetings(row: ServerRow): set<string> { row.meetings }

  function DisableServer(row: ServerRow): ServerRow { row.(enabled := false) }

  function TenantMeetings(row: TenantRow): set<string> { row.meetings }

  function DisableTenant(row: TenantRow): TenantRow { row.(enabled := false) }

  // ---------------------------------------------------------------------
  // load

  /** The servers the document leads to. */
  function LoadedServers(servers: map<string, ServerRow>, file: StateFile, nuke: bool, clean: bool): (r: map<string, ServerRow>)
    ensures r.Keys <= servers.Keys + file.servers.Keys
    ensures forall d :: d in r && d !in file.servers ==> d in servers && r[d] == DisableServer(servers[d])
  {
    Retired(UpsertedServers(servers, file.servers), servers.Keys - file.servers.Keys, nuke, clean, ServerMeetings, DisableServer)
  }

  function LoadedTenants(tenants: map<string, TenantRow>, file: StateFile, nuke: bool, clean: bool): (r: map<string, TenantRow>)
    ensures r.Keys <= tenants.Keys + file.tenants.Keys
    ensures forall n :: n in r && n !in file.tenants ==> n in tenants && r[n] == DisableTenant(tenants[n])
  {
    Retired(UpsertedTenants(tenants, file.tenants), tenants.Keys - file.tenants.Keys, nuke, clean, TenantMeetings, DisableTenant)
  }

  /** Whether loading the document changes anything. */
  predicate LoadChanges(servers: map<string, ServerRow>, tenants: map<string, TenantRow>, file: StateFile) {
    || (exists d :: d in file.servers && ServerDiffers(servers, file.servers, d))
    || (exists n :: n in file.tenants && TenantDiffers(tenants, file.tenants, n))
    || servers.Keys - file.servers.Keys != {}
    || tenants.Keys - file.tenants.Keys != {}
  }

  /** A document that changes nothing would lead to the same tables: `load`
      skipping the commit when nothing changed loses nothing. */
  lemma UnchangedLoadKeepsTables(servers: map<string, ServerRow>, tenants: map<string, TenantRow>, file: StateFile, nuke: bool, clean: bool)
    requires !LoadChanges(servers, tenants, file)
    ensures LoadedServers(servers, file, nuke, clean) == servers
    ensures LoadedTenants(tenants, file, nuke, clean) == tenants
  {
    assert servers.Keys - file.servers.Keys == {};
    assert tenants.Keys - file.tenants.Keys == {};
    var us := UpsertedServers(servers, file.servers);
    forall d | d in file.servers
      ensures d in servers && us[d] == servers[d]
    {
      assert !ServerDiffers(servers, file.servers, d);
    }
    assert us == servers;
    var ut := UpsertedTenants(tenants, file.tenants);
    forall n | n in file.tenants
      ensures n in tenants && ut[n] == tenants[n]
    {
      assert !TenantDiffers(tenants, file.tenants, n);
    }
    assert ut == tenants;
  }

  /** Rows that agree on the obsolete names end the same meetings. */
  lemma EndedMeetingsSameRows<T>(a: map<string, T>, b: map<string, T>, obsolete: set<string>, meetingsOf: T -> set<string>)
    requires forall d :: d in obsolete ==> (d in a <==> d in b) && (d in a ==> a[d] == b[d])
    ensures EndedMeetings(a, obsolete, meetingsOf) == EndedMeetings(b, obsolete, meetingsOf)
  {
  }

  /** The two server loops of `load`. */
  method ReconcileServers(servers: map<string, ServerRow>, file: StateFile, order: seq<string>, obsoleteOrder: seq<string>,
                          nuke: bool, dryRun: bool, clean: bool)
    returns (out: map<string, ServerRow>, changes: bool, ended: set<string>)
    requires forall d :: d in file.servers <==> d in order
    requires forall d :: d in obsoleteOrder <==> d in servers && d !in file.servers
    requires forall i, j :: 0 <= i < j < |obsoleteOrder| ==> obsoleteOrder[i] != obsoleteOrder[j]
    ensures out == LoadedServers(servers, file, nuke, clean)
    ensures changes <==> (exists d :: d in file.servers && ServerDiffers(servers, file.servers, d)) || servers.Keys - file.servers.Keys != {}
    ensures ended == if nuke && !dryRun then EndedMeetings(servers, servers.Keys - file.servers.Keys, ServerMeetings) else {}
  {
    var upserted, c1 := UpsertServers(servers, file.servers, order);
    var obsolete := servers.Keys - file.servers.Keys;
    assert obsolete == upserted.Keys - file.servers.Keys;
    var c2;
    out, c2, ended := RetireRows(upserted, obsolete, obsoleteOrder, nuke, clean, dryRun, ServerMeetings, DisableServer);
    EndedMeetingsSameRows(upserted, servers, obsolete, ServerMeetings);
    changes := c1 || c2;
  }

  /** The two tenant loops of `load`. */
  method ReconcileTenants(tenants: map<string, TenantRow>, file: StateFile, order: seq<string>, obsoleteOrder: seq<string>,
                          nuke: bool, dryRun: bool, clean: bool)
    returns (out: map<string, TenantRow>, changes: bool, ended: set<string>)
    requires forall n :: n in file.tenants <==> n in order
    requires forall n :: n in obsoleteOrder <==> n in tenants && n !in file.tenants
    requires forall i, j :: 0 <= i < j < |obsoleteOrder| ==> obsoleteOrder[i] != obsoleteOrder[j]
    ensures out == LoadedTenants(tenants, file, nuke, clean)
    ensures changes <==> (exists n :: n in file.tenants && TenantDiffers(tenants, file.tenants, n)) || tenants.Keys - file.tenants.Keys != {}
    ensures ended == if nuke && !dryRun then EndedMeetings(tenants, tenants.Keys - file.tenants.Keys, TenantMeetings) else {}
  {
    var upserted, c1 := UpsertTenants(tenants, file.tenants, order);
    var obsolete := tenants.Keys - file.tenants.Keys;
    assert obsolete == upserted.Keys - file.tenants.Keys;
    var c2;
    out, c2, ended := RetireRows(upserted, obsolete, obsoleteOrder, nuke, clean, dryRun, TenantMeetings, DisableTenant);
    EndedMeetingsSameRows(upserted, tenants, obsolete, TenantMeetings);
    changes := c1 || c2;
  }

  /** `load`: reconcile the tables with the document inside one transaction,
      committed when something changed and this is not a dry run, rolled back
      otherwise. The orders are those of the document's entries and of the
      sets of obsolete names. `ended` are the meetings ended on the obsolete
      servers and tenants (those end at the back end, outside the
      transaction). */
  method Load(reg: Registry, file: StateFile, serverOrder: seq<string>, obsoleteServers: seq<string>,
              tenantOrder: seq<string>, obsoleteTenants: seq<string>, nuke: bool, dryRun: bool, clean: bool)
    returns (committed: bool, ended: set<string>)
    requires forall d :: d in file.servers <==> d in serverOrder
    requires forall d :: d in obsoleteServers <==> d in reg.servers && d !in file.servers
    requires forall i, j :: 0 <= i < j < |obsoleteServers| ==> obsoleteServers[i] != obsoleteServers[j]
    requires forall n :: n in file.tenants <==> n in tenantOrder
    requires forall n :: n in obsoleteTenants <==> n in reg.tenants && n !in file.tenants
    requires forall i, j :: 0 <= i < j < |obsoleteTenants| ==> obsoleteTenants[i] != obsoleteTenants[j]
    modifies reg`servers, reg`tenants
    ensures committed <==> LoadChanges(old(reg.servers), old(reg.tenants), file) && !dryRun
    ensures committed ==> reg.servers == LoadedServers(old(reg.servers), file, nuke, clean)
    ensures committed ==> reg.tenants == LoadedTenants(old(reg.tenants), file, nuke, clean)
    ensures !committed ==> reg.servers == old(reg.servers) && reg.tenants == old(reg.tenants)
    ensures ended == if nuke && !dryRun
      then EndedMeetings(old(reg.servers), old(reg.servers).Keys - file.servers.Keys, ServerMeetings)
         + EndedMeetings(old(reg.tenants), old(reg.tenants).Keys - file.tenants.Keys, TenantMeetings)
      else {}
  {
    var servers, c1, ended1 := ReconcileServers(reg.servers, file, serverOrder, obsoleteServers, nuke, dryRun, clean);
    var tenants, c2, ended2 := ReconcileTenants(reg.tenants, file, tenantOrder, obsoleteTenants, nuke, dryRun, clean);
    ended := ended1 + ended2;
    if !(c1 || c2) || dryRun {
      return false, ended;
    }
    reg.servers := servers;
    reg.tenants := tenants;
    return true, ended;
  }

  /** After a committed load every server and tenant of the document exists
      with the document's values. */
  lemma LoadedHasDocument(servers: map<string, ServerRow>, tenants: map<string, TenantRow>, file: StateFile, nuke: bool, clean: bool)
    ensures forall d :: d in file.servers ==>
      && d in LoadedServers(servers, file, nuke, clean)
      && LoadedServers(servers, file, nuke, clean)[d].secret == file.servers[d].secret
      && LoadedServers(servers, file, nuke, clean)[d].enabled == file.servers[d].enabled
    ensures forall n :: n in file.tenants ==>
      && n in LoadedTenants(tenants, file, nuke, clean)
      && LoadedTenants(tenants, file, nuke, clean)[n] == TenantRow(file.tenants[n].secret, file.tenants[n].realm,
           file.tenants[n].enabled, if n in tenants then tenants[n].meetings else {})
  {
    var us := UpsertedServers(servers, file.servers);
    assert forall d :: d in file.servers ==> d in us && d !in us.Keys - file.servers.Keys;
  }

  /** An obsolete server is removed iff --clean is given and --nuke is given
      or it has no meetings; a kept obsolete server is disabled. */
  lemma ObsoleteServer(servers: map<string, ServerRow>, file: StateFile, nuke: bool, clean: bool, d: string)
    requires d in servers && d !in file.servers
    ensures d !in LoadedServers(servers, file, nuke, clean) <==> clean && (nuke || servers[d].meetings == {})
    ensures d in LoadedServers(servers, file, nuke, clean) ==> LoadedServers(servers, file, nuke, clean)[d] == servers[d].(enabled := false)
  {
  }

  // ---------------------------------------------------------------------
  // save

  datatype Export = Export(servers: map<string, ServerConf>, tenants: map<string, TenantConf>)

  /** `save` as written: the realm entry of a tenant holds its secret. */
  function SaveAsWritten(servers: map<string, ServerRow>, tenants: map<string, TenantRow>): (r: Export)
    ensures r.servers.Keys == servers.Keys && r.tenants.Keys == tenants.Keys
    ensures forall d :: d in servers ==> r.servers[d] == ServerConf(servers[d].secret, servers[d].enabled)
    ensures forall n :: n in tenants ==> r.tenants[n] == TenantConf(tenants[n].secret, tenants[n].secret, tenants[n].enabled)
  {
    Export(
      map d | d in servers :: ServerConf(servers[d].secret, servers[d].enabled),
      map n | n in tenants :: TenantConf(tenants[n].secret, tenants[n].secret, tenants[n].enabled))
  }

  /** Loading what `save` wrote changes the realm of every tenant whose realm
      is not its secret. */
  lemma SaveAsWrittenLosesRealm(servers: map<string, ServerRow>, tenants: map<string, TenantRow>, n: string)
    requires n in tenants && tenants[n].realm != tenants[n].secret
    ensures var file := StateFile(SaveAsWritten(servers, tenants).servers, SaveAsWritten(servers, tenants).tenants);
      && LoadChanges(servers, tenants, file)
      && LoadedTenants(tenants, file, false, false)[n].realm == tenants[n].secret
  {
    var file := StateFile(SaveAsWritten(servers, tenants).servers, SaveAsWritten(servers, tenants).tenants);
    assert TenantDiffers(tenants, file.tenants, n);
    LoadedHasDocument(servers, tenants, file, false, false);
  }

  /** `save` with the tenant's realm in the realm entry. */
  function Save(servers: map<string, ServerRow>, tenants: map<string, TenantRow>): (r: Export)
    ensures r.servers.Keys == servers.Keys && r.tenants.Keys == tenants.Keys
    ensures forall d :: d in servers ==> r.servers[d] == ServerConf(servers[d].secret, servers[d].enabled)
    ensures forall n :: n in tenants ==> r.tenants[n] == TenantConf(tenants[n].secret, tenants[n].realm, tenants[n].enabled)
  {
    Export(
      map d | d in servers :: ServerConf(servers[d].secret, servers[d].enabled),
      map n | n in tenants :: TenantConf(tenants[n].secret, tenants[n].realm, tenants[n].enabled))
  }

  /** Loading a saved document changes nothing and leads to the same tables
      whatever the flags. */
  lemma SaveLoadRoundTrip(servers: map<string, ServerRow>, tenants: map<string, TenantRow>, nuke: bool, clean: bool)
    ensures var file := StateFile(Save(servers, tenants).servers, Save(servers, tenants).tenants);
      && !LoadChanges(servers, tenants, file)
      && LoadedServers(servers, file, nuke, clean) == servers
      && LoadedTenants(tenants, file, nuke, clean) == tenants
  {
    var file := StateFile(Save(servers, tenants).servers, Save(servers, tenants).tenants);
    assert servers.Keys - file.servers.Keys == {};
    assert tenants.Keys - file.tenants.Keys == {};
    var us := UpsertedServers(servers, file.servers);
    assert us == servers;
    var ut := UpsertedTenants(tenants, file.tenants);
    assert ut == tenants;
  }
}
