/** What one statement sends under the tenant plugins, by the literal tables, column
    and values: where it goes, and with which rows. */
module TenantArrival {
  import opened Wrappers
  import opened TenantRouting

  // ----- Rows -----

  /** No tenant among the columns of a map: no entry, a nil one, the nil id or "". */
  predicate SaysNoTenant(entries: map<string, Cell>) {
    "tenant_id" !in entries || entries["tenant_id"] in {NilCell, IdCell(0), TextCell("")}
  }

  /** A struct without a tenant and a writable map without one arrive with the given
      tenant and otherwise unchanged; every other row arrives as it was made. */
  predicate Arrives(made: Row, sent: Row, tenant: Uuid) {
    match made
    case Struct(0, columns) => sent == Struct(tenant, columns)
    case Map(false, true, true, entries) =>
      sent == Map(false, true, true,
                  if SaysNoTenant(entries) then entries["tenant_id" := IdCell(tenant)] else entries)
    case _ => sent == made
  }

  predicate AllArrive(made: Rows, sent: Rows, tenant: Uuid) {
    match made
    case One(row) => sent.One? && Arrives(row, sent.row, tenant)
    case Many(rows) =>
      sent.Many? && |sent.rows| == |rows| && forall i :: 0 <= i < |rows| ==> Arrives(rows[i], sent.rows[i], tenant)
  }

  /** The tenant a create gives its rows: the request's, when the model has the column
      and the id is there and well formed. */
  predicate GivesTenant(x: Setting, tenant: Uuid) {
    && x.stmt.op == Create && x.stmt.schema == Some(Schema(true))
    && x.stmt.ctx != None && x.stmt.ctx.value.tenant != "" && x.parse(x.stmt.ctx.value.tenant) == Some(tenant)
  }

  // ----- Destinations -----

  /** The tables a request may write on its own transaction only. */
  predicate IsTenantTable(table: string) {
    table in {"agent_bots", "evo_core_agents", "evo_core_api_keys", "evo_core_folders", "evo_core_folder_shares",
              "evo_core_custom_tools", "evo_core_mcp_servers", "evo_core_custom_mcp_servers",
              "evo_core_agent_integrations", "evo_core_integration_credentials"}
  }

  /** The statement needs the request's transaction: a read of a model with the
      column, or a write on a tenant table that has a schema and a context. */
  predicate NeedsBound(stmt: Statement) {
    match stmt.op
    case Read => stmt.schema == Some(Schema(true))
    case _ => IsTenantTable(stmt.table) && stmt.schema != None && stmt.ctx != None
  }

  predicate IsInTenant(stmt: Statement) {
    match stmt.ctx
    case Some(Context(tenant, true)) => tenant != ""
    case _ => false
  }

  /** The connection a statement that is sent at all goes to. */
  predicate GoesTo(stmt: Statement, conn: Conn) {
    if NeedsBound(stmt) then conn == Bound else if stmt.op == Read then conn == Pool else conn == Own
  }

  /** What is not sent: a statement outside the tenant its table or model asks for, or
      a write whose own transaction cannot begin. */
  predicate IsRefused(x: Setting) {
    if NeedsBound(x.stmt) then !IsInTenant(x.stmt) else x.stmt.op != Read && x.faults.begin
  }

  // ----- The law -----

  lemma StampedArrives(made: Row, tenant: Uuid)
    ensures Arrives(made, Stamped(made, tenant), tenant)
  {
    match made {
      case Map(_, _, _, entries) =>
        assert SaysNoTenant(entries) <==> !Preset(made);
      case _ =>
    }
  }

  lemma StampedAllArrive(made: Rows, tenant: Uuid)
    ensures AllArrive(made, StampedAll(made, tenant), tenant)
  {
    match made {
      case One(row) => StampedArrives(row, tenant);
      case Many(rows) =>
        forall i | 0 <= i < |rows| ensures Arrives(rows[i], Stamped(rows[i], tenant), tenant) {
          StampedArrives(rows[i], tenant);
        }
    }
  }

  /** One statement sends nothing when it is refused, and otherwise itself, once, to
      its connection; its rows arrive with the request's tenant where a create gives
      them one, and as they were made everywhere else. */
  lemma SendsExactly(x: Setting, w: World)
    ensures var sent := Perform(x, w).sent;
      if IsRefused(x) then sent == w.sent
      else
        && |sent| == |w.sent| + 1 && sent[..|w.sent|] == w.sent
        && var e := sent[|w.sent|];
           && e.op == x.stmt.op && e.table == x.stmt.table && GoesTo(x.stmt, e.conn)
           && (forall tenant :: GivesTenant(x, tenant) ==> AllArrive(x.stmt.rows, e.rows, tenant))
           && ((forall tenant :: !GivesTenant(x, tenant)) ==> e.rows == x.stmt.rows)
  {
    PerformExactly(x, w);
    assert Listed(x.stmt.table) <==> IsTenantTable(x.stmt.table);
    if TenantToStamp(x.stmt, x.parse).Some? {
      StampedAllArrive(x.stmt.rows, TenantToStamp(x.stmt, x.parse).value);
      assert x.stmt.op.Create? ==> GivesTenant(x, TenantToStamp(x.stmt, x.parse).value);
    }
  }

  /** A create on a tenant table within a tenant, row by row. */
  lemma CreatedRowsArrive(x: Setting, w: World, tenant: Uuid)
    requires x.stmt.op == Create && IsTenantTable(x.stmt.table) && x.stmt.schema == Some(Schema(true))
    requires IsInTenant(x.stmt) && x.parse(x.stmt.ctx.value.tenant) == Some(tenant)
    ensures |Perform(x, w).sent| == |w.sent| + 1
    ensures var e := Perform(x, w).sent[|w.sent|];
      e.conn == Bound && e.table == x.stmt.table && AllArrive(x.stmt.rows, e.rows, tenant)
  {
    SendsExactly(x, w);
    assert GivesTenant(x, tenant);
  }
}
