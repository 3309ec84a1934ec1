/** The tenant plugins' callbacks around one statement: routing onto the request's
    bound transaction, stamping the tenant onto created rows, and the framework's
    own begin, execute and commit steps as the plugins rely on them. */
module TenantRouting {
  import opened Wrappers

  /** 0 is the nil id. */
  type Uuid = nat

  const COLUMN := "tenant_id"

  /** A value of a map row. */
  datatype Cell = NilCell | IdCell(id: Uuid) | TextCell(text: string)

  /** A created row as reflection sees it: an invalid value, a struct, or a map, which
      may be nil, keyed by something else than strings, or unable to hold an id. */
  datatype Row =
    | Invalid
    | Struct(tenant: Uuid, columns: map<string, string>)
    | Map(isNil: bool, stringKeys: bool, holdsIds: bool, entries: map<string, Cell>)

  /** The value behind the statement: one row, or a slice or array of rows. */
  datatype Rows = One(row: Row) | Many(rows: seq<Row>)

  datatype Operation = Create | Update | Delete | Read

  datatype Schema = Schema(declaresTenant: bool)

  /** The request context: the bound tenant id, "" for none, and whether it carries
      the scope-bound connection. */
  datatype Context = Context(tenant: string, bound: bool)

  /** The pool, a transaction the framework began on it, or the request's bound
      transaction. */
  datatype Conn = Pool | Own | Bound

  datatype Statement = Statement(op: Operation, table: string, schema: Option<Schema>, ctx: Option<Context>, rows: Rows)

  /** Which of the framework's own steps fail. */
  datatype Faults = Faults(begin: bool, exec: bool)

  /** A statement sent to the database: where, with which rows, and whether the
      bound transaction had not been ended yet. */
  datatype Sent = Sent(op: Operation, table: string, conn: Conn, rows: Rows, boundLive: bool)

  /** Outside the statement: how often the bound transaction was ended, how many of
      the framework's own transactions are open, and what was sent. */
  datatype World = World(boundEnds: nat, ownOpen: int, sent: seq<Sent>)

  /** What the callbacks change: the statement's connection, error, started flag and
      rows, and the world. */
  datatype State = State(conn: Conn, failed: bool, started: bool, rows: Rows, world: World)

  // ----- The lists -----

  const SCHEMALESS_TENANT_TABLES: set<string> := {"agent_bots"}

  const TENANT_SCOPED_WRITE_TABLES: set<string> := {
    "evo_core_agents", "evo_core_api_keys", "evo_core_folders", "evo_core_folder_shares", "evo_core_custom_tools",
    "evo_core_mcp_servers", "evo_core_custom_mcp_servers", "evo_core_agent_integrations",
    "evo_core_integration_credentials"
  }

  predicate Listed(table: string) {
    table in SCHEMALESS_TENANT_TABLES || table in TENANT_SCOPED_WRITE_TABLES
  }

  // ----- Stamping -----

  predicate IsZeroCell(c: Cell) {
    match c
    case NilCell => true
    case IdCell(id) => id == 0
    case TextCell(text) => text == ""
  }

  /** The caller already set a tenant. */
  predicate Preset(r: Row) {
    match r
    case Invalid => false
    case Struct(tenant, _) => tenant != 0
    case Map(_, _, _, entries) => COLUMN in entries && !IsZeroCell(entries[COLUMN])
  }

  /** The row can take a tenant id. */
  predicate Stampable(r: Row) {
    match r
    case Invalid => false
    case Struct(_, _) => true
    case Map(isNil, stringKeys, holdsIds, _) => !isNil && stringKeys && holdsIds
  }

  /** The tenant a row carries, if it says one. */
  function TenantOf(r: Row): Option<Uuid> {
    match r
    case Invalid => None
    case Struct(tenant, _) => Some(tenant)
    case Map(_, _, _, entries) =>
      if COLUMN in entries && entries[COLUMN].IdCell? then Some(entries[COLUMN].id) else None
  }

  /** Same row but for the tenant column. */
  predicate SameButTenant(a: Row, b: Row) {
    match a
    case Invalid => b == a
    case Struct(_, columns) => b.Struct? && b.columns == columns
    case Map(isNil, stringKeys, holdsIds, entries) =>
      && b.Map? && b.isNil == isNil && b.stringKeys == stringKeys && b.holdsIds == holdsIds
      && b.entries - {COLUMN} == entries - {COLUMN}
  }

  /** `b` is `a` after stamping: a stampable row without a tenant carries the given
      one, any other row is untouched. */
  predicate StampedRow(a: Row, b: Row, tenant: Uuid) {
    if Stampable(a) && !Preset(a) then SameButTenant(a, b) && TenantOf(b) == Some(tenant) else b == a
  }

  predicate StampedRows(a: Rows, b: Rows, tenant: Uuid) {
    match a
    case One(row) => b.One? && StampedRow(row, b.row, tenant)
    case Many(rows) =>
      b.Many? && |b.rows| == |rows| && forall i :: 0 <= i < |rows| ==> StampedRow(rows[i], b.rows[i], tenant)
  }

  function Stamped(r: Row, tenant: Uuid): Row {
    if !Stampable(r) || Preset(r) then r
    else
      match r
      case Struct(_, _) => r.(tenant := tenant)
      case Map(_, _, _, entries) => r.(entries := entries[COLUMN := IdCell(tenant)])
  }

  function StampedAll(rows: Rows, tenant: Uuid): Rows {
    match rows
    case One(row) => One(Stamped(row, tenant))
    case Many(rs) => Many(seq(|rs|, i requires 0 <= i < |rs| => Stamped(rs[i], tenant)))
  }

  lemma StampRowCarriesTenant(r: Row, tenant: Uuid)
    ensures StampedRow(r, Stamped(r, tenant), tenant)
  {
    if r.Map? {
      assert r.entries[COLUMN := IdCell(tenant)] - {COLUMN} == r.entries - {COLUMN};
    }
  }

  /** Stamping gives every row that can take a tenant and has none the given one, and
      changes nothing else. */
  lemma StampCarriesTenant(rows: Rows, tenant: Uuid)
    ensures StampedRows(rows, StampedAll(rows, tenant), tenant)
  {
    match rows {
      case One(row) => StampRowCarriesTenant(row, tenant);
      case Many(rs) =>
        forall i | 0 <= i < |rs| ensures StampedRow(rs[i], Stamped(rs[i], tenant), tenant) {
          StampRowCarriesTenant(rs[i], tenant);
        }
    }
  }

  method SetIfZero(r: Row, tenant: Uuid) returns (stamped: Row)
    requires !r.Map?
    ensures stamped == Stamped(r, tenant)
  {
    stamped := r;
    if r.Invalid? {
      return;
    }
    if r.tenant != 0 {
      return;
    }
    stamped := r.(tenant := tenant);
  }

  method StampMap(r: Row, tenant: Uuid) returns (stamped: Row)
    requires r.Map?
    ensures stamped == Stamped(r, tenant)
  {
    stamped := r;
    if r.isNil {
      return;
    }
    if !r.stringKeys {
      return;
    }
    if !r.holdsIds {
      return;
    }
    if COLUMN in r.entries {
      if !IsZeroCell(r.entries[COLUMN]) {
        return;
      }
    }
    stamped := r.(entries := r.entries[COLUMN := IdCell(tenant)]);
  }

  method StampRow(r: Row, tenant: Uuid) returns (stamped: Row)
    ensures stamped == Stamped(r, tenant)
  {
    if r.Map? {
      stamped := StampMap(r, tenant);
    } else {
      stamped := SetIfZero(r, tenant);
    }
  }

  method StampRows(rows: Rows, tenant: Uuid) returns (stamped: Rows)
    ensures stamped == StampedAll(rows, tenant)
  {
    match rows {
      case One(row) =>
        var one := StampRow(row, tenant);
        return One(one);
      case Many(elems) =>
        var done := elems;
        for i := 0 to |elems|
          invariant |done| == |elems|
          invariant forall k :: 0 <= k < i ==> done[k] == Stamped(elems[k], tenant)
          invariant forall k :: i <= k < |elems| ==> done[k] == elems[k]
        {
          var one := StampRow(elems[i], tenant);
          done := done[i := one];
        }
        return Many(done);
    }
  }

  /** The tenant to stamp: only for a statement whose model declares the column, under
      a bound, well-formed tenant id. */
  function TenantToStamp(stmt: Statement, parse: string -> Option<Uuid>): Option<Uuid> {
    if stmt.schema.Some? && stmt.schema.value.declaresTenant && stmt.ctx.Some? && stmt.ctx.value.tenant != ""
    then parse(stmt.ctx.value.tenant)
    else None
  }

  // ----- The callbacks, as steps on the state -----

  function Failed(s: State): State {
    s.(failed := true)
  }

  function Route(stmt: Statement, s: State): State {
    if stmt.schema.None? || stmt.ctx.None? || !Listed(stmt.table) then s
    else if stmt.ctx.value.tenant == "" || !stmt.ctx.value.bound then Failed(s)
    else s.(conn := Bound)
  }

  function Bind(stmt: Statement, s: State): State {
    if stmt.schema.None? || !stmt.schema.value.declaresTenant then s
    else if stmt.ctx.None? || stmt.ctx.value.tenant == "" || !stmt.ctx.value.bound then Failed(s)
    else s.(conn := Bound)
  }

  function Marked(stmt: Statement, parse: string -> Option<Uuid>, s: State): State {
    match TenantToStamp(stmt, parse)
    case None => s
    case Some(tenant) => s.(rows := StampedAll(s.rows, tenant))
  }

  /** Begin: only the pool can begin a transaction; on a transaction the attempt is
      swallowed and leaves no flag. */
  function Begun(f: Faults, s: State): State {
    if s.failed || s.conn != Pool then s
    else if f.begin then Failed(s)
    else s.(conn := Own, started := true, world := s.world.(ownOpen := s.world.ownOpen + 1))
  }

  function Executed(stmt: Statement, f: Faults, s: State): State {
    if s.failed then s
    else
      var sent := Sent(stmt.op, stmt.table, s.conn, s.rows, s.world.boundEnds == 0);
      s.(world := s.world.(sent := s.world.sent + [sent]), failed := f.exec)
  }

  /** Commit or rollback: with the flag set, ends whatever transaction the statement
      is on by now. */
  function Concluded(s: State): State {
    if !s.started then s
    else
      match s.conn
      case Pool => s
      case Own => s.(world := s.world.(ownOpen := s.world.ownOpen - 1), conn := Pool)
      case Bound => s.(world := s.world.(boundEnds := s.world.boundEnds + 1), conn := Pool)
  }

  // ----- The registered chains -----

  /** The framework's other hooks stand for anything that leaves the statement's
      connection, error and rows alone. */
  datatype Callback =
    | Reroute
    | BindRead
    | Begin
    | Hook(name: string)
    | Stamp
    | Execute
    | Commit

  const CREATE_CHAIN: seq<Callback> := [Begin, Hook("before create"), Execute, Hook("after create"), Commit]

  const UPDATE_CHAIN: seq<Callback> := [Begin, Hook("before update"), Execute, Hook("after update"), Commit]

  const DELETE_CHAIN: seq<Callback> := [Begin, Hook("before delete"), Execute, Hook("after delete"), Commit]

  const READ_CHAIN: seq<Callback> := [Execute, Hook("after query")]

  datatype Chains = Chains(create: seq<Callback>, update: seq<Callback>, delete: seq<Callback>, read: seq<Callback>)

  function InsertBefore(chain: seq<Callback>, anchor: Callback, cb: Callback): seq<Callback> {
    if chain == [] then [cb]
    else if chain[0] == anchor then [cb] + chain
    else [chain[0]] + InsertBefore(chain[1..], anchor, cb)
  }

  function Installed(): Chains {
    Chains([Reroute] + CREATE_CHAIN[..2] + [Stamp] + CREATE_CHAIN[2..], [Reroute] + UPDATE_CHAIN,
           [Reroute] + DELETE_CHAIN, [BindRead] + READ_CHAIN)
  }

  lemma {:induction false} InsertAt(chain: seq<Callback>, anchor: Callback, cb: Callback, at: nat)
    requires at < |chain| && chain[at] == anchor && forall i :: 0 <= i < at ==> chain[i] != anchor
    ensures InsertBefore(chain, anchor, cb) == chain[..at] + [cb] + chain[at..]
  {
    if at > 0 {
      InsertAt(chain[1..], anchor, cb, at - 1);
      assert chain[..at] == [chain[0]] + chain[1..][..at - 1];
      assert chain[at..] == chain[1..][at - 1..];
    }
  }

  lemma InstalledCreate()
    ensures InsertBefore(InsertBefore(CREATE_CHAIN, Begin, Reroute), Execute, Stamp) == Installed().create
  {
    InsertAt([Reroute] + CREATE_CHAIN, Execute, Stamp, 3);
  }

  /** Both plugins' Initialize. */
  method Initialize() returns (c: Chains)
    ensures c == Installed()
  {
    c := Chains(CREATE_CHAIN, UPDATE_CHAIN, DELETE_CHAIN, READ_CHAIN);
    c := c.(create := InsertBefore(c.create, Begin, Reroute));
    c := c.(update := InsertBefore(c.update, Begin, Reroute));
    c := c.(delete := InsertBefore(c.delete, Begin, Reroute));
    c := c.(create := InsertBefore(c.create, Execute, Stamp));
    c := c.(read := InsertBefore(c.read, Execute, BindRead));
    InstalledCreate();
  }

  function ChainOf(op: Operation): seq<Callback> {
    match op
    case Create => Installed().create
    case Update => Installed().update
    case Delete => Installed().delete
    case Read => Installed().read
  }

  /** Everything fixed while a statement runs. */
  datatype Setting = Setting(stmt: Statement, faults: Faults, parse: string -> Option<Uuid>)

  function Step(x: Setting, cb: Callback, s: State): State {
    match cb
    case Reroute => Route(x.stmt, s)
    case BindRead => Bind(x.stmt, s)
    case Begin => Begun(x.faults, s)
    case Hook(_) => s
    case Stamp => Marked(x.stmt, x.parse, s)
    case Execute => Executed(x.stmt, x.faults, s)
    case Commit => Concluded(s)
  }

  function RunChain(x: Setting, chain: seq<Callback>, s: State): State
    decreases |chain|
  {
    if chain == [] then s else RunChain(x, chain[1..], Step(x, chain[0], s))
  }

  /** A statement starts on the pool, without error. */
  function Start(stmt: Statement, w: World): State {
    State(Pool, false, false, stmt.rows, w)
  }

  function Perform(x: Setting, w: World): World {
    RunChain(x, ChainOf(x.stmt.op), Start(x.stmt, w)).world
  }

  // ----- The same, updated in place -----

  lemma RunFrom(x: Setting, chain: seq<Callback>, i: nat, s: State)
    requires i < |chain|
    ensures RunChain(x, chain[i..], s) == RunChain(x, chain[i + 1..], Step(x, chain[i], s))
    ensures chain[|chain|..] == [] && chain[0..] == chain
  {
    assert chain[i..][1..] == chain[i + 1..];
  }

  class Session {
    const stmt: Statement
    const faults: Faults
    const parse: string -> Option<Uuid>
    var conn: Conn
    var failed: bool
    var started: bool
    var rows: Rows
    var world: World

    constructor (x: Setting, w: World)
      ensures stmt == x.stmt && faults == x.faults && parse == x.parse
      ensures Current() == Start(x.stmt, w)
    {
      stmt, faults, parse := x.stmt, x.faults, x.parse;
      conn, failed, started, rows, world := Pool, false, false, x.stmt.rows, w;
    }

    function Current(): State
      reads this
    {
      State(conn, failed, started, rows, world)
    }

    function Fixed(): Setting {
      Setting(stmt, faults, parse)
    }

    method AddError()
      modifies this
      ensures Current() == Failed(old(Current()))
    {
      failed := true;
    }

    method RouteScopedTenantWrite(ctx: Context)
      requires stmt.schema.Some? && stmt.ctx == Some(ctx)
      modifies this
      ensures Current() == Route(stmt, old(Current()))
    {
      var schemaless := stmt.table in SCHEMALESS_TENANT_TABLES;
      var failClosed := stmt.table in TENANT_SCOPED_WRITE_TABLES;
      if !schemaless && !failClosed {
        return;
      }
      if ctx.tenant == "" {
        AddError();
        return;
      }
      if !ctx.bound {
        AddError();
        return;
      }
      conn := Bound;
    }

    method RerouteSchemaless()
      modifies this
      ensures Current() == Route(stmt, old(Current()))
    {
      if stmt.schema.None? {
        return;
      }
      if stmt.ctx.None? {
        return;
      }
      RouteScopedTenantWrite(stmt.ctx.value);
    }

    method BindRead()
      modifies this
      ensures Current() == Bind(stmt, old(Current()))
    {
      if stmt.schema.None? {
        return;
      }
      if !stmt.schema.value.declaresTenant {
        return;
      }
      if stmt.ctx.None? {
        AddError();
        return;
      }
      if stmt.ctx.value.tenant == "" {
        AddError();
        return;
      }
      if !stmt.ctx.value.bound {
        AddError();
        return;
      }
      conn := Bound;
    }

    method Stamp()
      modifies this
      ensures Current() == Marked(stmt, parse, old(Current()))
    {
      if stmt.schema.None? {
        return;
      }
      if stmt.ctx.None? {
        return;
      }
      if !stmt.schema.value.declaresTenant {
        return;
      }
      var tid := stmt.ctx.value.tenant;
      if tid == "" {
        return;
      }
      var parsed := parse(tid);
      if parsed.None? {
        return;
      }
      rows := StampRows(rows, parsed.value);
    }

    /** The callbacks of a chain, in order; the framework's own are as assumed. */
    method Process(chain: seq<Callback>)
      modifies this
      ensures Current() == RunChain(Fixed(), chain, old(Current()))
    {
      var i := 0;
      while i < |chain|
        invariant 0 <= i <= |chain|
        invariant RunChain(Fixed(), chain[i..], Current()) == RunChain(Fixed(), chain, old(Current()))
      {
        RunFrom(Fixed(), chain, i, Current());
        match chain[i] {
          case Reroute => RerouteSchemaless();
          case BindRead => BindRead();
          case Stamp => Stamp();
          case cb =>
            var next := Step(Fixed(), cb, Current());
            conn, failed, started, rows, world := next.conn, next.failed, next.started, next.rows, next.world;
        }
        i := i + 1;
      }
      assert chain[i..] == [];
    }
  }

  method Handle(x: Setting, w: World) returns (after: World)
    ensures after == Perform(x, w)
  {
    var session := new Session(x, w);
    var chains := Initialize();
    match x.stmt.op {
      case Create => session.Process(chains.create);
      case Update => session.Process(chains.update);
      case Delete => session.Process(chains.delete);
      case Read => session.Process(chains.read);
    }
    after := session.world;
    assert session.Current().world == after;
  }

  // ----- What a registered chain does -----

  lemma CreateRun(x: Setting, s: State)
    ensures RunChain(x, Installed().create, s)
      == Concluded(Executed(x.stmt, x.faults, Marked(x.stmt, x.parse, Begun(x.faults, Route(x.stmt, s)))))
  {
    var chain := Installed().create;
    var s1 := Route(x.stmt, s);
    var s2 := Begun(x.faults, s1);
    var s3 := Marked(x.stmt, x.parse, s2);
    var s4 := Executed(x.stmt, x.faults, s3);
    RunFrom(x, chain, 0, s);
    RunFrom(x, chain, 1, s1);
    RunFrom(x, chain, 2, s2);
    RunFrom(x, chain, 3, s2);
    RunFrom(x, chain, 4, s3);
    RunFrom(x, chain, 5, s4);
    RunFrom(x, chain, 6, s4);
  }

  lemma UpdateRun(x: Setting, s: State)
    ensures RunChain(x, Installed().update, s)
      == Concluded(Executed(x.stmt, x.faults, Begun(x.faults, Route(x.stmt, s))))
  {
    var chain := Installed().update;
    var s1 := Route(x.stmt, s);
    var s2 := Begun(x.faults, s1);
    var s3 := Executed(x.stmt, x.faults, s2);
    RunFrom(x, chain, 0, s);
    RunFrom(x, chain, 1, s1);
    RunFrom(x, chain, 2, s2);
    RunFrom(x, chain, 3, s2);
    RunFrom(x, chain, 4, s3);
    RunFrom(x, chain, 5, s3);
  }

  lemma DeleteRun(x: Setting, s: State)
    ensures RunChain(x, Installed().delete, s)
      == Concluded(Executed(x.stmt, x.faults, Begun(x.faults, Route(x.stmt, s))))
  {
    var chain := Installed().delete;
    var s1 := Route(x.stmt, s);
    var s2 := Begun(x.faults, s1);
    var s3 := Executed(x.stmt, x.faults, s2);
    RunFrom(x, chain, 0, s);
    RunFrom(x, chain, 1, s1);
    RunFrom(x, chain, 2, s2);
    RunFrom(x, chain, 3, s2);
    RunFrom(x, chain, 4, s3);
    RunFrom(x, chain, 5, s3);
  }

  lemma ReadRun(x: Setting, s: State)
    ensures RunChain(x, Installed().read, s)
      == Executed(x.stmt, x.faults, Bind(x.stmt, s))
  {
    var chain := Installed().read;
    var s1 := Bind(x.stmt, s);
    var s2 := Executed(x.stmt, x.faults, s1);
    RunFrom(x, chain, 0, s);
    RunFrom(x, chain, 1, s1);
    RunFrom(x, chain, 2, s2);
  }

  /** The rows a statement sends. */
  function RowsSent(x: Setting): Rows {
    if x.stmt.op.Create? && TenantToStamp(x.stmt, x.parse).Some?
    then StampedAll(x.stmt.rows, TenantToStamp(x.stmt, x.parse).value)
    else x.stmt.rows
  }

  predicate HasScope(stmt: Statement) {
    stmt.ctx.Some? && stmt.ctx.value.tenant != "" && stmt.ctx.value.bound
  }

  /** Where a statement is sent, or None when it is refused. */
  function Destination(x: Setting): Option<Conn> {
    var stmt := x.stmt;
    if stmt.op.Read? then
      if stmt.schema.None? || !stmt.schema.value.declaresTenant then Some(Pool)
      else if HasScope(stmt) then Some(Bound)
      else None
    else if Listed(stmt.table) && stmt.schema.Some? && stmt.ctx.Some? then
      if HasScope(stmt) then Some(Bound) else None
    else if x.faults.begin then None
    else Some(Own)
  }

  /** The chain of the statement's operation, as one expression. */
  function Outcome(x: Setting, s: State): State {
    match x.stmt.op
    case Create => Concluded(Executed(x.stmt, x.faults, Marked(x.stmt, x.parse, Begun(x.faults, Route(x.stmt, s)))))
    case Read => Executed(x.stmt, x.faults, Bind(x.stmt, s))
    case _ => Concluded(Executed(x.stmt, x.faults, Begun(x.faults, Route(x.stmt, s))))
  }

  lemma PerformIsOutcome(x: Setting, w: World)
    ensures Perform(x, w) == Outcome(x, Start(x.stmt, w)).world
  {
    var s := Start(x.stmt, w);
    match x.stmt.op {
      case Create => CreateRun(x, s);
      case Update => UpdateRun(x, s);
      case Delete => DeleteRun(x, s);
      case Read => ReadRun(x, s);
    }
  }

  /** One statement, exactly: at most one thing is sent, to its destination, and no
      transaction is ended that the statement did not begin, nor left open. */
  lemma PerformExactly(x: Setting, w: World)
    ensures Perform(x, w).sent == w.sent + (
      match Destination(x)
      case None => []
      case Some(conn) => [Sent(x.stmt.op, x.stmt.table, conn, RowsSent(x), w.boundEnds == 0)])
    ensures Perform(x, w).boundEnds == w.boundEnds && Perform(x, w).ownOpen == w.ownOpen
  {
    PerformIsOutcome(x, w);
  }

  // ----- The routing law -----

  /** What was sent between two worlds went to the bound transaction. */
  ghost predicate OnlyBound(w: World, after: World) {
    && w.sent <= after.sent
    && forall i :: |w.sent| <= i < |after.sent| ==> after.sent[i].conn == Bound
  }

  /** A write on a listed table reaches the bound transaction or nothing, exactly when
      the statement has a parsed schema and a context; without either the reroute is
      skipped, and only a failing begin keeps the write off the pool. */
  lemma ListedWriteIsBoundOrNothing(x: Setting, w: World)
    requires Listed(x.stmt.table) && !x.stmt.op.Read?
    ensures OnlyBound(w, Perform(x, w)) <==> (x.stmt.schema.Some? && x.stmt.ctx.Some?) || x.faults.begin
  {
    PerformExactly(x, w);
    if x.stmt.schema.None? || x.stmt.ctx.None? {
      if !x.faults.begin {
        assert Perform(x, w).sent[|w.sent|].conn == Own;
      }
    }
  }

  /** The write that escapes: an agent bot created from a map through a bare table
      name, which parses no schema, inside a fully scoped request. */
  lemma SchemalessWriteEscapes(parse: string -> Option<Uuid>)
    ensures var stmt := Statement(Create, "agent_bots", None, Some(Context("t", true)),
      One(Map(false, true, true, map[])));
      !OnlyBound(World(0, 0, []), Perform(Setting(stmt, Faults(false, false), parse), World(0, 0, [])))
  {
    var stmt := Statement(Create, "agent_bots", None, Some(Context("t", true)), One(Map(false, true, true, map[])));
    ListedWriteIsBoundOrNothing(Setting(stmt, Faults(false, false), parse), World(0, 0, []));
  }

  /** A read of a model with a tenant column is bound or refused; any other read is
      left on the pool. */
  lemma TenantReadIsBoundOrNothing(x: Setting, w: World)
    requires x.stmt.op.Read?
    ensures OnlyBound(w, Perform(x, w)) <==> x.stmt.schema.Some? && x.stmt.schema.value.declaresTenant
  {
    PerformExactly(x, w);
    if x.stmt.schema.None? || !x.stmt.schema.value.declaresTenant {
      assert Perform(x, w).sent[|w.sent|].conn == Pool;
    }
  }

  /** A create on a listed table whose model declares the column, under a bound and
      well-formed tenant id: the rows arrive on the bound transaction, and every row
      that can take a tenant and had none carries the request's. */
  lemma CreateCarriesTenant(x: Setting, w: World, tenant: Uuid)
    requires x.stmt.op.Create? && Listed(x.stmt.table) && x.stmt.schema == Some(Schema(true))
    requires HasScope(x.stmt) && x.parse(x.stmt.ctx.value.tenant) == Some(tenant)
    ensures |Perform(x, w).sent| == |w.sent| + 1
    ensures var sent := Perform(x, w).sent[|w.sent|];
      sent.conn == Bound && sent.table == x.stmt.table && StampedRows(x.stmt.rows, sent.rows, tenant)
  {
    PerformExactly(x, w);
    StampCarriesTenant(x.stmt.rows, tenant);
  }

  /** Without a bound, well-formed tenant the rows are sent as the caller made them. */
  lemma NoTenantNoStamp(x: Setting, w: World)
    requires TenantToStamp(x.stmt, x.parse).None? || !x.stmt.op.Create?
    ensures forall i :: |w.sent| <= i < |Perform(x, w).sent| ==> Perform(x, w).sent[i].rows == x.stmt.rows
  {
    PerformExactly(x, w);
  }

  // ----- A whole request -----

  function PerformAll(xs: seq<Setting>, w: World): World
    decreases |xs|
  {
    if xs == [] then w else PerformAll(xs[1..], Perform(xs[0], w))
  }

  /** The release at the end of the request ends the bound transaction. */
  function Release(w: World): World {
    w.(boundEnds := w.boundEnds + 1)
  }

  lemma {:induction false} PerformAllKeeps(xs: seq<Setting>, w: World)
    requires w.boundEnds == 0 && forall i :: 0 <= i < |w.sent| ==> w.sent[i].boundLive
    ensures var after := PerformAll(xs, w);
      && after.boundEnds == 0 && after.ownOpen == w.ownOpen
      && (forall i :: 0 <= i < |after.sent| ==> after.sent[i].boundLive)
    decreases |xs|
  {
    if xs != [] {
      PerformExactly(xs[0], w);
      PerformAllKeeps(xs[1..], Perform(xs[0], w));
    }
  }

  /** Over any statements, failing or not, the bound transaction is ended exactly once,
      by the release and after everything was sent, and no other transaction stays
      open. */
  lemma BoundEndsOnce(xs: seq<Setting>)
    ensures var after := Release(PerformAll(xs, World(0, 0, [])));
      && after.boundEnds == 1 && after.ownOpen == 0
      && (forall i :: 0 <= i < |after.sent| ==> after.sent[i].boundLive)
  {
    PerformAllKeeps(xs, World(0, 0, []));
  }

  /** A write on a listed table is on the bound transaction. */
  predicate BoundIfListedWrite(e: Sent) {
    Listed(e.table) && !e.op.Read? ==> e.conn == Bound
  }

  predicate RoutableIfListedWrite(stmt: Statement) {
    Listed(stmt.table) && !stmt.op.Read? ==> stmt.schema.Some? && stmt.ctx.Some?
  }

  lemma WriteStaysBound(x: Setting, w: World)
    requires RoutableIfListedWrite(x.stmt) && forall i :: 0 <= i < |w.sent| ==> BoundIfListedWrite(w.sent[i])
    ensures forall i :: 0 <= i < |Perform(x, w).sent| ==> BoundIfListedWrite(Perform(x, w).sent[i])
  {
    PerformExactly(x, w);
    var sent := Perform(x, w).sent;
    forall i | 0 <= i < |sent| ensures BoundIfListedWrite(sent[i]) {
      if i < |w.sent| {
        assert sent[i] == w.sent[i];
      }
    }
  }

  /** Over a whole request: when every write on a listed table has a schema and a
      context, all of them that are sent at all are on the bound transaction. */
  lemma {:induction false} WritesStayBound(xs: seq<Setting>, w: World)
    requires forall i :: 0 <= i < |xs| ==> RoutableIfListedWrite(xs[i].stmt)
    requires forall i :: 0 <= i < |w.sent| ==> BoundIfListedWrite(w.sent[i])
    ensures var after := PerformAll(xs, w);
      forall i :: 0 <= i < |after.sent| ==> BoundIfListedWrite(after.sent[i])
    decreases |xs|
  {
    if xs == [] {
      assert PerformAll(xs, w) == w;
    } else {
      WriteStaysBound(xs[0], w);
      WritesStayBound(xs[1..], Perform(xs[0], w));
      assert PerformAll(xs, w) == PerformAll(xs[1..], Perform(xs[0], w));
    }
  }

  // ----- Why the reroute must come first -----

  /** The write chains with the reroute registered before the write itself. */
  function LateChain(op: Operation): seq<Callback>
    requires !op.Read?
  {
    match op
    case Create => InsertBefore(InsertBefore(CREATE_CHAIN, Execute, Reroute), Execute, Stamp)
    case Update => InsertBefore(UPDATE_CHAIN, Execute, Reroute)
    case Delete => InsertBefore(DELETE_CHAIN, Execute, Reroute)
  }

  predicate WriteChain(chain: seq<Callback>) {
    |chain| == 5 && chain[0] == Begin && chain[1].Hook? && chain[2] == Execute && chain[3].Hook? && chain[4] == Commit
  }

  lemma LateRun(x: Setting, chain: seq<Callback>, s: State)
    requires WriteChain(chain)
    ensures RunChain(x, InsertBefore(chain, Execute, Reroute), s)
      == Concluded(Executed(x.stmt, x.faults, Route(x.stmt, Begun(x.faults, s))))
  {
    var late := chain[..2] + [Reroute] + chain[2..];
    InsertAt(chain, Execute, Reroute, 2);
    var s1 := Begun(x.faults, s);
    var s2 := Route(x.stmt, s1);
    var s3 := Executed(x.stmt, x.faults, s2);
    assert late == [Begin, chain[1], Reroute, Execute, chain[3], Commit];
    RunFrom(x, late, 0, s);
    RunFrom(x, late, 1, s1);
    RunFrom(x, late, 2, s1);
    RunFrom(x, late, 3, s2);
    RunFrom(x, late, 4, s3);
    RunFrom(x, late, 5, s3);
  }

  lemma LastThree(x: Setting, hook: Callback, s: State)
    requires hook.Hook?
    ensures RunChain(x, [Execute, hook, Commit], s) == Concluded(Executed(x.stmt, x.faults, s))
  {
    var chain := [Execute, hook, Commit];
    RunFrom(x, chain, 0, s);
    RunFrom(x, chain, 1, Executed(x.stmt, x.faults, s));
    RunFrom(x, chain, 2, Executed(x.stmt, x.faults, s));
  }

  lemma LateCreateIs()
    ensures LateChain(Create) == [Begin, CREATE_CHAIN[1], Reroute, Stamp, Execute, CREATE_CHAIN[3], Commit]
  {
    var rerouted := CREATE_CHAIN[..2] + [Reroute] + CREATE_CHAIN[2..];
    InsertAt(CREATE_CHAIN, Execute, Reroute, 2);
    InsertAt(rerouted, Execute, Stamp, 3);
  }

  lemma LateCreateRun(x: Setting, s: State)
    ensures RunChain(x, LateChain(Create), s)
      == Concluded(Executed(x.stmt, x.faults, Marked(x.stmt, x.parse, Route(x.stmt, Begun(x.faults, s)))))
  {
    LateCreateIs();
    var late := [Begin, CREATE_CHAIN[1], Reroute, Stamp, Execute, CREATE_CHAIN[3], Commit];
    var s1 := Begun(x.faults, s);
    var s2 := Route(x.stmt, s1);
    RunFrom(x, late, 0, s);
    RunFrom(x, late, 1, s1);
    RunFrom(x, late, 2, s1);
    RunFrom(x, late, 3, s2);
    assert late[4..] == [Execute, CREATE_CHAIN[3], Commit];
    LastThree(x, CREATE_CHAIN[3], Marked(x.stmt, x.parse, s2));
  }

  /** Registering the reroute before the write, after begin, ends the request's
      transaction with the first routed create, update or delete, and leaves the
      framework's own open. */
  lemma LateRerouteEndsTheRequest(x: Setting, w: World)
    requires !x.stmt.op.Read? && Listed(x.stmt.table) && x.stmt.schema.Some? && HasScope(x.stmt) && !x.faults.begin
    ensures var after := RunChain(x, LateChain(x.stmt.op), Start(x.stmt, w)).world;
      after.boundEnds == w.boundEnds + 1 && after.ownOpen == w.ownOpen + 1
  {
    var s := Start(x.stmt, w);
    match x.stmt.op {
      case Create => LateCreateRun(x, s);
      case Update => LateRun(x, UPDATE_CHAIN, s);
      case Delete => LateRun(x, DELETE_CHAIN, s);
    }
  }
}
