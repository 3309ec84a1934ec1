/** Creating and patching vault credentials: fields a request omits, fields it
    clears, and the hint that must follow the secret. */
module CredentialPatch {
  import opened Wrappers
  import opened Vault
  import opened VaultRows
  import opened VaultSync
  import opened VaultRuns

  /** A request body; the empty string and None mean "not sent". */
  datatype Request = Request(
    name: string, provider: string, kind: string, scope: string, format: string, value: string, isActive: Option<bool>)

  /** Decoding of a composite envelope into its string fields. */
  type Decoder = string -> Option<map<string, string>>

  // ----- Normalisation and hints -----

  function NormalizeScope(scope: string): Scope {
    if scope == "installation" then Installation else Account
  }

  function NormalizeKind(kind: string): Kind {
    if kind == "oauth" then OAuth else Static
  }

  function NormalizeFormat(format: string): Format {
    if format == "composite" then Composite else Scalar
  }

  const HINT_LENGTH: nat := 4

  /** DeriveValueHint: the last characters of a secret. */
  function ValueHint(secret: string): (hint: string)
    ensures |hint| == (if |secret| < HINT_LENGTH then |secret| else HINT_LENGTH) && hint == secret[|secret| - |hint|..]
    ensures hint == "" <==> secret == ""
  {
    if |secret| <= HINT_LENGTH then secret else secret[|secret| - HINT_LENGTH..]
  }

  /** The component of a stored value that must stay secret: the whole scalar, or
      the password of a composite pair. */
  function Sensitive(plain: string, format: Format, decode: Decoder): Option<string> {
    if format.Scalar? then (if plain == "" then None else Some(plain))
    else
      var fields := decode(plain);
      if fields.Some? && "password" in fields.value && fields.value["password"] != ""
        then Some(fields.value["password"])
      else None
  }

  /** deriveHint, for a non-empty value. */
  method DeriveHint(value: string, format: Format, decode: Decoder) returns (hint: Option<string>)
    requires value != ""
    ensures hint.Some? <==> Sensitive(value, format, decode).Some?
    ensures hint.Some? ==> hint.value == ValueHint(Sensitive(value, format, decode).value)
  {
    if format.Composite? {
      var fields := decode(value);
      if fields.None? {
        return None;
      }
      var secret := if "password" in fields.value then fields.value["password"] else "";
      if secret == "" {
        return None;
      }
      return Some(ValueHint(secret));
    }
    return Some(ValueHint(value));
  }

  // ----- Partial writes -----

  /** The struct handed to the partial write; zero-valued fields are skipped. */
  datatype Patch = Patch(
    name: string, provider: string, scope: Option<Scope>, format: Option<Format>, value: Option<Cipher>, hint: string)

  function Patched(row: Credential, patch: Patch): Credential {
    row.(name := OrElse(patch.name, row.name),
         provider := OrElse(patch.provider, row.provider),
         scope := if patch.scope.Some? then patch.scope.value else row.scope,
         format := if patch.format.Some? then patch.format.value else row.format,
         value := if patch.value.Some? then patch.value else row.value,
         hint := OrElse(patch.hint, row.hint))
  }

  datatype Faults = Faults(structWrite: bool, activeWrite: bool, readBack: bool)

  /** The repository's Update: the struct, then is_active on its own, then the
      read-back. A failure keeps what was written before it. */
  function Repatched(rows: map<nat, Credential>, id: nat, patch: Patch, isActive: Option<bool>, faults: Faults)
    : (map<nat, Credential>, Option<Credential>)
    requires id in rows
  {
    var row := Patched(rows[id], patch);
    if faults.structWrite || !KindContent(row) || NameClash(rows, id, row) then (rows, None)
    else
      var written := rows[id := row];
      if isActive.None? then (written, if faults.readBack then None else Some(row))
      else if faults.activeWrite then (written, None)
      else
        var switched := row.(active := isActive.value);
        (rows[id := switched], if faults.readBack then None else Some(switched))
  }

  lemma ReplaceKeepsLegal(rows: map<nat, Credential>, id: nat, row: Credential)
    requires Legal(rows) && id in rows && row.owner == rows[id].owner
    requires KindContent(row) && !NameClash(rows, id, row)
    ensures Legal(rows[id := row])
  {
    var after := rows[id := row];
    forall i, j | SharesName(after, i, j) ensures i == j {
      assert SharesName(rows, i, j) || i == id || j == id;
    }
    forall i, j | SharesOwner(after, i, j) ensures i == j {
      assert SharesOwner(rows, i, j);
    }
  }

  lemma ActiveKeepsLegal(rows: map<nat, Credential>, id: nat, active: bool)
    requires Legal(rows) && id in rows
    ensures Legal(rows[id := rows[id].(active := active)])
  {
    var row := rows[id].(active := active);
    forall other | other in rows && other != id ensures rows[other].scope != row.scope || rows[other].name != row.name {
      assert !SharesName(rows, other, id);
    }
    ReplaceKeepsLegal(rows, id, row);
  }

  method UpdateRow(table: VaultTable, id: nat, patch: Patch, isActive: Option<bool>, faults: Faults)
    returns (row: Option<Credential>)
    requires table.Valid() && id in table.rows
    modifies table
    ensures table.Valid()
    ensures (table.rows, row) == Repatched(old(table.rows), id, patch, isActive, faults)
  {
    var patched := Patched(table.rows[id], patch);
    if faults.structWrite || !KindContent(patched) || NameClash(table.rows, id, patched) {
      return None;
    }
    ReplaceKeepsLegal(table.rows, id, patched);
    table.rows := table.rows[id := patched];
    if isActive.Some? {
      if faults.activeWrite {
        return None;
      }
      ActiveKeepsLegal(table.rows, id, isActive.value);
      ghost var before := old(table.rows);
      table.rows := table.rows[id := table.rows[id].(active := isActive.value)];
      assert table.rows == before[id := patched.(active := isActive.value)];
    }
    return if faults.readBack then None else Some(table.rows[id]);
  }

  // ----- The handler -----

  datatype Outcome = Rejected | Unknown | NotSaved | Saved(row: Credential)

  /** What a request would make of a stored row if every step worked: omitted
      fields keep, sent ones are normalised, `false` is written. */
  function Requested(row: Credential, r: Request, decode: Decoder): Credential {
    var base := row.(
      name := OrElse(r.name, row.name),
      provider := OrElse(r.provider, row.provider),
      scope := if r.scope == "" then row.scope else NormalizeScope(r.scope),
      active := if r.isActive.Some? then r.isActive.value else row.active);
    if r.value == "" then base
    else
      var secret := Sensitive(r.value, NormalizeFormat(r.format), decode);
      base.(value := Some(Cipher(r.value)), format := NormalizeFormat(r.format),
            hint := if secret.Some? then ValueHint(secret.value) else row.hint)
  }

  function PatchFor(r: Request, hint: string): Patch {
    Patch(r.name, r.provider,
          if r.scope == "" then None else Some(NormalizeScope(r.scope)),
          if r.value == "" then None else Some(NormalizeFormat(r.format)),
          if r.value == "" then None else Some(Cipher(r.value)),
          hint)
  }

  predicate Acceptable(r: Request, decode: Decoder) {
    NormalizeKind(r.kind).Static? && (r.value == "" || Sensitive(r.value, NormalizeFormat(r.format), decode).Some?)
  }

  /** A patch that went through, or was cut off before is_active was written. */
  ghost predicate PatchWrite(before: map<nat, Credential>, after: map<nat, Credential>, id: nat, r: Request,
                             decode: Decoder)
  {
    && id in before && Acceptable(r, decode)
    && exists sent :: (sent == r || sent == r.(isActive := None))
         && KindContent(Requested(before[id], sent, decode))
           && after == before[id := Requested(before[id], sent, decode)]
  }

  function NewRow(r: Request, decode: Decoder): Credential
    requires Sensitive(r.value, NormalizeFormat(r.format), decode).Some?
  {
    Credential(r.name, r.provider, Static, Some(Cipher(r.value)), NormalizeFormat(r.format),
               ValueHint(Sensitive(r.value, NormalizeFormat(r.format), decode).value), NormalizeScope(r.scope),
                 None, true)
  }

  ghost predicate CreateWrite(before: map<nat, Credential>, after: map<nat, Credential>, id: nat, r: Request,
                              decode: Decoder)
  {
    && id !in before && Acceptable(r, decode) && r.value != ""
    && after == before[id := NewRow(r, decode)]
  }

  /** The hint the handler derived for the request. */
  predicate HintSent(r: Request, decode: Decoder, hint: string) {
    && Acceptable(r, decode)
    && (if r.value == "" then hint == ""
      else hint == ValueHint(Sensitive(r.value, NormalizeFormat(r.format), decode).value))
  }

  /** A non-empty secret never yields an empty, hence skipped, hint. */
  lemma HintIsNeverSkipped(row: Credential, r: Request, decode: Decoder, hint: string)
    requires HintSent(r, decode, hint)
    ensures OrElse(hint, row.hint) ==
      if r.value == "" then row.hint else ValueHint(Sensitive(r.value, NormalizeFormat(r.format), decode).value)
  {
  }

  lemma PatchMeetsSecret(row: Credential, r: Request, decode: Decoder, hint: string)
    requires HintSent(r, decode, hint)
    ensures var after, asked := Patched(row, PatchFor(r, hint)), Requested(row, r, decode);
      (after.value, after.format, after.hint) == (asked.value, asked.format, asked.hint)
  {
    HintIsNeverSkipped(row, r, decode, hint);
    var after, asked := Patched(row, PatchFor(r, hint)), Requested(row, r, decode);
    assert after.value == asked.value;
    assert after.format == asked.format;
    assert after.hint == asked.hint;
  }

  /** The skip-zero struct plus the explicit column implement the request. */
  lemma PatchMeetsRequest(row: Credential, r: Request, decode: Decoder, hint: string)
    requires HintSent(r, decode, hint)
    ensures Patched(row, PatchFor(r, hint)) == Requested(row, r.(isActive := None), decode)
    ensures r.isActive.Some? ==>
      Patched(row, PatchFor(r, hint)).(active := r.isActive.value) == Requested(row, r, decode)
  {
    var after, asked := Patched(row, PatchFor(r, hint)), Requested(row, r, decode);
    var cut := r.(isActive := None);
    PatchMeetsSecret(row, r, decode, hint);
    PatchMeetsSecret(row, cut, decode, hint);
    assert PatchFor(cut, hint) == PatchFor(r, hint);
    assert after.name == asked.name && after.provider == asked.provider && after.scope == asked.scope;
    assert after.kind == asked.kind && after.owner == asked.owner;
  }

  /** The handler's and service's Update. */
  method Update(table: VaultTable, id: nat, r: Request, decode: Decoder, faults: Faults) returns (outcome: Outcome)
    requires table.Valid()
    modifies table
    ensures table.Valid()
    ensures outcome.Rejected? <==> !Acceptable(r, decode)
    ensures outcome.Unknown? <==> Acceptable(r, decode) && id !in old(table.rows)
    ensures outcome.Rejected? || outcome.Unknown? ==> table.rows == old(table.rows)
    ensures outcome.Saved? ==> outcome.row == Requested(old(table.rows)[id], r, decode)
    ensures outcome.Saved? ==> table.rows == old(table.rows)[id := outcome.row]
    ensures table.rows == old(table.rows) || PatchWrite(old(table.rows), table.rows, id, r, decode)
  {
    if NormalizeKind(r.kind).OAuth? {
      return Rejected;
    }
    var hint := "";
    if r.value != "" {
      var derived := DeriveHint(r.value, NormalizeFormat(r.format), decode);
      if derived.None? {
        return Rejected;
      }
      hint := derived.value;
    }
    if id !in table.rows {
      return Unknown;
    }
    PatchMeetsRequest(table.rows[id], r, decode, hint);
    var row := UpdateRow(table, id, PatchFor(r, hint), r.isActive, faults);
    return if row.Some? then Saved(row.value) else NotSaved;
  }

  lemma InsertKeepsLegal(rows: map<nat, Credential>, id: nat, row: Credential)
    requires Legal(rows) && id !in rows && KindContent(row) && row.owner.None? && !NameClash(rows, id, row)
    ensures Legal(rows[id := row])
  {
    var after := rows[id := row];
    forall i, j | SharesName(after, i, j) ensures i == j {
      assert SharesName(rows, i, j) || i == id || j == id;
    }
    forall i, j | SharesOwner(after, i, j) ensures i == j {
      assert SharesOwner(rows, i, j);
    }
  }

  /** The handler's Create: a static row with a value, its hint and format. */
  method Create(table: VaultTable, r: Request, decode: Decoder, fault: bool) returns (outcome: Outcome)
    requires table.Valid()
    modifies table
    ensures table.Valid()
    ensures outcome.Rejected? <==> !Acceptable(r, decode) || r.value == ""
    ensures !outcome.Saved? ==> table.rows == old(table.rows)
    ensures outcome.Saved? ==> outcome.row == NewRow(r, decode)
    ensures outcome.Saved? ==> CreateWrite(old(table.rows), table.rows, old(table.nextId), r, decode)
  {
    if NormalizeKind(r.kind).OAuth? || r.value == "" {
      return Rejected;
    }
    var format := NormalizeFormat(r.format);
    var hint := DeriveHint(r.value, format, decode);
    if hint.None? {
      return Rejected;
    }
    var row := Credential(r.name, r.provider, Static, Some(Cipher(r.value)), format, hint.value,
      NormalizeScope(r.scope), None, true);
    if fault || NameClash(table.rows, table.nextId, row) {
      return NotSaved;
    }
    InsertKeepsLegal(table.rows, table.nextId, row);
    table.rows := table.rows[table.nextId := row];
    table.nextId := table.nextId + 1;
    return Saved(row);
  }

  // ----- The hint follows the secret -----

  /** A static row shows the last characters of its decrypted sensitive part. */
  predicate HintOf(row: Credential, decode: Decoder) {
    row.kind.Static? ==>
      && row.value.Some?
      && Sensitive(row.value.value.plain, row.format, decode).Some?
      && row.hint == ValueHint(Sensitive(row.value.value.plain, row.format, decode).value)
  }

  predicate Coherent(rows: map<nat, Credential>, decode: Decoder) {
    forall id :: id in rows ==> HintOf(rows[id], decode)
  }

  /** One step of the vault: a create, a patch that may be cut off, a sync, or a
      removal. */
  ghost predicate WriteStep(before: map<nat, Credential>, after: map<nat, Credential>, decode: Decoder) {
    || (exists id, r :: CreateWrite(before, after, id, r, decode))
    || (exists id, r :: PatchWrite(before, after, id, r, decode))
    || (exists live :: Evolved(before, after, live))
    || (exists id :: after == before - {id})
  }

  lemma RequestKeepsHint(row: Credential, r: Request, decode: Decoder)
    requires HintOf(row, decode) && Acceptable(r, decode)
    ensures HintOf(Requested(row, r, decode), decode)
  {
  }

  lemma SyncKeepsHints(before: map<nat, Credential>, after: map<nat, Credential>, live: set<string>, decode: Decoder)
    requires Legal(before) && Legal(after) && Coherent(before, decode) && Evolved(before, after, live)
    ensures Coherent(after, decode)
  {
    forall id | id in after ensures HintOf(after[id], decode) {
      if id in before {
        assert RowKept(before, after, id);
      }
    }
  }

  lemma StepKeepsHints(before: map<nat, Credential>, after: map<nat, Credential>, decode: Decoder)
    requires Legal(before) && Legal(after) && Coherent(before, decode)
    requires WriteStep(before, after, decode)
    ensures Coherent(after, decode)
  {
    if id, r :| CreateWrite(before, after, id, r, decode) {
    } else if id, r :| PatchWrite(before, after, id, r, decode) {
      RequestKeepsHint(before[id], r, decode);
      RequestKeepsHint(before[id], r.(isActive := None), decode);
    } else if live :| Evolved(before, after, live) {
      SyncKeepsHints(before, after, live, decode);
    }
  }

  /** Over every run of creates, patches (cut off or not), syncs and removals,
      each static row's hint is the last four characters of its decrypted
      sensitive component. */
  lemma {:induction false} HintsFollowSecrets(tables: seq<map<nat, Credential>>, decode: Decoder)
    requires tables != [] && Coherent(tables[0], decode)
    requires forall k :: 0 <= k < |tables| ==> Legal(tables[k])
    requires forall k :: 0 <= k < |tables| - 1 ==> WriteStep(tables[k], tables[k + 1], decode)
    ensures Coherent(tables[|tables| - 1], decode)
  {
    var k := 0;
    while k < |tables| - 1
      invariant 0 <= k < |tables|
      invariant Coherent(tables[k], decode)
    {
      StepKeepsHints(tables[k], tables[k + 1], decode);
      k := k + 1;
    }
  }

  /** A patch never moves a row to another owner or kind, so for the connection
      runs it is an edit. */
  lemma PatchIsEdit(before: map<nat, Credential>, after: map<nat, Credential>, id: nat, r: Request, decode: Decoder,
                    connections: seq<Connection>)
    requires PatchWrite(before, after, id, r, decode)
    ensures EditStep(VaultState(before, connections), VaultState(after, connections))
  {
  }
}
