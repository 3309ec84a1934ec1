/** What the vault stores, column by column and by the literal words of a request:
    patched and created credentials, patched keys, the row of a connection, and
    which rows may be deleted. */
module VaultColumns {
  import opened Wrappers
  import opened Vault
  import opened VaultRuns
  import opened CredentialPatch
  import opened ApiKeyPatch
  import opened TextLaws
  import opened Strings

  // ----- Words and hints -----

  predicate IsScope(word: string, scope: Scope) {
    scope == if word == "installation" then Installation else Account
  }

  predicate IsFormat(word: string, format: Format) {
    format == if word == "composite" then Composite else Scalar
  }

  /** The last four characters, or the whole of a shorter secret. */
  ghost predicate IsHint(secret: string, hint: string) {
    if |secret| < 4 then hint == secret else |hint| == 4 && exists rest :: secret == rest + hint
  }

  /** What must stay secret of a value sent in a format: its password when it is a
      pair, the whole of it otherwise; never the empty text. */
  ghost predicate IsSecret(value: string, format: string, decode: Decoder, secret: string) {
    && secret != ""
    && if format == "composite"
       then match decode(value)
            case Some(fields) => "password" in fields && fields["password"] == secret
            case None => false
       else value == secret
  }

  ghost predicate HoldsSecret(value: string, format: string, decode: Decoder) {
    exists secret :: IsSecret(value, format, decode, secret)
  }

  /** The hint a value leaves behind. */
  ghost predicate IsHintOf(value: string, format: string, decode: Decoder, hint: string) {
    exists secret :: IsSecret(value, format, decode, secret) && IsHint(secret, hint)
  }

  lemma HintIs(secret: string)
    ensures IsHint(secret, ValueHint(secret))
  {
    var hint := ValueHint(secret);
    assert secret == secret[..|secret| - |hint|] + hint;
  }

  lemma SecretIs(value: string, format: string, decode: Decoder)
    requires value != ""
    ensures var secret := Sensitive(value, NormalizeFormat(format), decode);
      && (secret.Some? <==> HoldsSecret(value, format, decode))
      && (secret.Some? ==> IsHintOf(value, format, decode, ValueHint(secret.value)))
  {
    var secret := Sensitive(value, NormalizeFormat(format), decode);
    if secret.Some? {
      HintIs(secret.value);
      assert IsSecret(value, format, decode, secret.value);
    }
  }

  // ----- Credentials -----

  /** Which requests are taken at all: no word "oauth" for the kind, and a value, if
      any, with something to keep secret. */
  ghost predicate IsTaken(r: CredentialPatch.Request, decode: Decoder) {
    r.kind != "oauth" && (r.value != "" ==> HoldsSecret(r.value, r.format, decode))
  }

  ghost predicate SecretColumns(before: Credential, after: Credential, r: CredentialPatch.Request, decode: Decoder) {
    if r.value == "" then (after.value, after.format, after.hint) == (before.value, before.format, before.hint)
    else
      && after.value == Some(Cipher(r.value)) && IsFormat(r.format, after.format)
      && IsHintOf(r.value, r.format, decode, after.hint)
  }

  /** The row after a patch: what was sent replaces, what was not stays. */
  ghost predicate IsPatched(before: Credential, after: Credential, r: CredentialPatch.Request, decode: Decoder) {
    && after.name == (if r.name != "" then r.name else before.name)
    && after.provider == (if r.provider != "" then r.provider else before.provider)
    && (if r.scope != "" then IsScope(r.scope, after.scope) else after.scope == before.scope)
    && after.active == (match r.isActive case Some(active) => active case None => before.active)
    && after.kind == before.kind && after.owner == before.owner
    && SecretColumns(before, after, r, decode)
  }

  /** The row of a create. */
  ghost predicate IsNew(row: Credential, r: CredentialPatch.Request, decode: Decoder) {
    && row.name == r.name && row.provider == r.provider && row.kind == Static && row.owner == None && row.active
    && row.value == Some(Cipher(r.value)) && IsScope(r.scope, row.scope) && IsFormat(r.format, row.format)
    && IsHintOf(r.value, r.format, decode, row.hint)
  }

  lemma TakenExactly(r: CredentialPatch.Request, decode: Decoder)
    ensures Acceptable(r, decode) <==> IsTaken(r, decode)
  {
    if r.value != "" {
      SecretIs(r.value, r.format, decode);
    }
  }

  lemma RequestedIsPatched(before: Credential, r: CredentialPatch.Request, decode: Decoder)
    requires IsTaken(r, decode)
    ensures IsPatched(before, Requested(before, r, decode), r, decode)
  {
    if r.value != "" {
      SecretIs(r.value, r.format, decode);
    }
  }

  /** The table takes the row under this id: its name is free in its scope, and it has
      a value or an owner as its kind says. */
  ghost predicate Admits(rows: map<nat, Credential>, id: nat, row: Credential) {
    && (forall other :: other in rows && other != id ==>
          rows[other].name != row.name || rows[other].scope != row.scope)
    && if row.kind == Static then row.value != None && row.owner == None else row.value == None && row.owner != None
  }

  /** Where the statements of a patch leave the table, and what they answer: nothing
      done when the first fails or the table does not take the row, the active column
      left out when the second fails, and no row when it cannot be read back. */
  ghost predicate IsCutOff(rows: map<nat, Credential>, id: nat, first: Credential, second: Credential, switches: bool,
                           faults: Faults, after: map<nat, Credential>, row: Option<Credential>)
  {
    if faults.structWrite || !Admits(rows, id, first) then after == rows && row == None
    else if switches && faults.activeWrite then after == rows[id := first] && row == None
    else after == rows[id := second] && row == (if faults.readBack then None else Some(second))
  }

  lemma AdmitsIs(rows: map<nat, Credential>, id: nat, row: Credential)
    ensures Admits(rows, id, row) <==> KindContent(row) && !NameClash(rows, id, row)
  {
  }

  lemma StatementsAreCutOff(rows: map<nat, Credential>, id: nat, patch: Patch, isActive: Option<bool>, faults: Faults)
    requires id in rows
    ensures var first := Patched(rows[id], patch);
      var second := match isActive case Some(active) => first.(active := active) case None => first;
      var (after, row) := Repatched(rows, id, patch, isActive, faults);
      IsCutOff(rows, id, first, second, isActive != None, faults, after, row)
  {
    AdmitsIs(rows, id, Patched(rows[id], patch));
  }

  lemma PatchLeaves(rows: map<nat, Credential>, id: nat, r: CredentialPatch.Request, decode: Decoder, hint: string,
                    faults: Faults)
    requires id in rows && HintSent(r, decode, hint)
    ensures var (after, row) := Repatched(rows, id, PatchFor(r, hint), r.isActive, faults);
      exists first, second ::
        && IsPatched(rows[id], first, r.(isActive := None), decode) && IsPatched(rows[id], second, r, decode)
        && IsCutOff(rows, id, first, second, r.isActive != None, faults, after, row)
  {
    var first, second := Requested(rows[id], r.(isActive := None), decode), Requested(rows[id], r, decode);
    TakenExactly(r, decode);
    TakenExactly(r.(isActive := None), decode);
    RequestedIsPatched(rows[id], r.(isActive := None), decode);
    RequestedIsPatched(rows[id], r, decode);
    PatchMeetsRequest(rows[id], r, decode, hint);
    StatementsAreCutOff(rows, id, PatchFor(r, hint), r.isActive, faults);
    assert r.isActive == None ==> first == second;
  }

  lemma CreatedIsNew(r: CredentialPatch.Request, decode: Decoder)
    requires IsTaken(r, decode) && r.value != ""
    ensures Sensitive(r.value, NormalizeFormat(r.format), decode).Some?
    ensures IsNew(NewRow(r, decode), r, decode)
  {
    SecretIs(r.value, r.format, decode);
  }

  // ----- API keys -----

  /** The key sent: the front end's field, or the back end's where that is empty. */
  predicate SendsKey(r: KeyRequest, key: string) {
    if r.keyValue != "" then key == r.keyValue else key == r.key
  }

  /** The endpoint after an update: kept, cleared by a blank text, or the trimmed one. */
  ghost predicate IsEndpoint(sent: Option<string>, before: Option<string>, after: Option<string>) {
    match sent
    case None => after == before
    case Some(url) => match after case None => IsTrimmed(url, "") case Some(kept) => kept != "" && IsTrimmed(url, kept)
  }

  ghost predicate IsKeyPatched(before: ApiKey, after: ApiKey, r: KeyRequest) {
    && after.name == (if r.name != "" then r.name else before.name)
    && after.provider == (if r.provider != "" then r.provider else before.provider)
    && (if r.scope != "" then IsScope(r.scope, after.scope) else after.scope == before.scope)
    && after.active == (match r.isActive case Some(active) => active case None => before.active)
    && (forall key :: SendsKey(r, key) ==>
          if key == "" then (after.key, after.hint) == (before.key, before.hint)
          else after.key == Cipher(key) && IsHint(key, after.hint))
    && IsEndpoint(r.baseUrl, before.baseUrl, after.baseUrl)
  }

  lemma EndpointIs(before: ApiKey, r: KeyRequest)
    ensures IsEndpoint(r.baseUrl, before.baseUrl, Asked(before, r).baseUrl)
  {
    match r.baseUrl {
      case Some(url) => TrimmedIsTrim(url, Trim(url));
      case None =>
    }
  }

  lemma KeyIs(before: ApiKey, r: KeyRequest, key: string)
    requires SendsKey(r, key)
    ensures var after := Asked(before, r);
      if key == "" then (after.key, after.hint) == (before.key, before.hint)
      else after.key == Cipher(key) && IsHint(key, after.hint)
  {
    HintIs(key);
    assert SentKey(r) == key;
  }

  lemma AskedIsPatched(before: ApiKey, r: KeyRequest)
    ensures IsKeyPatched(before, Asked(before, r), r)
  {
    var after := Asked(before, r);
    EndpointIs(before, r);
    forall key | SendsKey(r, key)
      ensures if key == "" then (after.key, after.hint) == (before.key, before.hint)
        else after.key == Cipher(key) && IsHint(key, after.hint)
    {
      KeyIs(before, r, key);
    }
  }

  /** An update none of whose statements fails leaves the row patched as the request
      says, whatever the read-back does. */
  lemma KeyIsPatched(before: ApiKey, r: KeyRequest, faults: KeyFaults)
    requires !faults.structWrite && !faults.clearWrite && !faults.activeWrite
    ensures IsKeyPatched(before, Written(before, PatchOf(r), r.isActive, faults), r)
  {
    StatementsMeetRequest(before, r, faults);
    AskedIsPatched(before, r);
  }

  /** The endpoint is cleared by a statement of its own, as is the active column set:
      where the three statements leave the row. */
  lemma KeyPatchLeaves(before: ApiKey, r: KeyRequest, faults: KeyFaults)
    ensures var after := Written(before, PatchOf(r), r.isActive, faults);
      var clears := r.baseUrl.Some? && IsTrimmed(r.baseUrl.value, "");
      exists full :: IsKeyPatched(before, full, r)
        && if faults.structWrite then after == before
           else if clears && faults.clearWrite then after == full.(baseUrl := before.baseUrl, active := before.active)
           else if faults.activeWrite then after == full.(active := before.active)
           else after == full
  {
    AskedIsPatched(before, r);
    StructMeetsRequest(before, r);
    if r.baseUrl.Some? {
      TrimmedIsTrim(r.baseUrl.value, "");
    }
  }

  // ----- Connections -----

  /** The providers whose connections the vault mirrors. */
  predicate IsMirrored(provider: string) {
    provider in {"github", "notion", "stripe", "linear", "monday", "atlassian", "asana", "hubspot", "paypal", "canva",
                 "supabase", "google_calendar", "google_sheets"}
  }

  /** `github - Ana (0123abcd)`: the provider, the agent by its name or else its id,
      and the connection by at most eight characters. */
  ghost predicate IsRowName(c: Connection, name: string) {
    exists who, short ::
      && name == c.provider + " - " + who + " (" + short + ")"
      && (if c.agentName != "" then who == c.agentName else who == c.agentId)
      && short <= c.integrationId && |short| <= 8 && (|short| < 8 ==> short == c.integrationId)
  }

  lemma RowNameIs(c: Connection)
    ensures IsRowName(c, VaultRowName(c))
  {
  }

  /** The row a connection gets: a reference, never a secret. */
  ghost predicate IsReferenceRow(c: Connection, row: Credential) {
    && IsRowName(c, row.name) && row.provider == c.provider && row.kind == OAuth
    && row.value == None && row.format == Scalar && row.hint == "" && row.scope == Account && row.active
    && row.owner == Some(Owner("agent_integration", c.integrationId))
  }

  lemma VaultRowIs(c: Connection)
    ensures IsReferenceRow(c, ToVaultRow(c))
  {
    RowNameIs(c);
  }

  /** The live connections: those of a mirrored provider. */
  lemma LiveExactly(connections: seq<Connection>, ref: string)
    ensures ref in LiveRefs(connections) <==>
      exists c :: c in connections && IsMirrored(c.provider) && c.integrationId == ref
  {
    LiveRefsAre(connections, ref);
    if c :| c in connections && IsMirrored(c.provider) && c.integrationId == ref {
      var i :| 0 <= i < |connections| && connections[i] == c;
      assert IsConnectionProvider(connections[i].provider);
    }
  }

  // ----- Deleting -----

  /** A row that mirrors a connection which is still there. */
  predicate IsConnected(row: Credential, connections: seq<Connection>) {
    && row.kind == OAuth
    && exists c :: c in connections && IsMirrored(c.provider)
         && row.owner == Some(Owner("agent_integration", c.integrationId))
  }

  predicate IsMirror(row: Credential) {
    row.kind == OAuth && row.owner.Some? && row.owner.value.store == "agent_integration"
  }

  /** A row is deleted exactly when it is there, is no mirror of a connection that is
      still there, nothing consumes it, and every read and the write work. */
  lemma DeletesExactly(rows: map<nat, Credential>, id: nat, connections: Option<seq<Connection>>,
                       consumers: Option<seq<string>>, fault: bool)
    ensures DeleteOutcome(rows, id, connections, consumers, fault) == Removed <==>
      && id in rows && !fault && consumers == Some([])
      && (IsMirror(rows[id]) ==> connections.Some? && !IsConnected(rows[id], connections.value))
    ensures DeleteOutcome(rows, id, connections, consumers, fault) == NotFound <==> id !in rows
  {
    if id in rows && IsMirror(rows[id]) && connections.Some? {
      OwningIsLive(connections.value, rows[id].owner.value.ref);
      LiveExactly(connections.value, rows[id].owner.value.ref);
    }
  }
}
