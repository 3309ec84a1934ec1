/** Patching an API key: up to three statements, so that clearing the endpoint
    and switching the key off reach columns the partial write skips. */
module ApiKeyPatch {
  import opened Wrappers
  import opened Strings
  import opened Vault
  import opened CredentialPatch

  datatype ApiKey = ApiKey(
    name: string, provider: string, key: Cipher, hint: string, scope: Scope, baseUrl: Option<string>, active: bool)

  /** An update body: None is "not sent", a blank `baseUrl` clears it. */
  datatype KeyRequest = KeyRequest(
    name: string, provider: string, scope: string, key: string, keyValue: string,
    baseUrl: Option<string>, isActive: Option<bool>)

  /** The struct handed to the repository; `baseUrlSet` is not a column. */
  datatype KeyPatch = KeyPatch(
    name: string, provider: string, scope: Option<Scope>, key: Option<Cipher>, hint: string,
    baseUrl: Option<string>, baseUrlSet: bool)

  /** The front end's field wins over the back end's. */
  function SentKey(r: KeyRequest): string {
    if r.keyValue != "" then r.keyValue else r.key
  }

  function NormalizeBaseUrl(url: string): Option<string> {
    if Trim(url) == "" then None else Some(Trim(url))
  }

  function SkipZero(row: ApiKey, p: KeyPatch): ApiKey {
    row.(name := OrElse(p.name, row.name),
         provider := OrElse(p.provider, row.provider),
         scope := if p.scope.Some? then p.scope.value else row.scope,
         key := if p.key.Some? then p.key.value else row.key,
         hint := OrElse(p.hint, row.hint),
         baseUrl := if p.baseUrl.Some? then p.baseUrl else row.baseUrl)
  }

  datatype KeyFaults = KeyFaults(structWrite: bool, clearWrite: bool, activeWrite: bool, readBack: bool)

  function Clears(p: KeyPatch): bool {
    p.baseUrlSet && p.baseUrl.None?
  }

  predicate CutOff(p: KeyPatch, isActive: Option<bool>, faults: KeyFaults) {
    faults.structWrite || (Clears(p) && faults.clearWrite) || (isActive.Some? && faults.activeWrite)
  }

  function Written(row: ApiKey, p: KeyPatch, isActive: Option<bool>, faults: KeyFaults): ApiKey {
    if faults.structWrite then row
    else
      var patched := SkipZero(row, p);
      if Clears(p) && faults.clearWrite then patched
      else
        var cleared := if Clears(p) then patched.(baseUrl := None) else patched;
        if isActive.None? || faults.activeWrite then cleared else cleared.(active := isActive.value)
  }

  class KeyTable {
    var keys: map<nat, ApiKey>

    constructor ()
      ensures keys == map[]
    {
      keys := map[];
    }

    /** The repository's Update: which of its statements took effect is decided
        by the first one that fails; all of them may take effect and the row still
        not be read back. */
    method Update(id: nat, p: KeyPatch, isActive: Option<bool>, faults: KeyFaults) returns (row: Option<ApiKey>)
      requires id in keys
      modifies this
      ensures keys == old(keys)[id := Written(old(keys)[id], p, isActive, faults)]
      ensures row.None? <==> CutOff(p, isActive, faults) || faults.readBack
      ensures row.Some? ==> row.value == keys[id]
    {
      if faults.structWrite {
        return None;
      }
      keys := keys[id := SkipZero(keys[id], p)];
      if p.baseUrlSet && p.baseUrl.None? {
        if faults.clearWrite {
          return None;
        }
        keys := keys[id := keys[id].(baseUrl := None)];
      }
      if isActive.Some? {
        if faults.activeWrite {
          return None;
        }
        keys := keys[id := keys[id].(active := isActive.value)];
      }
      return if faults.readBack then None else Some(keys[id]);
    }
  }

  /** The handler's translation of a request. */
  function PatchOf(r: KeyRequest): KeyPatch {
    KeyPatch(r.name, r.provider,
             if r.scope == "" then None else Some(NormalizeScope(r.scope)),
             if SentKey(r) == "" then None else Some(Cipher(SentKey(r))),
             if SentKey(r) == "" then "" else ValueHint(SentKey(r)),
             if r.baseUrl.Some? then NormalizeBaseUrl(r.baseUrl.value) else None,
             r.baseUrl.Some?)
  }

  /** What a request asks of a row: omitted keeps, a blank one clears the
      endpoint, an explicit false switches the key off. */
  function Asked(row: ApiKey, r: KeyRequest): ApiKey {
    row.(name := OrElse(r.name, row.name),
         provider := OrElse(r.provider, row.provider),
         scope := if r.scope == "" then row.scope else NormalizeScope(r.scope),
         key := if SentKey(r) == "" then row.key else Cipher(SentKey(r)),
         hint := if SentKey(r) == "" then row.hint else ValueHint(SentKey(r)),
         baseUrl := if r.baseUrl.None? then row.baseUrl
                    else if Trim(r.baseUrl.value) == "" then None
                    else Some(Trim(r.baseUrl.value)),
         active := if r.isActive.None? then row.active else r.isActive.value)
  }

  /** The partial write alone already asks for the key, its hint, the names and the
      scope. */
  lemma StructMeetsRequest(row: ApiKey, r: KeyRequest)
    ensures var w, asked := SkipZero(row, PatchOf(r)), Asked(row, r);
      && (w.name, w.provider, w.scope) == (asked.name, asked.provider, asked.scope)
      && (w.key, w.hint) == (asked.key, asked.hint)
      && w.active == row.active
      && w.baseUrl == if Clears(PatchOf(r)) then row.baseUrl else asked.baseUrl
    ensures Clears(PatchOf(r)) ==> Asked(row, r).baseUrl == None
  {
    var w, asked := SkipZero(row, PatchOf(r)), Asked(row, r);
    if SentKey(r) != "" {
      assert ValueHint(SentKey(r)) != "";
    }
    assert w.hint == asked.hint;
    assert w.key == asked.key;
  }

  /** The three statements implement the request when none fails, and a cut-off
      update leaves each column either as stored or as asked. */
  lemma StatementsMeetRequest(row: ApiKey, r: KeyRequest, faults: KeyFaults)
    ensures !CutOff(PatchOf(r), r.isActive, faults) ==> Written(row, PatchOf(r), r.isActive, faults) == Asked(row, r)
    ensures var w := Written(row, PatchOf(r), r.isActive, faults);
      && (w.baseUrl == row.baseUrl || w.baseUrl == Asked(row, r).baseUrl)
      && (w.active == row.active || w.active == Asked(row, r).active)
      && ((w.key, w.hint) == (row.key, row.hint) || (w.key, w.hint) == (Asked(row, r).key, Asked(row, r).hint))
  {
    StructMeetsRequest(row, r);
  }

  lemma AskedHint(row: ApiKey, r: KeyRequest)
    requires row.hint == ValueHint(row.key.plain)
    ensures Asked(row, r).hint == ValueHint(Asked(row, r).key.plain)
  {
    if SentKey(r) == "" {
      assert Asked(row, r).key == row.key;
    } else {
      assert Asked(row, r).key.plain == SentKey(r);
    }
  }

  /** The hint never leaves its key behind, not even in a cut-off update. */
  lemma KeyHintFollowsKey(row: ApiKey, r: KeyRequest, faults: KeyFaults)
    requires row.hint == ValueHint(row.key.plain)
    ensures Written(row, PatchOf(r), r.isActive, faults).hint
      == ValueHint(Written(row, PatchOf(r), r.isActive, faults).key.plain)
  {
    StatementsMeetRequest(row, r, faults);
    AskedHint(row, r);
    var w := Written(row, PatchOf(r), r.isActive, faults);
    if (w.key, w.hint) == (row.key, row.hint) {
      assert w.key.plain == row.key.plain;
    } else {
      assert w.key.plain == Asked(row, r).key.plain;
    }
  }
}
