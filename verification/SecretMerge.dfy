/** Secrets that are blanked or removed on the way out and must survive a save of
    what was read: request headers, and the configs of agent integrations. */
module SecretMerge {
  import opened Wrappers
  import opened Json
  import Strings

  type Headers = map<string, string>

  // ----- Headers -----

  const SAFE_HEADER_NAMES: set<string> := {
    "accept", "accept-encoding", "accept-language", "cache-control", "content-type", "user-agent", "x-request-id",
    "x-correlation-id"
  }

  predicate Safe(name: string) {
    Strings.Lower(name) in SAFE_HEADER_NAMES
  }

  function Redacted(headers: Headers): Headers {
    map name | name in headers :: if Safe(name) then headers[name] else ""
  }

  function Kept(incoming: Headers, stored: Headers): Headers {
    map name | name in incoming ::
      if incoming[name] == "" && !Safe(name) && name in stored then stored[name] else incoming[name]
  }

  method RedactValues(headers: Headers) returns (redacted: Headers)
    ensures redacted == Redacted(headers)
  {
    redacted := map[];
    var todo := headers.Keys;
    while todo != {}
      invariant todo <= headers.Keys && redacted.Keys == headers.Keys - todo
      invariant forall name :: name in redacted ==> redacted[name] == Redacted(headers)[name]
      decreases |todo|
    {
      var name :| name in todo;
      todo := todo - {name};
      if Safe(name) {
        redacted := redacted[name := headers[name]];
        continue;
      }
      redacted := redacted[name := ""];
    }
  }

  method KeepMissing(incoming: Headers, stored: Headers) returns (merged: Headers)
    ensures merged == Kept(incoming, stored)
  {
    merged := map[];
    var todo := incoming.Keys;
    while todo != {}
      invariant todo <= incoming.Keys && merged.Keys == incoming.Keys - todo
      invariant forall name :: name in merged ==> merged[name] == Kept(incoming, stored)[name]
      decreases |todo|
    {
      var name :| name in todo;
      todo := todo - {name};
      if incoming[name] == "" && !Safe(name) {
        if name in stored {
          merged := merged[name := stored[name]];
          continue;
        }
      }
      merged := merged[name := incoming[name]];
    }
  }

  /** Saving exactly what was read changes nothing. */
  lemma HeaderRoundTrip(headers: Headers)
    ensures Kept(Redacted(headers), headers) == headers
  {
    var back := Kept(Redacted(headers), headers);
    assert forall name :: name in back <==> name in headers;
  }

  /** What is sent out depends on the names and the safe values only. */
  lemma RedactionRevealsNothing(a: Headers, b: Headers)
    requires a.Keys == b.Keys && forall name :: name in a && Safe(name) ==> a[name] == b[name]
    ensures Redacted(a) == Redacted(b)
  {
    assert forall name :: name in Redacted(a) ==> name in Redacted(b) && Redacted(a)[name] == Redacted(b)[name];
  }

  /** An update: the merge happens only when the stored row can be looked up;
      otherwise the request's headers replace it as they are. */
  datatype Save = Save(headers: Headers, found: bool)

  function Saved(save: Save, stored: Headers): Headers {
    if save.found then Kept(save.headers, stored) else save.headers
  }

  method UpdateHeaders(save: Save, stored: Headers) returns (merged: Headers)
    ensures merged == Saved(save, stored)
  {
    merged := save.headers;
    if save.found {
      merged := KeepMissing(save.headers, stored);
    }
  }

  function AfterSaves(saves: seq<Save>, stored: Headers): Headers {
    if saves == [] then stored else Saved(saves[|saves| - 1], AfterSaves(saves[..|saves| - 1], stored))
  }

  /** Saving what was read keeps everything, unless the lookup failed while some
      hidden value was set. */
  lemma SaveOfReadKeeps(stored: Headers, found: bool)
    ensures Saved(Save(Redacted(stored), found), stored) == stored
      <==> (found || forall name :: name in stored && !Safe(name) ==> stored[name] == "")
  {
    if found {
      HeaderRoundTrip(stored);
    } else if forall name :: name in stored && !Safe(name) ==> stored[name] == "" {
      assert Redacted(stored) == stored;
    } else {
      var name :| name in stored && !Safe(name) && stored[name] != "";
      assert Redacted(stored)[name] == "";
    }
  }

  /** From save `i` on, every save echoes the name blank, with the stored row found. */
  predicate EchoedFrom(saves: seq<Save>, i: nat, name: string) {
    forall j :: i <= j < |saves| ==> saves[j].found && name in saves[j].headers && saves[j].headers[name] == ""
  }

  /** A hidden header that is only echoed keeps the value it had. */
  lemma {:induction false} EchoKeepsHeader(saves: seq<Save>, stored: Headers, name: string, i: nat)
    requires !Safe(name) && i <= |saves| && EchoedFrom(saves, i, name)
    requires name in AfterSaves(saves[..i], stored)
    ensures name in AfterSaves(saves, stored) && AfterSaves(saves, stored)[name] == AfterSaves(saves[..i], stored)[name]
    decreases |saves|
  {
    if i == |saves| {
      assert saves[..i] == saves;
    } else {
      var front := saves[..|saves| - 1];
      assert front[..i] == saves[..i];
      assert forall j :: i <= j < |front| ==> front[j] == saves[j];
      EchoKeepsHeader(front, stored, name, i);
    }
  }

  /** Over any history of saves, a hidden header holds its last explicit value: what
      save `i` sent, if that was not blank and every later save only echoes it. */
  lemma {:induction false} LastExplicitHeaderWins(saves: seq<Save>, stored: Headers, name: string, i: nat)
    requires !Safe(name) && i < |saves| && name in saves[i].headers && saves[i].headers[name] != ""
    requires EchoedFrom(saves, i + 1, name)
    ensures name in AfterSaves(saves, stored) && AfterSaves(saves, stored)[name] == saves[i].headers[name]
  {
    assert saves[..i + 1][..i] == saves[..i];
    EchoKeepsHeader(saves, stored, name, i + 1);
  }

  /** A header that was never given a value since it last appeared stays blank. */
  lemma {:induction false} FreshHeaderStaysBlank(saves: seq<Save>, stored: Headers, name: string, i: nat)
    requires !Safe(name) && i < |saves| && EchoedFrom(saves, i, name)
    requires name !in AfterSaves(saves[..i], stored)
    ensures name in AfterSaves(saves, stored) && AfterSaves(saves, stored)[name] == ""
  {
    assert saves[..i + 1][..i] == saves[..i];
    assert EchoedFrom(saves, i + 1, name);
    EchoKeepsHeader(saves, stored, name, i + 1);
  }

  /** The headers stored are those of the last save, and a safe one holds what that
      save sent; leaving a header out is how it is deleted. */
  lemma LastSaveNamesHeaders(saves: seq<Save>, stored: Headers)
    requires saves != []
    ensures var last := saves[|saves| - 1].headers;
      && AfterSaves(saves, stored).Keys == last.Keys
      && (forall name :: name in last && (Safe(name) || last[name] != "") ==>
        AfterSaves(saves, stored)[name] == last[name])
  {
  }

  // ----- Integration configs -----

  const SENSITIVE_FIELD_NAMES: seq<string> := [
    "access_token", "client_id", "client_secret", "refresh_token", "pkce_verifiers", "token", "code_verifier", "apiKey",
    "api_key", "basicAuthUser", "basicAuthPass", "nexus_api_key"
  ]

  predicate Sensitive(field: string) {
    field in SENSITIVE_FIELD_NAMES
  }

  predicate IsBlankSecret(v: Value) {
    v.Str? && Strings.Trim(v.s) == ""
  }

  /** A string that looks like a REST key. */
  predicate TokenLike(v: Value) {
    v.Str? && |v.s| >= 3 && (v.s[..3] == "sk_" || v.s[..3] == "rk_" || v.s[..3] == "pk_")
  }

  function Sanitized(config: Object): Object {
    map field | field in config && !Sensitive(field) && !TokenLike(config[field]) :: config[field]
  }

  /** The stored secret wins where the request leaves the field out or blank. */
  predicate Preserves(incoming: Object, stored: Object, field: string) {
    Sensitive(field) && field in stored && (field !in incoming || IsBlankSecret(incoming[field]))
  }

  function Merged(incoming: Object, stored: Object): Object {
    map field | field in incoming.Keys + stored.Keys && (field in incoming || Preserves(incoming, stored, field)) ::
      if Preserves(incoming, stored, field) then stored[field] else incoming[field]
  }

  lemma DistinctNames(i: nat)
    requires i < |SENSITIVE_FIELD_NAMES|
    ensures SENSITIVE_FIELD_NAMES[i] !in SENSITIVE_FIELD_NAMES[..i]
  {
    forall j | 0 <= j < i ensures SENSITIVE_FIELD_NAMES[j] != SENSITIVE_FIELD_NAMES[i] {
    }
  }

  /** What the names visited so far preserve. */
  ghost predicate MergedUpTo(merged: Object, incoming: Object, kept: Object, names: seq<string>) {
    && (forall field :: field in merged <==> field in incoming || (field in names && field in kept))
    && (forall field :: field in merged && field in names && Preserves(incoming, kept, field) ==>
      merged[field] == kept[field])
    && (forall field :: field in merged && !(field in names && Preserves(incoming, kept, field)) ==>
          field in incoming && merged[field] == incoming[field])
  }

  lemma NameMerged(before: Object, after: Object, incoming: Object, kept: Object, names: seq<string>, name: string)
    requires MergedUpTo(before, incoming, kept, names) && name !in names && Sensitive(name)
    requires after == if name in kept && (name !in before || IsBlankSecret(before[name]))
      then before[name := kept[name]] else before
    ensures MergedUpTo(after, incoming, kept, names + [name])
  {
  }

  lemma AllNamesMerged(merged: Object, incoming: Object, kept: Object)
    requires MergedUpTo(merged, incoming, kept, SENSITIVE_FIELD_NAMES)
    ensures merged == Merged(incoming, kept)
  {
    assert forall field :: field in merged <==> field in Merged(incoming, kept);
  }

  /** A nil stored config preserves nothing. */
  method MergePreservedSecrets(incoming: Object, stored: Option<Object>) returns (merged: Object)
    ensures merged == Merged(incoming, if stored.Some? then stored.value else map[])
  {
    merged := incoming;
    if stored.None? {
      assert merged == Merged(incoming, map[]);
      return;
    }
    var kept := stored.value;
    for i := 0 to |SENSITIVE_FIELD_NAMES|
      invariant MergedUpTo(merged, incoming, kept, SENSITIVE_FIELD_NAMES[..i])
    {
      var field := SENSITIVE_FIELD_NAMES[i];
      DistinctNames(i);
      assert SENSITIVE_FIELD_NAMES[..i + 1] == SENSITIVE_FIELD_NAMES[..i] + [field];
      ghost var before := merged;
      if field in kept {
        if field !in merged {
          merged := merged[field := kept[field]];
        } else if IsBlankSecret(merged[field]) {
          merged := merged[field := kept[field]];
        }
      }
      NameMerged(before, merged, incoming, kept, SENSITIVE_FIELD_NAMES[..i], field);
    }
    assert SENSITIVE_FIELD_NAMES[..|SENSITIVE_FIELD_NAMES|] == SENSITIVE_FIELD_NAMES;
    AllNamesMerged(merged, incoming, kept);
  }

  method SanitizeConfig(config: Option<Object>) returns (sanitized: Option<Object>)
    ensures sanitized == if config.None? then None else Some(Sanitized(config.value))
  {
    if config.None? {
      return None;
    }
    var all := config.value;
    var clean := all;
    for i := 0 to |SENSITIVE_FIELD_NAMES|
      invariant forall field :: field in clean <==> field in all && field !in SENSITIVE_FIELD_NAMES[..i]
      invariant forall field :: field in clean ==> clean[field] == all[field]
    {
      assert SENSITIVE_FIELD_NAMES[..i + 1] == SENSITIVE_FIELD_NAMES[..i] + [SENSITIVE_FIELD_NAMES[i]];
      clean := clean - {SENSITIVE_FIELD_NAMES[i]};
    }
    assert SENSITIVE_FIELD_NAMES[..|SENSITIVE_FIELD_NAMES|] == SENSITIVE_FIELD_NAMES;
    var todo := clean.Keys;
    while todo != {}
      invariant todo <= clean.Keys
      invariant forall field :: field in clean <==>
        field in all && !Sensitive(field) && (field in todo || !TokenLike(all[field]))
      invariant forall field :: field in clean ==> clean[field] == all[field]
      decreases |todo|
    {
      var field :| field in todo;
      todo := todo - {field};
      if TokenLike(clean[field]) {
        clean := clean - {field};
      }
    }
    assert forall field :: field in clean <==> field in Sanitized(all);
    assert clean == Sanitized(all);
    return Some(clean);
  }

  /** The fields a read-and-save loses. */
  function LostFields(config: Object): set<string> {
    set field | field in config && !Sensitive(field) && TokenLike(config[field])
  }

  /** Saving what was read keeps every field, secrets included, except exactly the
      ordinary fields that hold something looking like a key. */
  lemma ConfigRoundTrip(config: Object)
    ensures Merged(Sanitized(config), config) == config - LostFields(config)
  {
    var back := Merged(Sanitized(config), config);
    var expected := config - LostFields(config);
    forall field ensures field in back <==> field in expected {
    }
    forall field | field in back ensures back[field] == expected[field] {
    }
  }

  /** Hence the round trip is the identity exactly when no ordinary field looks like
      a key, and a second round trip never loses more. */
  lemma ConfigRoundTripIsIdentity(config: Object)
    ensures Merged(Sanitized(config), config) == config <==> LostFields(config) == {}
    ensures var once := Merged(Sanitized(config), config);
      Merged(Sanitized(once), once) == once
  {
    ConfigRoundTrip(config);
    var once := Merged(Sanitized(config), config);
    ConfigRoundTrip(once);
    assert LostFields(once) == {};
    if LostFields(config) == {} {
      assert config - LostFields(config) == config;
    } else {
      var field :| field in LostFields(config);
      assert field in config && field !in once;
    }
  }

  /** Nothing sensitive and nothing looking like a key is sent out, and what is sent
      out does not depend on it. */
  lemma SanitizingRevealsNothing(a: Object, b: Object)
    requires forall field :: !Sensitive(field) ==> (field in a <==> field in b)
    requires forall field :: !Sensitive(field) && field in a ==>
      a[field] == b[field] || (TokenLike(a[field]) && TokenLike(b[field]))
    ensures Sanitized(a) == Sanitized(b)
  {
    var x, y := Sanitized(a), Sanitized(b);
    forall field ensures field in x <==> field in y {
    }
    forall field | field in x ensures x[field] == y[field] {
    }
  }

  /** An upsert: merged over the stored config when that can be looked up. */
  datatype Upsert = Upsert(config: Object, found: bool)

  function Upserted(up: Upsert, stored: Object): Object {
    if up.found then Merged(up.config, stored) else up.config
  }

  function AfterUpserts(ups: seq<Upsert>, stored: Object): Object {
    if ups == [] then stored else Upserted(ups[|ups| - 1], AfterUpserts(ups[..|ups| - 1], stored))
  }

  /** The upsert says nothing new about the field. */
  predicate Silent(up: Upsert, field: string) {
    up.found && (field !in up.config || IsBlankSecret(up.config[field]))
  }

  predicate SilentFrom(ups: seq<Upsert>, i: nat, field: string) {
    forall j :: i <= j < |ups| ==> Silent(ups[j], field)
  }

  /** A stored secret survives any number of silent upserts: unlike a header, it
      cannot be deleted by leaving it out. */
  lemma {:induction false} SilenceKeepsSecret(ups: seq<Upsert>, stored: Object, field: string, i: nat)
    requires Sensitive(field) && i <= |ups| && SilentFrom(ups, i, field)
    requires field in AfterUpserts(ups[..i], stored)
    ensures field in AfterUpserts(ups, stored)
      && AfterUpserts(ups, stored)[field] == AfterUpserts(ups[..i], stored)[field]
    decreases |ups|
  {
    if i == |ups| {
      assert ups[..i] == ups;
    } else {
      var front := ups[..|ups| - 1];
      assert front[..i] == ups[..i];
      assert forall j :: i <= j < |front| ==> front[j] == ups[j];
      SilenceKeepsSecret(front, stored, field, i);
      assert Silent(ups[|ups| - 1], field);
    }
  }

  /** Over any history, a secret holds the last value that was said out loud. */
  lemma {:induction false} LastExplicitSecretWins(ups: seq<Upsert>, stored: Object, field: string, i: nat)
    requires Sensitive(field) && i < |ups| && field in ups[i].config && !IsBlankSecret(ups[i].config[field])
    requires SilentFrom(ups, i + 1, field)
    ensures field in AfterUpserts(ups, stored) && AfterUpserts(ups, stored)[field] == ups[i].config[field]
  {
    assert ups[..i + 1][..i] == ups[..i];
    SilenceKeepsSecret(ups, stored, field, i + 1);
  }
}
