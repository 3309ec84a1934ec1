/** Which headers and config fields are hidden and which are kept, by their literal
    names and shapes. */
module HiddenValues {
  import opened Wrappers
  import opened Json
  import opened SecretMerge
  import opened TextLaws
  import Strings

  // ----- Headers -----

  /** The name in small letters is one of the eight whose value may be shown. */
  ghost predicate IsShown(name: string) {
    exists small :: IsLowered(name, small)
      && small in {"accept", "accept-encoding", "accept-language", "cache-control", "content-type", "user-agent",
                   "x-request-id", "x-correlation-id"}
  }

  lemma ShownAreSafe(name: string)
    ensures Safe(name) <==> IsShown(name)
  {
    forall small ensures IsLowered(name, small) <==> small == Strings.Lower(name) {
      LoweredOnce(name, small);
    }
    if Safe(name) {
      assert IsLowered(name, Strings.Lower(name));
    }
  }

  /** A read names every header, and shows the value of those that may be shown. */
  lemma RedactsExactly(headers: Headers)
    ensures var shown := Redacted(headers);
      && (forall name :: name in shown <==> name in headers)
      && (forall name :: name in shown ==>
            (IsShown(name) ==> shown[name] == headers[name]) && (!IsShown(name) ==> shown[name] == ""))
  {
    forall name ensures Safe(name) <==> IsShown(name) {
      ShownAreSafe(name);
    }
  }

  /** A save stores the headers it names: an empty value of a hidden header that is
      stored already, and found, stands for that one, any other value for itself. */
  lemma KeepsExactly(save: Save, stored: Headers)
    ensures var kept := Saved(save, stored);
      && (forall name :: name in kept <==> name in save.headers)
      && (forall name :: name in kept ==>
            kept[name] == if save.found && save.headers[name] == "" && !IsShown(name) && name in stored
                          then stored[name] else save.headers[name])
  {
    forall name ensures Safe(name) <==> IsShown(name) {
      ShownAreSafe(name);
    }
  }

  // ----- Integration configs -----

  /** The twelve fields that hold secrets. */
  predicate IsSecretField(field: string) {
    field in {"access_token", "client_id", "client_secret", "refresh_token", "pkce_verifiers", "token", "code_verifier",
              "apiKey", "api_key", "basicAuthUser", "basicAuthPass", "nexus_api_key"}
  }

  /** A text that begins like a key of a REST service. */
  predicate LooksLikeKey(v: Value) {
    match v
    case Str(text) => "sk_" <= text || "rk_" <= text || "pk_" <= text
    case _ => false
  }

  ghost predicate IsBlankText(v: Value) {
    v.Str? && IsTrimmed(v.s, "")
  }

  lemma SecretFieldsAre(field: string)
    ensures SecretMerge.Sensitive(field) <==> IsSecretField(field)
  {
  }

  lemma KeysLookAlike(v: Value)
    ensures TokenLike(v) <==> LooksLikeKey(v)
  {
    if v.Str? && |v.s| >= 3 {
      assert forall p: string | |p| == 3 :: p <= v.s <==> v.s[..3] == p;
    }
  }

  /** A read leaves out the secret fields and whatever looks like a key. */
  lemma SanitizesExactly(config: Object)
    ensures var shown := Sanitized(config);
      && (forall field :: field in shown <==>
            field in config && !IsSecretField(field) && !LooksLikeKey(config[field]))
      && (forall field :: field in shown ==> shown[field] == config[field])
  {
    forall field ensures SecretMerge.Sensitive(field) <==> IsSecretField(field) {
      SecretFieldsAre(field);
    }
    forall field | field in config ensures TokenLike(config[field]) <==> LooksLikeKey(config[field]) {
      KeysLookAlike(config[field]);
    }
  }

  /** A save stores what it sends, and the stored secrets it leaves out or blank, if
      the stored config is found. */
  lemma UpsertsExactly(up: Upsert, stored: Object)
    ensures var (incoming, after) := (up.config, Upserted(up, stored));
      && (forall field :: field in after <==>
            field in incoming || (up.found && IsSecretField(field) && field in stored))
      && (forall field :: field in after ==>
            after[field] ==
              if up.found && IsSecretField(field) && field in stored
                 && (field !in incoming || IsBlankText(incoming[field]))
              then stored[field] else incoming[field])
  {
    var incoming := up.config;
    forall field ensures SecretMerge.Sensitive(field) <==> IsSecretField(field) {
      SecretFieldsAre(field);
    }
    forall field | field in incoming ensures IsBlankSecret(incoming[field]) <==> IsBlankText(incoming[field]) {
      if incoming[field].Str? {
        TrimmedIsTrim(incoming[field].s, "");
      }
    }
  }
}
