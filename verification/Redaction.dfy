/** Redaction of submitted payloads before they are stored, queued or dead-lettered. */
module Redaction {
  import opened Json

  const SENSITIVE: set<string> := {
    "password", "private_key_content", "private_key_passphrase", "ansible_password",
    "ansible_ssh_passphrase", "ansible_become_password", "inventory_content"
  }

  const CREDENTIALS := "host_credentials"
  const MARKER := "_redacted"

  function SanitizedCredential(c: Fields): Fields {
    (map k | k in c && k !in SENSITIVE :: c[k])[MARKER := Bool(true)]
  }

  /** Entries that are not objects are dropped, the rest lose their secrets and gain the marker. */
  function SanitizedList(items: seq<Value>): seq<Value> {
    if items == [] then []
    else
      var last := items[|items| - 1];
      SanitizedList(items[..|items| - 1]) + (if last.Dict? then [Dict(SanitizedCredential(last.fields))] else [])
  }

  function WithSanitizedCredentials(p: Fields): Fields {
    if CREDENTIALS in p && p[CREDENTIALS].List? then p[CREDENTIALS := List(SanitizedList(p[CREDENTIALS].items))] else p
  }

  function Sanitized(p: Fields): Fields {
    WithSanitizedCredentials(p) - SENSITIVE
  }

  predicate CredentialClean(v: Value) {
    v.Dict? && v.fields.Keys !! SENSITIVE && MARKER in v.fields && v.fields[MARKER] == Bool(true)
  }

  /** No secret at the top level or in any host credential. */
  predicate Clean(p: Fields) {
    && p.Keys !! SENSITIVE
    && (CREDENTIALS in p && p[CREDENTIALS].List? ==>
          forall i :: 0 <= i < |p[CREDENTIALS].items| ==> CredentialClean(p[CREDENTIALS].items[i]))
  }

  lemma MarkerIsPublic()
    ensures MARKER !in SENSITIVE && CREDENTIALS !in SENSITIVE
  {
    assert MARKER[0] == '_' && CREDENTIALS[0] == 'h';
    forall k | k in SENSITIVE ensures k[0] == 'p' || k[0] == 'a' || k[0] == 'i' {}
  }

  lemma {:induction false} SanitizedListClean(items: seq<Value>)
    ensures forall i :: 0 <= i < |SanitizedList(items)| ==> CredentialClean(SanitizedList(items)[i])
  {
    MarkerIsPublic();
    if items != [] {
      SanitizedListClean(items[..|items| - 1]);
    }
  }

  lemma {:induction false} CleanListUnchanged(items: seq<Value>)
    requires forall i :: 0 <= i < |items| ==> CredentialClean(items[i])
    ensures SanitizedList(items) == items
  {
    if items != [] {
      var init, last := items[..|items| - 1], items[|items| - 1];
      CleanListUnchanged(init);
      assert SanitizedCredential(last.fields) == last.fields;
      assert items == init + [last];
    }
  }

  /** The entries that are dictionaries, in order. */
  function Objects(items: seq<Value>): seq<Value> {
    if items == [] then []
    else
      var last := items[|items| - 1];
      Objects(items[..|items| - 1]) + if last.Dict? then [last] else []
  }

  /** `after` is host credential `before` with exactly its sensitive fields gone and the marker set. */
  ghost predicate Redacts(before: Value, after: Value) {
    && before.Dict? && after.Dict?
    && (forall k | k != MARKER :: k in after.fields <==> k in before.fields && k !in SENSITIVE)
    && (forall k | k != MARKER && k in after.fields :: after.fields[k] == before.fields[k])
    && MARKER in after.fields && after.fields[MARKER] == Bool(true)
  }

  lemma CredentialRedacted(v: Value)
    requires v.Dict?
    ensures Redacts(v, Dict(SanitizedCredential(v.fields)))
  {
  }

  lemma {:induction false} ListRedacted(items: seq<Value>)
    ensures |SanitizedList(items)| == |Objects(items)|
    ensures forall i :: 0 <= i < |Objects(items)| ==> Redacts(Objects(items)[i], SanitizedList(items)[i])
  {
    if items != [] {
      var last := items[|items| - 1];
      ListRedacted(items[..|items| - 1]);
      if last.Dict? {
        CredentialRedacted(last);
      }
    }
  }

  /** No secret remains; exactly the sensitive top-level fields go and all others but the credentials are unchanged;
      the credentials are the dictionaries of the list, in order, each with exactly its sensitive fields gone and the
      marker. */
  lemma SanitizedHasNoSecrets(p: Fields)
    ensures Clean(Sanitized(p))
    ensures Sanitized(p).Keys == p.Keys - SENSITIVE
    ensures forall k :: k in p && k !in SENSITIVE && k != CREDENTIALS ==> Sanitized(p)[k] == p[k]
    ensures CREDENTIALS in p && !p[CREDENTIALS].List? ==> Sanitized(p)[CREDENTIALS] == p[CREDENTIALS]
    ensures CREDENTIALS in p && p[CREDENTIALS].List? ==>
      && Sanitized(p)[CREDENTIALS].List?
      && var before, after := Objects(p[CREDENTIALS].items), Sanitized(p)[CREDENTIALS].items;
         |after| == |before| && forall i :: 0 <= i < |before| ==> Redacts(before[i], after[i])
  {
    MarkerIsPublic();
    if CREDENTIALS in p && p[CREDENTIALS].List? {
      SanitizedListClean(p[CREDENTIALS].items);
      ListRedacted(p[CREDENTIALS].items);
    }
  }

  /** The secrets by name, at the top level and in every host credential; other fields of a credential stay. */
  lemma SecretsByName(p: Fields, k: string, i: nat)
    ensures var secret :=
      k in ["password", "private_key_content", "private_key_passphrase", "ansible_password", "ansible_ssh_passphrase",
            "ansible_become_password", "inventory_content"];
      && (k in Sanitized(p) <==> k in p && !secret)
      && ("host_credentials" in p && p["host_credentials"].List? ==>
            var before := Objects(p["host_credentials"].items);
            && Sanitized(p)["host_credentials"].List?
            && |Sanitized(p)["host_credentials"].items| == |before|
            && (i < |before| && k != "_redacted" ==>
                  && before[i].Dict? && Sanitized(p)["host_credentials"].items[i].Dict?
                  && var after := Sanitized(p)["host_credentials"].items[i].fields;
                     && (k in after <==> k in before[i].fields && !secret)
                     && (k in after ==> after[k] == before[i].fields[k])))
  {
    MarkerIsPublic();
    SanitizedHasNoSecrets(p);
  }

  /** Redacting twice is redacting once, so the dead-letter copy of a queued payload equals the queued payload. */
  lemma SanitizingIsIdempotent(p: Fields)
    ensures Sanitized(Sanitized(p)) == Sanitized(p)
  {
    var q := Sanitized(p);
    SanitizedHasNoSecrets(p);
    if CREDENTIALS in q && q[CREDENTIALS].List? {
      CleanListUnchanged(q[CREDENTIALS].items);
    }
    assert WithSanitizedCredentials(q) == q;
    assert q - SENSITIVE == q;
  }

  method Sanitize(payload: Fields) returns (sanitized: Fields)
    ensures sanitized == Sanitized(payload)
  {
    if payload == map[] {
      return payload;
    }
    sanitized := payload;
    if CREDENTIALS in sanitized && sanitized[CREDENTIALS].List? {
      var items := sanitized[CREDENTIALS].items;
      var kept: seq<Value> := [];
      for i := 0 to |items|
        invariant kept == SanitizedList(items[..i])
      {
        assert items[..i + 1][..i] == items[..i];
        if items[i].Dict? {
          var public := map k | k in items[i].fields && k !in SENSITIVE :: items[i].fields[k];
          kept := kept + [Dict(public[MARKER := Bool(true)])];
        }
      }
      assert items[..|items|] == items;
      sanitized := sanitized[CREDENTIALS := List(kept)];
    }
    sanitized := sanitized - SENSITIVE;
  }
}
