/** Redaction of sensitive fields in audit records, at every depth of nested maps. */
module Masking {
  import opened Base

  /** A value of Go type any: a map that may be nil, or anything else, which masking does not look into. */
  datatype Value = Object(fields: map<string, Value>) | NilObject | Other(text: string)

  const REDACTED := Other("[REDACTED]")

  const PATTERNS: seq<string> := [
    "password", "passwd", "secret", "token", "api_key", "apikey", "private_key", "privatekey",
    "totp_secret", "backup_code", "encryption_key", "ipmi_password", "root_password"
  ]

  /** strings.Contains. */
  predicate Contains(s: string, p: string) {
    exists i: nat | i <= |s| :: OccursAt(s, p, i)
  }

  predicate OccursAt(s: string, p: string, i: nat) {
    i + |p| <= |s| && s[i..i + |p|] == p
  }

  /** Whether a field name, lower-cased by the given function, contains a pattern. */
  predicate Sensitive(lower: string -> string, field: string) {
    exists p | p in PATTERNS :: Contains(lower(field), p)
  }

  /** The key test of the masking loop, which lower-cases the key before isSensitiveField does so again. */
  predicate SensitiveKey(lower: string -> string, key: string) {
    Sensitive(lower, lower(key))
  }

  ghost predicate Splits(s: string, p: string, a: string, b: string) {
    s == a + p + b
  }

  /** Containing a pattern means having it anywhere: at the start, in the middle or at the end. */
  lemma ContainsExactly(s: string, p: string)
    ensures Contains(s, p) <==> exists a, b :: Splits(s, p, a, b)
  {
    if Contains(s, p) {
      var i: nat :| i <= |s| && OccursAt(s, p, i);
      assert Splits(s, p, s[..i], s[i + |p|..]);
    }
    if a, b :| Splits(s, p, a, b) {
      assert OccursAt(s, p, |a|);
    }
  }

  predicate Listed(p: string) {
    p in {"password", "passwd", "secret", "token", "api_key", "apikey", "private_key", "privatekey",
          "totp_secret", "backup_code", "encryption_key", "ipmi_password", "root_password"}
  }

  lemma PatternsListed(p: string)
    ensures p in PATTERNS <==> Listed(p)
  {
  }

  ghost predicate HasPattern(s: string, p: string) {
    Listed(p) && exists a, b :: Splits(s, p, a, b)
  }

  /** A key is sensitive exactly when its lower-cased name has one of the patterns anywhere in it. */
  lemma SensitiveExactly(lower: string -> string, key: string)
    ensures SensitiveKey(lower, key) <==> exists p :: HasPattern(lower(lower(key)), p)
  {
    forall p
      ensures Contains(lower(lower(key)), p) <==> exists a, b :: Splits(lower(lower(key)), p, a, b)
      ensures p in PATTERNS <==> Listed(p)
    {
      PatternsListed(p);
      ContainsExactly(lower(lower(key)), p);
    }
    if SensitiveKey(lower, key) {
      var p :| p in PATTERNS && Contains(lower(lower(key)), p);
      assert HasPattern(lower(lower(key)), p);
    }
  }

  method IsSensitiveField(lower: string -> string, field: string) returns (found: bool)
    ensures found <==> Sensitive(lower, field)
  {
    var lowerField := lower(field);
    for i := 0 to |PATTERNS|
      invariant forall j :: 0 <= j < i ==> !Contains(lowerField, PATTERNS[j])
    {
      if Contains(lowerField, PATTERNS[i]) {
        return true;
      }
    }
    return false;
  }

  function Mask(lower: string -> string, v: Value): Value {
    match v
    case Object(fields) => Object(map k | k in fields :: if SensitiveKey(lower, k) then REDACTED else Mask(lower, fields[k]))
    case _ => v
  }

  /** MaskSensitiveFields: fills a fresh map, recursing into nested maps. */
  method MaskSensitiveFields(lower: string -> string, data: Value) returns (masked: Value)
    requires !data.Other?
    ensures masked == Mask(lower, data)
    ensures forall path :: Redacts(lower, data, masked, path)
    decreases data
  {
    MaskRedacts(lower, data);
    if data.NilObject? {
      return NilObject;
    }
    var result: map<string, Value> := map[];
    var keys := data.fields.Keys;
    while keys != {}
      invariant keys <= data.fields.Keys && result.Keys == data.fields.Keys - keys
      invariant forall k :: k in result ==> result[k] == Mask(lower, data).fields[k]
      decreases keys
    {
      var key :| key in keys;
      var sensitive := IsSensitiveField(lower, lower(key));
      if sensitive {
        result := result[key := REDACTED];
      } else {
        var value := data.fields[key];
        if !value.Other? {
          value := MaskSensitiveFields(lower, value);
        }
        result := result[key := value];
      }
      keys := keys - {key};
    }
    assert result == Mask(lower, data).fields;
    return Object(result);
  }

  // ----- what can be read from a masked record -----

  /** The value at a path of keys through nested maps. */
  function Get(v: Value, path: seq<string>): Option<Value> {
    if path == [] then Some(v)
    else if v.Object? && path[0] in v.fields then Get(v.fields[path[0]], path[1..])
    else None
  }

  predicate Clean(lower: string -> string, path: seq<string>) {
    forall i :: 0 <= i < |path| ==> !SensitiveKey(lower, path[i])
  }

  /** Paths without sensitive keys lead to the masked original: the same structure, and other values unchanged. */
  lemma {:induction false} CleanPaths(lower: string -> string, v: Value, path: seq<string>)
    requires Clean(lower, path)
    ensures Get(Mask(lower, v), path) == match Get(v, path) case None => None case Some(w) => Some(Mask(lower, w))
  {
    if path != [] && v.Object? && path[0] in v.fields {
      CleanPaths(lower, v.fields[path[0]], path[1..]);
    }
  }

  /** What a reader of the masked value learns is what the original shows: the very same plain value, nil map, or a map
      with the same keys. */
  predicate Shows(original: Value, masked: Value) {
    match original
    case Other(t) => masked == Other(t)
    case NilObject => masked == NilObject
    case Object(fields) => masked.Object? && masked.fields.Keys == fields.Keys
  }

  lemma MaskShows(lower: string -> string, v: Value)
    ensures Shows(v, Mask(lower, v))
  {
  }

  /** Along paths without sensitive keys the masked record shows what the original shows, and nothing where that shows
      nothing. */
  lemma PlainValuesKept(lower: string -> string, v: Value, path: seq<string>)
    requires Clean(lower, path)
    ensures var original, masked := Get(v, path), Get(Mask(lower, v), path);
            if original.None? then masked.None? else masked.Some? && Shows(original.value, masked.value)
  {
    CleanPaths(lower, v, path);
    if Get(v, path).Some? {
      MaskShows(lower, Get(v, path).value);
    }
  }

  /** A sensitive key present below a clean path holds the marker, and nothing can be read beneath it. */
  lemma {:induction false} SensitivePaths(lower: string -> string, v: Value, prefix: seq<string>, key: string, rest: seq<string>)
    requires Clean(lower, prefix) && SensitiveKey(lower, key)
    ensures Get(Mask(lower, v), prefix + [key] + rest) ==
            if Get(v, prefix + [key]).Some? && rest == [] then Some(Other("[REDACTED]")) else None
  {
    var path := prefix + [key] + rest;
    if prefix == [] {
      assert path[0] == key && path[1..] == rest && (prefix + [key])[1..] == [];
    } else {
      assert path[0] == prefix[0] && path[1..] == prefix[1..] + [key] + rest;
      assert (prefix + [key])[1..] == prefix[1..] + [key];
      if v.Object? && prefix[0] in v.fields {
        SensitivePaths(lower, v.fields[prefix[0]], prefix[1..], key, rest);
      }
    }
  }

  /** Every path is one of the two kinds above: it has no sensitive key, or a first one. */
  lemma {:induction false} FirstSensitive(lower: string -> string, path: seq<string>) returns (i: nat)
    ensures i <= |path| && Clean(lower, path[..i]) && (i < |path| ==> SensitiveKey(lower, path[i]))
    ensures i == |path| ==> Clean(lower, path)
  {
    if path == [] || SensitiveKey(lower, path[0]) {
      i := 0;
    } else {
      var j := FirstSensitive(lower, path[1..]);
      i := j + 1;
      assert path[..i] == [path[0]] + path[1..][..j];
    }
  }

  /** Nothing of the original is left behind a sensitive key: whatever a masked record shows at a path with one is the
      marker itself. */
  lemma NoSecretSurvives(lower: string -> string, v: Value, path: seq<string>)
    requires !Clean(lower, path)
    ensures Get(Mask(lower, v), path) in {None, Some(REDACTED)}
  {
    var i := FirstSensitive(lower, path);
    assert path == path[..i] + [path[i]] + path[i + 1..];
    SensitivePaths(lower, v, path[..i], path[i], path[i + 1..]);
  }

  /** At the path the masked record shows the original, or, behind a sensitive key, at most the marker. */
  ghost predicate Redacts(lower: string -> string, v: Value, masked: Value, path: seq<string>) {
    if Clean(lower, path) then
      (if Get(v, path).None? then Get(masked, path).None?
       else Get(masked, path).Some? && Shows(Get(v, path).value, Get(masked, path).value))
    else Get(masked, path) in {None, Some(REDACTED)}
  }

  lemma MaskRedacts(lower: string -> string, v: Value)
    ensures forall path :: Redacts(lower, v, Mask(lower, v), path)
  {
    forall path
      ensures Redacts(lower, v, Mask(lower, v), path)
    {
      if Clean(lower, path) {
        PlainValuesKept(lower, v, path);
      } else {
        NoSecretSurvives(lower, v, path);
      }
    }
  }

  /** Masking twice is masking once. */
  lemma {:induction false} MaskTwice(lower: string -> string, v: Value)
    ensures Mask(lower, Mask(lower, v)) == Mask(lower, v)
  {
    if v.Object? {
      forall k | k in v.fields
        ensures Mask(lower, Mask(lower, v)).fields[k] == Mask(lower, v).fields[k]
      {
        MaskTwice(lower, v.fields[k]);
      }
    }
  }
}
