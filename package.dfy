/**
 The `Package` record and its construction from the evaluator's decoded
 output: `Package(**out)` followed by the check that Nix could parse a
 version out of the derivation name.
 */
module Packages {
  import opened Wrappers
  import opened Json

  /** A package as the evaluator reported it. Python does not enforce the
      dataclass's annotations, so every field holds the decoded value as it
      came (`JNull` is `None`); `Conforms` states the annotations. */
  datatype Package = Package(
    name: JsonValue,
    oldVersion: JsonValue,
    filename: JsonValue,
    line: JsonValue,
    urls: JsonValue,
    url: JsonValue,
    rev: JsonValue,
    hash: JsonValue,
    modSha256: JsonValue,
    vendorSha256: JsonValue,
    cargoSha256: JsonValue,
    newVersion: JsonValue)

  /** The failures raised before the package is built: by the process runner
      when `nix eval` fails, or by the JSON decoder. */
  datatype RunError =
    | ProcessFailed(detail: string)
    | InvalidJson(detail: string)

  /** The failures of `eval_attr`. */
  datatype Error =
      /** A failure of the runner or the decoder, passed on unchanged. */
    | RunFailed(cause: RunError)
      /** The decoded value is not a JSON object, so it cannot be spread into keyword arguments. */
    | NotAMapping
      /** Keyword arguments that do not match the fields: required ones absent, unknown ones present. */
    | MissingOrUnknownKey(missing: set<string>, unknown: set<string>)
      /** The `UpdateError` raised when the version parsed from the name is empty. */
    | VersionUnparseable(name: JsonValue, message: string)

  /** The fields without a default. */
  const RequiredFields: set<string> := {
    "name", "old_version", "filename", "line", "urls", "url",
    "rev", "hash", "mod_sha256", "vendor_sha256", "cargo_sha256"
  }

  /** The one field with a default (`None`). */
  const DefaultedField: string := "new_version"

  const AllFields: set<string> := RequiredFields + {DefaultedField}

  /** `new_version` is not among the required fields. */
  lemma DefaultedFieldNotRequired()
    ensures DefaultedField !in RequiredFields
  {
  }

  /** The value of the field called `key`. */
  function Field(p: Package, key: string): JsonValue
    requires key in AllFields
  {
    match key
    case "name" => p.name
    case "old_version" => p.oldVersion
    case "filename" => p.filename
    case "line" => p.line
    case "urls" => p.urls
    case "url" => p.url
    case "rev" => p.rev
    case "hash" => p.hash
    case "mod_sha256" => p.modSha256
    case "vendor_sha256" => p.vendorSha256
    case "cargo_sha256" => p.cargoSha256
    case _ => p.newVersion
  }

  /** The package's fields as keyword arguments, every field included. */
  function ToObject(p: Package): (out: map<string, JsonValue>)
    ensures out.Keys == AllFields
    ensures forall k :: k in AllFields ==> out[k] == Field(p, k)
  {
    map[
      "name" := p.name, "old_version" := p.oldVersion, "filename" := p.filename,
      "line" := p.line, "urls" := p.urls, "url" := p.url, "rev" := p.rev,
      "hash" := p.hash, "mod_sha256" := p.modSha256, "vendor_sha256" := p.vendorSha256,
      "cargo_sha256" := p.cargoSha256, "new_version" := p.newVersion]
  }

  /** `Package(**out)`: succeeds exactly when every required field is given
      and no key names something that is not a field; each field then holds
      its argument verbatim, and `new_version` is `None` unless given. */
  function FromObject(out: map<string, JsonValue>): (r: Result<Package, Error>)
    ensures r.Ok? <==> RequiredFields <= out.Keys <= AllFields
    ensures r.Ok? ==> forall k :: k in out ==> Field(r.value, k) == out[k]
    ensures r.Ok? && DefaultedField !in out ==> r.value.newVersion == JNull
    ensures r.Err? ==>
      && r.error.MissingOrUnknownKey?
      && r.error.missing == RequiredFields - out.Keys
      && r.error.unknown == out.Keys - AllFields
      && (r.error.missing != {} || r.error.unknown != {})
  {
    if RequiredFields <= out.Keys <= AllFields then
      Ok(Package(
        out["name"], out["old_version"], out["filename"], out["line"], out["urls"], out["url"],
        out["rev"], out["hash"], out["mod_sha256"], out["vendor_sha256"], out["cargo_sha256"],
        if DefaultedField in out then out[DefaultedField] else JNull))
    else
      Err(MissingOrUnknownKey(RequiredFields - out.Keys, out.Keys - AllFields))
  }

  /** Spreading a package's own fields back into the constructor rebuilds it. */
  lemma ObjectRoundTrip(p: Package)
    ensures FromObject(ToObject(p)) == Ok(p)
  {
    var r := FromObject(ToObject(p));
    assert r.Ok?;
    forall k | k in AllFields ensures Field(r.value, k) == Field(p, k) {
    }
    assert Field(r.value, "name") == Field(p, "name");
  }

  /** A required field that the decoded object lacks is reported, never filled in. */
  lemma MissingFieldRejected(out: map<string, JsonValue>, key: string)
    requires key in RequiredFields && key !in out
    ensures FromObject(out).Err? && key in FromObject(out).error.missing
  {
  }

  /** The text of the error raised for an unparseable version. */
  function VersionMessage(name: JsonValue): (m: string)
    ensures |Display(name)| <= |m| && m[|m| - |Display(name)|..] == Display(name)
    ensures name.JString? ==> m[|m| - |name.s|..] == name.s
  {
    "Nix's builtins.parseDrvName could not parse the version from " + Display(name)
  }

  /** The check after construction: an empty `old_version` means Nix could
      not parse a version from the name, and is an error naming the package;
      any other package is returned as it is. */
  function CheckVersion(p: Package): (r: Result<Package, Error>)
    ensures r.Ok? <==> p.oldVersion != JString("")
    ensures r.Ok? ==> r.value == p
    ensures r.Err? ==>
      && r.error.VersionUnparseable?
      && r.error.name == p.name
      && r.error.message == VersionMessage(p.name)
  {
    if p.oldVersion == JString("") then Err(VersionUnparseable(p.name, VersionMessage(p.name))) else Ok(p)
  }

  /** The decoded output to a checked package: construction, then the version check. */
  function ParsePackage(decoded: JsonValue): (r: Result<Package, Error>)
    ensures !decoded.JObject? ==> r == Err(NotAMapping)
    ensures decoded.JObject? && !(RequiredFields <= decoded.fields.Keys <= AllFields) ==>
      r == FromObject(decoded.fields) && r.Err? && r.error.MissingOrUnknownKey?
    ensures r.Ok? ==> decoded.JObject? && RequiredFields <= decoded.fields.Keys <= AllFields
    ensures r.Ok? ==> forall k :: k in decoded.fields ==> Field(r.value, k) == decoded.fields[k]
    ensures r.Ok? && DefaultedField !in decoded.fields ==> r.value.newVersion == JNull
    ensures r.Ok? ==> r.value.oldVersion != JString("")
    ensures r.Err? ==> !r.error.RunFailed?
    ensures r.Err? && r.error.VersionUnparseable? ==>
      && decoded.JObject?
      && "old_version" in decoded.fields && decoded.fields["old_version"] == JString("")
      && "name" in decoded.fields && r.error.name == decoded.fields["name"]
    ensures r.Err? && r.error.MissingOrUnknownKey? ==>
      decoded.JObject? && !(RequiredFields <= decoded.fields.Keys <= AllFields)
  {
    match decoded
    case JObject(out) =>
      (match FromObject(out)
       case Ok(p) => CheckVersion(p)
       case Err(e) => Err(e))
    case _ => Err(NotAMapping)
  }

  /** Given every field and a non-empty `old_version`, the result is the package
      holding the decoded values; given an empty `old_version` instead, it is
      the version error naming the decoded `name`. */
  lemma ParseOutcome(out: map<string, JsonValue>)
    requires RequiredFields <= out.Keys <= AllFields
    ensures var r := ParsePackage(JObject(out));
      if out["old_version"] == JString("") then
        r.Err? && r.error.VersionUnparseable? && r.error.name == out["name"]
        && r.error.message == VersionMessage(out["name"])
      else
        r.Ok? && r.value.name == out["name"] && r.value.oldVersion == out["old_version"]
        && ToObject(r.value) == out + (if DefaultedField in out then map[] else map[DefaultedField := JNull])
  {
    var p := FromObject(out).value;
    assert Field(p, "name") == out["name"];
    assert Field(p, "old_version") == out["old_version"];
    assert ParsePackage(JObject(out)) == CheckVersion(p);
    KeywordFormOfBuilt(out);
  }

  /** The keyword form of a built package is the decoded object, completed
      with `new_version` set to `None` when it was absent. */
  lemma KeywordFormOfBuilt(out: map<string, JsonValue>)
    requires RequiredFields <= out.Keys <= AllFields
    ensures ToObject(FromObject(out).value)
      == out + (if DefaultedField in out then map[] else map[DefaultedField := JNull])
  {
    var p := FromObject(out).value;
    var full := out + (if DefaultedField in out then map[] else map[DefaultedField := JNull]);
    forall k | k in AllFields ensures ToObject(p)[k] == full[k] {
    }
  }

  /** The value of `key` has the type the dataclass annotates the field with.
      `rev` may be `None`: the query emits `null` when there is no revision. */
  predicate FieldConforms(key: string, v: JsonValue) {
    match key
    case "name" => v.JString?
    case "old_version" => v.JString?
    case "filename" => v.JString?
    case "line" => v.JNumber?
    case "urls" => v.JNull? || (v.JArray? && forall i :: 0 <= i < |v.items| ==> v.items[i].JString?)
    case "hash" => v.JString?
    case _ => v.JNull? || v.JString?
  }

  /** Every field has its annotated type. */
  predicate Conforms(p: Package) {
    forall k :: k in AllFields ==> FieldConforms(k, Field(p, k))
  }

  /** A decoded object whose values have the annotated types yields a package
      whose fields do. */
  lemma FromObjectConforms(out: map<string, JsonValue>)
    requires FromObject(out).Ok?
    requires forall k :: k in out ==> FieldConforms(k, out[k])
    ensures Conforms(FromObject(out).value)
  {
    var p := FromObject(out).value;
    forall k | k in AllFields ensures FieldConforms(k, Field(p, k)) {
      if k == DefaultedField && k !in out {
        assert Field(p, k) == JNull;
      }
    }
  }
}
