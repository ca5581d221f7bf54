/**
 `eval_attr`: build the query for one package, run it through `nix eval`
 in the dialect the installed Nix speaks, and turn the decoded JSON into a
 checked `Package`. Running the process and decoding its output are outside
 this model; they enter as the function `evaluate`, which maps a command
 line to the decoded output or to the failure it raised.
 */
module Eval {
  import opened Wrappers
  import opened Json
  import opened Query
  import opened Invocation
  import opened Packages

  /** What `eval_attr` reads of the tool's options. */
  datatype Options = Options(importPath: string, attribute: string)

  /** The whole operation. The evaluator is run once, on the command line for
      the query and the dialect; a failure it raises is passed on unchanged,
      and its decoded output goes through construction and the version check. */
  function EvalAttr(opts: Options, nixFlakes: bool, evaluate: seq<string> -> Result<JsonValue, RunError>)
    : (r: Result<Package, Error>)
    ensures var out := evaluate(Command(Expression(opts.importPath, opts.attribute), nixFlakes));
      && (out.Err? ==> r == Err(RunFailed(out.error)))
      && (out.Ok? ==> r == ParsePackage(out.value))
    ensures r.Ok? ==> r.value.oldVersion != JString("")
    ensures var out := evaluate(Command(Expression(opts.importPath, opts.attribute), nixFlakes));
      r.Err? && r.error.VersionUnparseable? ==>
        && out.Ok? && out.value.JObject?
        && "old_version" in out.value.fields
        && out.value.fields["old_version"] == JString("")
        && r.error.name == out.value.fields["name"]
    ensures var out := evaluate(Command(Expression(opts.importPath, opts.attribute), nixFlakes));
      r.Err? && r.error.MissingOrUnknownKey? ==>
        out.Ok? && out.value.JObject? && !(RequiredFields <= out.value.fields.Keys <= AllFields)
    ensures var out := evaluate(Command(Expression(opts.importPath, opts.attribute), nixFlakes));
      r.Err? && r.error.NotAMapping? ==> out.Ok? && !out.value.JObject?
  {
    var out := evaluate(Command(Expression(opts.importPath, opts.attribute), nixFlakes));
    if out.Err? then Err(RunFailed(out.error)) else ParsePackage(out.value)
  }

  /** The keys of the attribute set the query returns. */
  function QueryKeys(): (ks: set<string>)
    ensures forall i :: 0 <= i < |Bindings| ==> Bindings[i].0 in ks
  {
    set k | k in BindingKeys(Bindings)
  }

  /** The keys of the attribute set the query returns are exactly the fields
      of `Package` without a default. */
  lemma QueryKeysAreRequiredFields()
    ensures QueryKeys() == RequiredFields
  {
    QueryKeyList();
  }

  /** The query's keys, in the order it writes them. */
  lemma QueryKeyList()
    ensures BindingKeys(Bindings) == ["name", "old_version", "filename", "line", "urls", "url",
                                      "rev", "hash", "mod_sha256", "vendor_sha256", "cargo_sha256"]
  {
    var keys := BindingKeys(Bindings);
    assert keys[0] == "name";
    assert keys[1] == "old_version";
    assert keys[2] == "filename";
    assert keys[3] == "line";
    assert keys[4] == "urls";
    assert keys[5] == "url";
    assert keys[6] == "rev";
    assert keys[7] == "hash";
    assert keys[8] == "mod_sha256";
    assert keys[9] == "vendor_sha256";
    assert keys[10] == "cargo_sha256";
  }

  /** The query binds each field once, and never `new_version`: that field
      always takes its default when the output has the query's shape. */
  lemma QueryOmitsDefaultedField()
    ensures DefaultedField !in QueryKeys()
    ensures |QueryKeys()| == |Bindings|
  {
    QueryKeysAreRequiredFields();
    DefaultedFieldNotRequired();
    BindingKeysDistinct();
    DistinctCount(BindingKeys(Bindings));
  }

  /** A sequence without repeated elements has as many distinct elements as entries. */
  lemma {:induction false} DistinctCount(ks: seq<string>)
    requires forall i, j :: 0 <= i < j < |ks| ==> ks[i] != ks[j]
    ensures |set k | k in ks| == |ks|
  {
    if ks != [] {
      var rest := ks[1..];
      DistinctCount(rest);
      assert (set k | k in ks) == {ks[0]} + (set k | k in rest);
      assert ks[0] !in (set k | k in rest);
    }
  }

  /** On the command line `eval_attr` runs, `--json` and the query each occur
      exactly once, and the last argument is the query. */
  lemma CommandCarriesQueryOnce(opts: Options, nixFlakes: bool)
    ensures var e := Expression(opts.importPath, opts.attribute);
      var argv := Command(e, nixFlakes);
      && argv[|argv| - 1] == e
      && multiset(argv)["--json"] == 1
      && multiset(argv)[e] == 1
  {
    var e := Expression(opts.importPath, opts.attribute);
    assert e != "nix" && e != "eval" && e != "nix-command" by {
      assert "nix"[0] != '(' && "eval"[0] != '(' && "nix-command"[0] != '(';
    }
    Occurrences(e, nixFlakes);
  }

  /** When the evaluator answers with an object holding exactly the keys the
      query emits, construction cannot fail: the result is the package, or the
      version error when `old_version` is empty. */
  lemma QueryShapeIsAccepted(opts: Options, nixFlakes: bool, evaluate: seq<string> -> Result<JsonValue, RunError>, out: map<string, JsonValue>)
    requires evaluate(Command(Expression(opts.importPath, opts.attribute), nixFlakes)) == Ok(JObject(out))
    requires out.Keys == QueryKeys()
    ensures var r := EvalAttr(opts, nixFlakes, evaluate);
      if out["old_version"] == JString("") then r.Err? && r.error.VersionUnparseable? && r.error.name == out["name"]
      else r.Ok? && r.value.newVersion == JNull && forall k :: k in out ==> Field(r.value, k) == out[k]
  {
    QueryKeysAreRequiredFields();
    DefaultedFieldNotRequired();
    assert RequiredFields <= out.Keys <= AllFields && DefaultedField !in out;
    assert EvalAttr(opts, nixFlakes, evaluate) == ParsePackage(JObject(out));
    ParseOutcome(out);
  }
}
