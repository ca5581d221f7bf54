# nix-update: evaluating a package attribute

This project models the evaluation core of nix-update (`nix_update/eval.py`) in Dafny and proves properties of that model. Given a repository path and an attribute path, the core does four things in order:

1. It writes a Nix expression that imports the repository, binds the package to `pkg`, and returns an attribute set of eleven keys describing it.
2. It runs that expression through `nix eval --json`. With the flakes dialect it runs `--impure --experimental-features nix-command --expr <expr>`. Without flakes it runs `<expr>` directly.
3. It spreads the decoded JSON object into the `Package` dataclass with `Package(**out)`.
4. It raises an `UpdateError` when Nix could not parse a version out of the package name, that is, when `old_version` is the empty string.

Modules:

- `Query` (query.dfy): the expression text. It is a constant prefix, then the import path, then a constant middle, then the attribute path, then a constant suffix. The suffix's attribute set is written from a list of (key, Nix expression) bindings.
- `Invocation` (invocation.dfy): the argument vector for each dialect. The dialect is a boolean parameter, the answer of the flakes probe.
- `Packages` (package.dfy): the `Package` record, keyword construction (`FromObject`), the version check (`CheckVersion`), and the two combined (`ParsePackage`). Python does not enforce the dataclass annotations, so each field holds the decoded JSON value verbatim. `Conforms` states the annotated types separately.
- `Json` (json.dfy): decoded JSON values, and the text Python's `str()` gives them in the error message.
- `Eval` (eval.dfy): `eval_attr` as a whole. Running the process and decoding its output become one function parameter, `evaluate`. It maps a command line to the decoded value or to the failure raised on the way.
- `Wrappers` (wrappers.dfy): `Option` and `Result`.

Facts about `nix_update/eval.py` that the model records:

- The query emits eleven keys, the `Package` fields without a default. `new_version` is never emitted.
- `rev` is annotated `str`, but the query emits `pkg.src.url.rev or null`. The model lets `rev` be `None`, like the other optional fields.
- `Package(**out)` also rejects keys that are not fields of `Package`. A decoded `new_version` key is accepted, because it is a field.
- The program the argument vector names is `nix`.
- The query text determines its two holes only once the import path's length is known. An attribute path that contains the middle template text can produce the same query as a different import path (`Query.HolesAmbiguousWithoutLength`), which is why `Query.ExpressionInjective` requires equal import-path lengths.

## Model

| member | source | states |
|---|---|---|
| Query.Expression | nix_update/eval.py:27-47 | The query's length is the template's length plus the lengths of the two inserted strings, and it begins with `(`. |
| Query.HolesRoundTrip | nix_update/eval.py:27-30 | The import path (after `with import `) and the attribute path (after `pkg = `) can be recovered from the query. The rest is fixed text. |
| Query.HolesSound | nix_update/eval.py:27-30 | Any string with the template's shape is exactly the query built from its two recovered holes. |
| Query.ExpressionInjective | nix_update/eval.py:27-30 | Two queries whose import paths have the same length are equal only if both holes hold the same text. |
| Query.HolesAmbiguousWithoutLength | nix_update/eval.py:27-30 | Without the import path's length, the query does not determine its holes: an attribute path holding the middle text forges a different import path. |
| Query.BindingKeysDistinct | nix_update/eval.py:35-47 | No key is bound twice in the attribute set the query returns. |
| Eval.QueryKeysAreRequiredFields | nix_update/eval.py:35-46 | The keys the query emits are exactly the eleven `Package` fields without a default (declared at lines 12-22). |
| Eval.QueryKeyList | nix_update/eval.py:36-46 | The query writes its keys in the order `name, old_version, filename, line, urls, url, rev, hash, mod_sha256, vendor_sha256, cargo_sha256`. |
| Eval.QueryOmitsDefaultedField | nix_update/eval.py:24-46 | The query never emits `new_version`, and it emits eleven distinct keys. |
| Invocation.Command | nix_update/eval.py:52-64 | The vector has 8 entries with flakes and 4 without. It starts with `nix eval --json` and ends with the expression. `--impure`, `--experimental-features` and `--expr` appear among the options exactly when flakes is used. With flakes, entries 3 to 6 are exactly `--impure --experimental-features nix-command --expr`. |
| Invocation.DialectRecovered | nix_update/eval.py:52-64 | The dialect can be read back from the command line, and the two dialects never give the same vector. |
| Invocation.Occurrences | nix_update/eval.py:53-64 | When the expression is not itself an option word, `--json` and the expression each occur once. The dialect options each occur once with flakes and never without. |
| Eval.CommandCarriesQueryOnce | nix_update/eval.py:51-64 | On the command line for the generated query, the query is the last argument and occurs once, and `--json` occurs once. |
| Packages.ToObject | nix_update/eval.py:10-24 | A package's keyword form has exactly the twelve field names as keys, each mapped to that field's value. |
| Packages.FromObject | nix_update/eval.py:67 | Construction succeeds exactly when every required field is present and every key is a field. On success, each field equals the decoded value verbatim, and `new_version` is `None` unless given. On failure, the error lists exactly the missing and the unknown keys, and at least one of the two lists is non-empty. |
| Packages.ObjectRoundTrip | nix_update/eval.py:10-24 | Building a package from its own keyword form gives back the same package. |
| Packages.MissingFieldRejected | nix_update/eval.py:67 | An absent required field is reported as missing. It is never defaulted. |
| Packages.VersionMessage | nix_update/eval.py:69-71 | The error message ends with the displayed package name. For a string name, it ends with the name itself. |
| Packages.CheckVersion | nix_update/eval.py:68-73 | An empty `old_version` gives the version error, which carries the package name and the message. Any other package is returned unchanged. |
| Packages.ParsePackage | nix_update/eval.py:66-73 | A non-object is rejected. A badly keyed object fails with the construction error that `FromObject` gives, before the version is checked. A version error means the object's `old_version` was empty and carries its `name`; a key error means the object was badly keyed; no runner error arises here. On success, the decoded object had every required key and no unknown key. Each field is verbatim, `new_version` is `None` when absent, and `old_version` is not empty. |
| Packages.ParseOutcome | nix_update/eval.py:66-73 | For a well-keyed object, an empty `old_version` gives the version error naming the decoded `name`. Otherwise the result is the package whose keyword form is the decoded object, with `new_version` defaulted to `None` if it was absent. |
| Packages.KeywordFormOfBuilt | nix_update/eval.py:10-24 | The keyword form of a package built from a well-keyed object is that object, with `new_version` added as `None` when it was absent. |
| Packages.FromObjectConforms | nix_update/eval.py:10-24 | Decoded values of the annotated types yield a package whose fields all have those types. |
| Eval.EvalAttr | nix_update/eval.py:50-73 | The evaluator is consulted on exactly the command line for the query and the dialect. Its failures pass through unchanged as `RunFailed`, and its output goes through construction and the version check. A returned package never has an empty `old_version`. Each error variant identifies its cause: the version error means the decoded object's `old_version` was empty (and carries its `name`), the key error means the decoded object was badly keyed, and `NotAMapping` means the decoded value was not an object. |
| Eval.QueryShapeIsAccepted | nix_update/eval.py:50-73 | When the output has exactly the query's keys, the result is either the package (fields verbatim, `new_version` is `None`) or the version error. It is never a key error. |
| Json.Display | nix_update/eval.py:70 | `str()` of a string is the string itself. For an integer it begins with `-` exactly when the integer is negative. |
| Json.DisplayIntegerRoundTrip | nix_update/eval.py:70 | The decimal text `str()` gives an integer reads back as that integer. |

## Left out

- `run` (the subprocess spawn, output capture, and raising on a non-zero exit) and `json.loads`: both are folded into the `evaluate` parameter of `Eval.EvalAttr`. Their failures are the `RunError` values `ProcessFailed` and `InvalidJson`, which `EvalAttr` passes on wrapped in `RunFailed`; `evaluate` cannot return any other error.
- `is_nix_flakes`: it probes the installed tool. Its answer is the `nixFlakes` parameter.
- The meaning of the generated expression when Nix evaluates it: `builtins.unsafeGetAttrPos`, `builtins.parseDrvName`, the `isRubyGem` branch and the `or null` fallbacks. Only the text is modelled.
- `Options` and `UpdateError` are defined outside `nix_update/eval.py` and are not part of this model. `Options` becomes a pair of strings. `UpdateError` becomes the `VersionUnparseable` error, which carries the name and the message.
- Json.Display: Python's `str()` of a list or dictionary name is rendered as the placeholders `[...]` and `{...}`, so for such names the message does not reproduce Python's text. Strings, `None`, booleans and integers are rendered as Python renders them.
- JSON numbers with a fraction or exponent, which decode to Python floats, are not modelled. Numbers are integers.
- The text of the `TypeError` that `Package(**out)` raises, and the fact that Python reports an unexpected keyword before missing ones. The model reports both sets in one error.
