/**
 The text of the Nix query that `eval_expression` builds: a fixed template
 with two holes, the repository to import and the attribute path bound to
 `pkg`. Only the text is modelled; what the Nix evaluator makes of it is not.
 */
module Query {
  import opened Wrappers

  /** Template text before the import path. */
  const Prefix: string := "(with import "

  /** Template text between the import path and the attribute path. */
  const Middle: string := " {};\n    let\n      pkg = "

  /** The bindings of the attribute set the query returns, in the order they
      are written: the key, then the Nix expression bound to it. */
  const Bindings: seq<(string, string)> := [
    ("name", "pkg.name"),
    ("old_version", "(builtins.parseDrvName pkg.name).version"),
    ("filename", "position.file"),
    ("line", "position.line"),
    ("urls", "pkg.src.urls or null"),
    ("url", "pkg.src.url or null"),
    ("rev", "pkg.src.url.rev or null"),
    ("hash", "pkg.src.outputHash"),
    ("mod_sha256", "pkg.modSha256 or null"),
    ("vendor_sha256", "pkg.vendorSha256 or null"),
    ("cargo_sha256", "pkg.cargoSha256 or null")
  ]

  /** One line of the attribute set per binding, `key = expression;`. */
  function BindingLines(bs: seq<(string, string)>): string {
    if bs == [] then "" else "      " + bs[0].0 + " = " + bs[0].1 + ";\n" + BindingLines(bs[1..])
  }

  /** The keys of a list of bindings, in order. */
  function BindingKeys(bs: seq<(string, string)>): (ks: seq<string>)
    ensures |ks| == |bs|
    ensures forall i :: 0 <= i < |bs| ==> ks[i] == bs[i].0
  {
    if bs == [] then [] else [bs[0].0] + BindingKeys(bs[1..])
  }

  /** No key is bound twice in the attribute set. */
  lemma BindingKeysDistinct()
    ensures forall i, j :: 0 <= i < j < |Bindings| ==> Bindings[i].0 != Bindings[j].0
  {
    forall i, j | 0 <= i < j < |Bindings| ensures Bindings[i].0 != Bindings[j].0 {
      assert |Bindings[i].0| != |Bindings[j].0| || Bindings[i].0[0] != Bindings[j].0[0];
    }
  }

  /** Template text after the attribute path: the choice of the position
      attribute, then the attribute set. */
  const Suffix: string :=
    ";\n"
    + "      position = if pkg ? isRubyGem then\n"
    + "        builtins.unsafeGetAttrPos \"version\" pkg\n"
    + "      else\n"
    + "        builtins.unsafeGetAttrPos \"src\" pkg;\n"
    + "    in {\n"
    + BindingLines(Bindings)
    + "    })"

  /** The query for the package at `attr` in the repository at `importPath`. */
  function Expression(importPath: string, attr: string): (e: string)
    ensures |e| == |Prefix| + |importPath| + |Middle| + |attr| + |Suffix|
    ensures e[0] == '('
  {
    Prefix + importPath + Middle + attr + Suffix
  }

  /** Splits a query back into its import path and attribute path, given the
      length of the import path; `None` when `e` does not have the
      template's shape. */
  function Holes(e: string, pathLength: nat): Option<(string, string)> {
    var k := |Prefix| + pathLength;
    if |e| < k + |Middle| + |Suffix| then None
    else if e[..|Prefix|] == Prefix && e[k..k + |Middle|] == Middle && e[|e| - |Suffix|..] == Suffix
    then Some((e[|Prefix|..k], e[k + |Middle|..|e| - |Suffix|]))
    else None
  }

  /** Slicing a five-part concatenation at the part boundaries gives the parts back. */
  lemma SliceParts(pre: string, x: string, mid: string, y: string, suf: string)
    ensures var e := pre + x + mid + y + suf;
      var k := |pre| + |x|;
      && e[..|pre|] == pre && e[|pre|..k] == x && e[k..k + |mid|] == mid
      && e[k + |mid|..|e| - |suf|] == y && e[|e| - |suf|..] == suf
  {
  }

  /** A string cut at four increasing points is the concatenation of the pieces. */
  lemma JoinParts(e: string, i: nat, j: nat, k: nat, l: nat)
    requires i <= j <= k <= l <= |e|
    ensures e == e[..i] + e[i..j] + e[j..k] + e[k..l] + e[l..]
  {
  }

  /** The two holes are the only varying text: they are recovered from the query. */
  lemma HolesRoundTrip(importPath: string, attr: string)
    ensures Holes(Expression(importPath, attr), |importPath|) == Some((importPath, attr))
  {
    SliceParts(Prefix, importPath, Middle, attr, Suffix);
  }

  /** Whatever `Holes` accepts is exactly the query built from the parts it returns. */
  lemma HolesSound(e: string, pathLength: nat, importPath: string, attr: string)
    requires Holes(e, pathLength) == Some((importPath, attr))
    ensures |importPath| == pathLength
    ensures Expression(importPath, attr) == e
  {
    var k := |Prefix| + pathLength;
    JoinParts(e, |Prefix|, k, k + |Middle|, |e| - |Suffix|);
  }

  /** The length condition below is needed: an attribute path holding the
      middle template text yields the same query as a shorter import path. */
  lemma HolesAmbiguousWithoutLength()
    ensures Expression("x" + Middle + "y", "z") == Expression("x", "y" + Middle + "z")
    ensures "x" + Middle + "y" != "x"
  {
    ShiftHole(Prefix, "x", Middle, "y", "z", Suffix);
    assert |"x" + Middle + "y"| > |"x"|;
  }

  /** Moving text that contains the middle part from one hole to the other
      leaves a five-part concatenation unchanged. */
  lemma ShiftHole(pre: string, x: string, mid: string, y: string, z: string, suf: string)
    ensures pre + (x + mid + y) + mid + z + suf == pre + x + mid + (y + mid + z) + suf
  {
  }

  /** Two queries with import paths of the same length are equal only when
      both holes are filled alike. */
  lemma ExpressionInjective(p1: string, a1: string, p2: string, a2: string)
    requires |p1| == |p2|
    requires Expression(p1, a1) == Expression(p2, a2)
    ensures p1 == p2 && a1 == a2
  {
    HolesRoundTrip(p1, a1);
    HolesRoundTrip(p2, a2);
  }
}
