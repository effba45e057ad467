/** What a Cargo workspace turns on, as rules on the text of its manifests: what follows from the
    applications' roots in any number of steps, and nothing else. */
module FeatureRules {
  import opened FiniteSets

  datatype Edge = Edge(name: string, optional: bool, defaultFeatures: bool, features: set<string>)

  datatype Manifest = Manifest(features: map<string, seq<string>>, dependencies: seq<Edge>)

  type Workspace = map<string, Manifest>

  /** The crates reached, and the features enabled on each. */
  type Surface = map<string, set<string>>

  /** What is known of a surface: a crate reached, or a feature enabled on it. */
  datatype Fact = Reached(crate: string) | Enabled(crate: string, feature: string)

  function Facts(s: Surface): set<Fact> {
    (set c | c in s :: Reached(c)) + (set c, f | c in s && f in s[c] :: Enabled(c, f))
  }

  predicate Declares(w: Workspace, crate: string, feature: string) {
    crate in w && feature in w[crate].features
  }

  /** The feature's entry lists this text. */
  predicate Lists(w: Workspace, crate: string, feature: string, text: string) {
    Declares(w, crate, feature) && text in w[crate].features[feature]
  }

  predicate Depends(w: Workspace, crate: string, edge: Edge) {
    crate in w && edge in w[crate].dependencies
  }

  /** The text asks for feature `f` of dependency `n`: it starts with `n/`, and `f` is what follows its
      first slash. */
  ghost predicate Asks(text: string, n: string, f: string) {
    n + "/" <= text && exists before :: '/' !in before && text == before + "/" + f
  }

  /** For a name without a slash, as crate names are, that is the text `n/f`. */
  lemma AsksPlainly(text: string, n: string, f: string)
    requires '/' !in n
    ensures Asks(text, n, f) <==> text == n + "/" + f
  {
    if text == n + "/" + f {
      assert n + "/" <= text;
    }
    if Asks(text, n, f) {
      var before :| '/' !in before && text == before + "/" + f;
      assert text[|n|] == '/' == text[|before|];
      assert forall j :: 0 <= j < |before| ==> text[j] == before[j];
      assert forall j :: 0 <= j < |n| ==> text[j] == n[j];
      assert |before| == |n|;
      assert n == text[..|n|] && before == text[..|before|];
      assert text[|n| + 1..] == f;
    }
  }

  /** The dependency is compiled, as far as `known` tells. */
  ghost predicate Compiled(w: Workspace, known: iset<Fact>, crate: string, edge: Edge) {
    && Depends(w, crate, edge) && Reached(crate) in known
    && (|| !edge.optional
        || Enabled(crate, edge.name) in known
        || exists g, a :: Enabled(crate, g) in known && Lists(w, crate, g, a)
                       && (a == "dep:" + edge.name || a == edge.name || edge.name + "/" <= a))
  }

  /** Feature `f` is asked of a compiled dependency. */
  ghost predicate Requested(w: Workspace, known: iset<Fact>, crate: string, edge: Edge, f: string) {
    || f in edge.features
    || (f == "default" && edge.defaultFeatures && Declares(w, edge.name, "default"))
    || exists g, a :: Enabled(crate, g) in known && Lists(w, crate, g, a) && Asks(a, edge.name, f)
  }

  ghost predicate CrateFollows(w: Workspace, roots: set<string>, known: iset<Fact>, c: string) {
    c in roots || exists from, edge :: Compiled(w, known, from, edge) && edge.name == c
  }

  ghost predicate FeatureFollows(w: Workspace, roots: set<string>, known: iset<Fact>, c: string, f: string) {
    || (c in roots && f == "default" && Declares(w, c, "default"))
    || (!("dep:" <= f) && '/' !in f && exists g :: Enabled(c, g) in known && Lists(w, c, g, f))
    || exists from, edge :: Compiled(w, known, from, edge) && edge.name == c && Requested(w, known, from, edge, f)
  }

  /** One step. */
  ghost predicate Follows(w: Workspace, roots: set<string>, known: iset<Fact>, x: Fact) {
    match x
    case Reached(c) => CrateFollows(w, roots, known, c)
    case Enabled(c, f) => FeatureFollows(w, roots, known, c, f)
  }

  ghost function Step(w: Workspace, roots: set<string>, known: iset<Fact>): iset<Fact> {
    iset x | Follows(w, roots, known, x)
  }

  /** What follows in at most `n` steps. */
  ghost function Round(w: Workspace, roots: set<string>, n: nat): iset<Fact> {
    if n == 0 then iset{} else Step(w, roots, Round(w, roots, n - 1))
  }

  ghost predicate Derived(w: Workspace, roots: set<string>, x: Fact) {
    exists n: nat :: x in Round(w, roots, n)
  }

  lemma CompiledGrows(w: Workspace, a: iset<Fact>, b: iset<Fact>, crate: string, edge: Edge)
    requires a <= b && Compiled(w, a, crate, edge)
    ensures Compiled(w, b, crate, edge)
  {}

  lemma RequestedGrows(w: Workspace, a: iset<Fact>, b: iset<Fact>, crate: string, edge: Edge, f: string)
    requires a <= b && Requested(w, a, crate, edge, f)
    ensures Requested(w, b, crate, edge, f)
  {}

  lemma FollowsGrows(w: Workspace, roots: set<string>, a: iset<Fact>, b: iset<Fact>, x: Fact)
    requires a <= b && Follows(w, roots, a, x)
    ensures Follows(w, roots, b, x)
  {
    forall from, edge | Compiled(w, a, from, edge) ensures Compiled(w, b, from, edge) {
      CompiledGrows(w, a, b, from, edge);
    }
    forall from, edge, f | Requested(w, a, from, edge, f) ensures Requested(w, b, from, edge, f) {
      RequestedGrows(w, a, b, from, edge, f);
    }
  }

  lemma {:induction false} RoundGrows(w: Workspace, roots: set<string>, n: nat)
    ensures Round(w, roots, n) <= Round(w, roots, n + 1)
  {
    if n > 0 {
      RoundGrows(w, roots, n - 1);
      forall x | x in Round(w, roots, n) ensures x in Round(w, roots, n + 1) {
        FollowsGrows(w, roots, Round(w, roots, n - 1), Round(w, roots, n), x);
      }
    }
  }

  lemma {:induction false} RoundsGrow(w: Workspace, roots: set<string>, m: nat, n: nat)
    requires m <= n
    ensures Round(w, roots, m) <= Round(w, roots, n)
    decreases n
  {
    if m < n {
      RoundsGrow(w, roots, m, n - 1);
      RoundGrows(w, roots, n - 1);
    }
  }

  /** Finitely many derived facts are all there after some number of steps. */
  lemma {:induction false} Together(w: Workspace, roots: set<string>, known: set<Fact>) returns (n: nat)
    requires forall x :: x in known ==> Derived(w, roots, x)
    ensures forall x :: x in known ==> x in Round(w, roots, n)
    decreases |known|
  {
    if known == {} { n := 0; }
    else {
      var x := Pick(known);
      var m := Together(w, roots, known - {x});
      var k: nat :| x in Round(w, roots, k);
      n := if m < k then k else m;
      RoundsGrow(w, roots, m, n);
      RoundsGrow(w, roots, k, n);
    }
  }

  ghost function All(known: set<Fact>): iset<Fact> { iset x | x in known }

  /** What follows from derived facts is derived. */
  lemma DerivedStep(w: Workspace, roots: set<string>, known: set<Fact>, x: Fact)
    requires forall y :: y in known ==> Derived(w, roots, y)
    requires Follows(w, roots, All(known), x)
    ensures Derived(w, roots, x)
  {
    var n := Together(w, roots, known);
    FollowsGrows(w, roots, All(known), Round(w, roots, n), x);
    assert x in Round(w, roots, n + 1);
  }
}
