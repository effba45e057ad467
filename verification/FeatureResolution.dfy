/** Cargo feature resolution over the workspace's own crates, as the applications are shipped. */
module FeatureResolution {
  import opened FiniteSets
  import opened FeatureRules

  function Activations(table: map<string, seq<string>>, feature: string): seq<string> {
    if feature in table then table[feature] else []
  }

  /** Names a feature of the crate itself, not a dependency or a feature of one. */
  predicate Own(activation: string) { !("dep:" <= activation) && '/' !in activation }

  /** What follows the first slash. */
  function AfterSlash(s: string): string {
    if s == "" then "" else if s[0] == '/' then s[1..] else AfterSlash(s[1..])
  }

  // ---- one crate -------------------------------------------------------------------------------

  /** Closed under the crate's own feature table. */
  ghost predicate FeaturesClosed(table: map<string, seq<string>>, s: set<string>) {
    forall f, a :: f in s && a in Activations(table, f) && Own(a) ==> a in s
  }

  /** All but the features still `pending` have had their activations followed. */
  ghost predicate ClosedBut(table: map<string, seq<string>>, s: set<string>, pending: set<string>) {
    forall f, a :: f in s && f !in pending && a in Activations(table, f) && Own(a) ==> a in s
  }

  /** Every closed set holding `wanted` holds `s`. */
  ghost predicate Needed(table: map<string, seq<string>>, wanted: set<string>, s: set<string>) {
    forall t :: wanted <= t && FeaturesClosed(table, t) ==> s <= t
  }

  function Mentioned(table: map<string, seq<string>>): set<string> {
    set f, a | f in table && a in table[f] :: a
  }

  lemma FollowNeeded(table: map<string, seq<string>>, wanted: set<string>, s: set<string>, f: string, a: string)
    requires Needed(table, wanted, s) && f in s && a in Activations(table, f) && Own(a)
    ensures Needed(table, wanted, s + {a})
  {
    forall t | wanted <= t && FeaturesClosed(table, t) ensures s + {a} <= t { assert f in t; }
  }

  method Follow(
    table: map<string, seq<string>>, ghost wanted: set<string>, before: set<string>, pending: set<string>,
    feature: string)
    returns (enabled: set<string>, left: set<string>)
    requires wanted <= before && pending <= before && feature in pending
    requires ClosedBut(table, before, pending) && Needed(table, wanted, before)
    requires before <= wanted + Mentioned(table)
    ensures before <= enabled <= wanted + Mentioned(table) && left <= enabled
    ensures ClosedBut(table, enabled, left) && Needed(table, wanted, enabled)
    ensures enabled == before ==> left == pending - {feature}
  {
    enabled, left := before, pending - {feature};
    var activations := Activations(table, feature);
    for n := 0 to |activations|
      invariant before <= enabled <= wanted + Mentioned(table)
      invariant left <= enabled && (enabled == before ==> left == pending - {feature})
      invariant ClosedBut(table, enabled, left + {feature}) && Needed(table, wanted, enabled)
      invariant forall a :: a in activations[..n] && Own(a) ==> a in enabled
    {
      var a := activations[n];
      assert activations[..n + 1] == activations[..n] + [a] && a in activations;
      if Own(a) && a !in enabled {
        FollowNeeded(table, wanted, enabled, feature, a);
        assert a in Mentioned(table);
        enabled, left := enabled + {a}, left + {a};
      }
    }
    assert activations[..|activations|] == activations;
  }

  /** The least set that holds `wanted` and is closed under the table; `pending` is taken in any
      order. */
  method CloseFeatures(table: map<string, seq<string>>, wanted: set<string>) returns (enabled: set<string>)
    ensures wanted <= enabled && FeaturesClosed(table, enabled) && Needed(table, wanted, enabled)
  {
    enabled := wanted;
    var pending := wanted;
    while pending != {}
      invariant wanted <= enabled <= wanted + Mentioned(table) && pending <= enabled
      invariant ClosedBut(table, enabled, pending) && Needed(table, wanted, enabled)
      decreases |wanted + Mentioned(table) - enabled|, |pending|
    {
      var feature :| feature in pending;
      ghost var before := enabled;
      enabled, pending := Follow(table, wanted, enabled, pending, feature);
      if enabled != before { Shrinks(wanted + Mentioned(table), before, enabled); }
    }
  }

  // ---- one dependency --------------------------------------------------------------------------

  predicate TurnsOn(activation: string, name: string) {
    activation == "dep:" + name || activation == name || name + "/" <= activation
  }

  /** The dependency is compiled at all. */
  predicate Activated(table: map<string, seq<string>>, enabled: set<string>, edge: Edge) {
    || !edge.optional
    || edge.name in enabled
    || exists f :: f in enabled && exists a :: a in Activations(table, f) && TurnsOn(a, edge.name)
  }

  /** The features asked of a dependency through `name/feature`. */
  function AskedOf(table: map<string, seq<string>>, enabled: set<string>, name: string): set<string> {
    set f, a | f in enabled && a in Activations(table, f) && name + "/" <= a :: AfterSlash(a)
  }

  /** What a compiled dependency must have enabled. */
  function Wanted(w: Workspace, crate: string, enabled: set<string>, edge: Edge): set<string>
    requires crate in w && edge.name in w
  {
    edge.features + AskedOf(w[crate].features, enabled, edge.name)
    + (if edge.defaultFeatures && "default" in w[edge.name].features then {"default"} else {})
  }

  lemma WantedGrows(w: Workspace, crate: string, a: set<string>, b: set<string>, edge: Edge)
    requires crate in w && edge.name in w && a <= b
    ensures Activated(w[crate].features, a, edge) ==> Activated(w[crate].features, b, edge)
    ensures Wanted(w, crate, a, edge) <= Wanted(w, crate, b, edge)
  {}

  // ---- the workspace ---------------------------------------------------------------------------

  /** Every dependency has a manifest. */
  predicate Whole(w: Workspace) {
    forall c :: c in w ==> forall k :: 0 <= k < |w[c].dependencies| ==> w[c].dependencies[k].name in w
  }

  ghost predicate EdgeMet(w: Workspace, s: Surface, crate: string, edge: Edge)
    requires crate in w && crate in s && edge.name in w
  {
    Activated(w[crate].features, s[crate], edge) ==>
      edge.name in s && Wanted(w, crate, s[crate], edge) <= s[edge.name]
  }

  ghost predicate CrateMet(w: Workspace, s: Surface, crate: string)
    requires Whole(w) && crate in w && crate in s
  {
    && FeaturesClosed(w[crate].features, s[crate])
    && forall k :: 0 <= k < |w[crate].dependencies| ==> EdgeMet(w, s, crate, w[crate].dependencies[k])
  }

  function RootFeatures(w: Workspace, root: string): set<string>
    requires root in w
  {
    if "default" in w[root].features then {"default"} else {}
  }

  ghost predicate RootsMet(w: Workspace, roots: set<string>, s: Surface)
    requires roots <= w.Keys
  {
    forall r :: r in roots ==> r in s && RootFeatures(w, r) <= s[r]
  }

  /** Closed under defaults, own features, optional dependencies and feature requests. */
  ghost predicate Closed(w: Workspace, roots: set<string>, s: Surface)
    requires Whole(w) && roots <= w.Keys
  {
    && s.Keys <= w.Keys && RootsMet(w, roots, s)
    && forall c :: c in s ==> CrateMet(w, s, c)
  }

  ghost predicate Within(a: Surface, b: Surface) {
    forall c :: c in a ==> c in b && a[c] <= b[c]
  }

  ghost predicate Least(w: Workspace, roots: set<string>, s: Surface)
    requires Whole(w) && roots <= w.Keys
  {
    forall t :: Closed(w, roots, t) ==> Within(s, t)
  }

  /** The one surface resolution may return. */
  ghost predicate Resolved(w: Workspace, roots: set<string>, s: Surface)
    requires Whole(w) && roots <= w.Keys
  {
    Closed(w, roots, s) && Least(w, roots, s)
  }

  // ---- the universe ----------------------------------------------------------------------------

  function EdgeFeatures(dependencies: seq<Edge>): set<string> {
    set k, f | 0 <= k < |dependencies| && f in dependencies[k].features :: f
  }

  /** Every name that can be a feature of anything. */
  function AllFeatures(w: Workspace): set<string> {
    {"default"}
    + (set c, f | c in w && f in Mentioned(w[c].features) :: f)
    + (set c, f | c in w && f in Mentioned(w[c].features) :: AfterSlash(f))
    + (set c, f | c in w && f in EdgeFeatures(w[c].dependencies) :: f)
  }

  function Top(w: Workspace): Surface { map c | c in w :: AllFeatures(w) }

  lemma TopClosed(w: Workspace, roots: set<string>)
    requires Whole(w) && roots <= w.Keys
    ensures Closed(w, roots, Top(w))
  {
    forall c | c in w ensures CrateMet(w, Top(w), c) {
      forall f, a | a in Activations(w[c].features, f)
        ensures a in AllFeatures(w) && AfterSlash(a) in AllFeatures(w)
      {
        assert a in Mentioned(w[c].features);
      }
      forall k | 0 <= k < |w[c].dependencies| ensures EdgeMet(w, Top(w), c, w[c].dependencies[k]) {
        forall f | f in w[c].dependencies[k].features ensures f in AllFeatures(w) {
          assert f in EdgeFeatures(w[c].dependencies);
        }
      }
    }
  }

  lemma FactsWithin(a: Surface, b: Surface)
    ensures Facts(a) <= Facts(b) <==> Within(a, b)
  {
    if Facts(a) <= Facts(b) {
      forall c | c in a ensures c in b && a[c] <= b[c] {
        assert Reached(c) in Facts(a);
        forall f | f in a[c] ensures f in b[c] { assert Enabled(c, f) in Facts(a); }
      }
    }
  }

  lemma WithinBoth(a: Surface, b: Surface)
    requires Within(a, b) && Within(b, a)
    ensures a == b
  {
    assert a.Keys == b.Keys;
    forall c | c in a ensures a[c] == b[c] {}
  }

  ghost function Measure(w: Workspace, s: Surface): nat { |Facts(Top(w)) - Facts(s)| }

  lemma MeasureDrops(w: Workspace, roots: set<string>, a: Surface, b: Surface)
    requires Whole(w) && roots <= w.Keys && Within(a, b) && a != b && Least(w, roots, b)
    ensures Measure(w, b) < Measure(w, a)
  {
    TopClosed(w, roots);
    FactsWithin(a, b);
    FactsWithin(b, Top(w));
    FactsWithin(b, a);
    if Facts(b) <= Facts(a) { WithinBoth(a, b); }
    Shrinks(Facts(Top(w)), Facts(a), Facts(b));
  }

  // ---- resolution ------------------------------------------------------------------------------

  /** A surface on the way: below every closed one and not beyond the workspace. */
  ghost predicate Partial(w: Workspace, roots: set<string>, s: Surface)
    requires Whole(w) && roots <= w.Keys
  {
    s.Keys <= w.Keys && Least(w, roots, s)
  }

  lemma CloseKeepsLeast(w: Workspace, roots: set<string>, s: Surface, crate: string, closed: set<string>)
    requires Whole(w) && roots <= w.Keys && Partial(w, roots, s) && crate in s
    requires Needed(w[crate].features, s[crate], closed)
    ensures Partial(w, roots, s[crate := closed])
  {
    forall t | Closed(w, roots, t) ensures Within(s[crate := closed], t) {
      assert Within(s, t) && CrateMet(w, t, crate);
    }
  }

  lemma EdgeKeepsLeast(w: Workspace, roots: set<string>, s: Surface, crate: string, k: nat, now: set<string>)
    requires Whole(w) && roots <= w.Keys && Partial(w, roots, s) && crate in s && k < |w[crate].dependencies|
    requires var edge := w[crate].dependencies[k];
             && Activated(w[crate].features, s[crate], edge)
             && now <= (if edge.name in s then s[edge.name] else {}) + Wanted(w, crate, s[crate], edge)
    ensures Partial(w, roots, s[w[crate].dependencies[k].name := now])
  {
    var edge := w[crate].dependencies[k];
    forall t | Closed(w, roots, t) ensures Within(s[edge.name := now], t) {
      assert Within(s, t) && CrateMet(w, t, crate) && EdgeMet(w, t, crate, edge);
      WantedGrows(w, crate, s[crate], t[crate], edge);
    }
  }

  method VisitEdge(w: Workspace, ghost roots: set<string>, before: Surface, crate: string, k: nat)
    returns (enabled: Surface, changed: bool)
    requires Whole(w) && roots <= w.Keys && Partial(w, roots, before) && crate in before
    requires k < |w[crate].dependencies|
    ensures Partial(w, roots, enabled) && Within(before, enabled)
    ensures changed <==> enabled != before
    ensures !changed ==> EdgeMet(w, before, crate, w[crate].dependencies[k])
  {
    enabled, changed := before, false;
    var edge := w[crate].dependencies[k];
    if !Activated(w[crate].features, before[crate], edge) { return; }
    var wanted := Wanted(w, crate, before[crate], edge);
    if edge.name !in enabled {
      EdgeKeepsLeast(w, roots, before, crate, k, {});
      enabled := enabled[edge.name := {}];
      changed := true;
    }
    if !(wanted <= enabled[edge.name]) {
      EdgeKeepsLeast(w, roots, before, crate, k, enabled[edge.name] + wanted);
      enabled := before[edge.name := enabled[edge.name] + wanted];
      changed := true;
    }
  }

  method VisitCrate(w: Workspace, ghost roots: set<string>, before: Surface, crate: string)
    returns (enabled: Surface, changed: bool)
    requires Whole(w) && roots <= w.Keys && Partial(w, roots, before) && crate in before
    ensures Partial(w, roots, enabled) && Within(before, enabled)
    ensures changed <==> enabled != before
    ensures !changed ==> CrateMet(w, before, crate)
  {
    var closed := CloseFeatures(w[crate].features, before[crate]);
    CloseKeepsLeast(w, roots, before, crate, closed);
    enabled := before[crate := closed];
    changed := closed != before[crate];
    assert !changed ==> enabled == before;
    for k := 0 to |w[crate].dependencies|
      invariant Partial(w, roots, enabled) && Within(before, enabled)
      invariant changed <==> enabled != before
      invariant !changed ==> closed == before[crate]
      invariant !changed ==> forall j :: 0 <= j < k ==> EdgeMet(w, before, crate, w[crate].dependencies[j])
    {
      ghost var last := enabled;
      var more: bool;
      enabled, more := VisitEdge(w, roots, enabled, crate, k);
      if enabled == before { WithinBoth(last, enabled); }
      changed := changed || more;
    }
  }

  /** One pass over the crates reached so far, in any order. */
  method Pass(w: Workspace, ghost roots: set<string>, before: Surface) returns (enabled: Surface, changed: bool)
    requires Whole(w) && roots <= w.Keys && Partial(w, roots, before)
    ensures Partial(w, roots, enabled) && Within(before, enabled)
    ensures changed <==> enabled != before
    ensures !changed ==> forall c :: c in before ==> CrateMet(w, before, c)
  {
    enabled, changed := before, false;
    var todo := before.Keys;
    while todo != {}
      invariant todo <= before.Keys
      invariant Partial(w, roots, enabled) && Within(before, enabled)
      invariant changed <==> enabled != before
      invariant !changed ==> forall c :: c in before && c !in todo ==> CrateMet(w, before, c)
    {
      var crate :| crate in todo;
      todo := todo - {crate};
      ghost var last := enabled;
      var more: bool;
      enabled, more := VisitCrate(w, roots, enabled, crate);
      if enabled == before { WithinBoth(last, enabled); }
      changed := changed || more;
    }
  }

  /** The roots with their default features, closed. */
  method Seed(w: Workspace, roots: set<string>) returns (enabled: Surface)
    requires Whole(w) && roots <= w.Keys
    ensures Partial(w, roots, enabled) && RootsMet(w, roots, enabled)
  {
    enabled := map[];
    var todo := roots;
    while todo != {}
      invariant todo <= roots && enabled.Keys == roots - todo
      invariant Partial(w, roots, enabled)
      invariant forall r :: r in enabled ==> RootFeatures(w, r) <= enabled[r]
    {
      var root :| root in todo;
      todo := todo - {root};
      var closed := CloseFeatures(w[root].features, RootFeatures(w, root));
      forall t | Closed(w, roots, t) ensures Within(enabled[root := closed], t) {
        assert root in t && CrateMet(w, t, root);
      }
      enabled := enabled[root := closed];
    }
  }

  // ---- the rules the surface obeys -------------------------------------------------------------

  lemma {:induction false} SlashSplits(before: string, f: string)
    requires '/' !in before
    ensures AfterSlash(before + "/" + f) == f
  {
    var s := before + "/" + f;
    if before == "" { assert s[1..] == f; }
    else {
      assert s[0] == before[0] && s[1..] == before[1..] + "/" + f;
      SlashSplits(before[1..], f);
    }
  }

  lemma {:induction false} SplitAtSlash(s: string) returns (before: string)
    requires '/' in s
    ensures '/' !in before && s == before + "/" + AfterSlash(s)
  {
    if s[0] == '/' { before := ""; }
    else {
      var rest := SplitAtSlash(s[1..]);
      before := [s[0]] + rest;
    }
  }

  /** `name/feature` read off the text. */
  lemma AskedAs(table: map<string, seq<string>>, enabled: set<string>, name: string, f: string)
    ensures f in AskedOf(table, enabled, name)
       <==> exists g, a :: g in enabled && a in Activations(table, g) && Asks(a, name, f)
  {
    forall a | name + "/" <= a ensures Asks(a, name, AfterSlash(a)) {
      assert a[|name|] == '/';
      var before := SplitAtSlash(a);
    }
    forall a | Asks(a, name, f) ensures name + "/" <= a && AfterSlash(a) == f {
      var before :| '/' !in before && a == before + "/" + f;
      SlashSplits(before, f);
    }
  }

  /** A closed surface obeys the rules. */
  lemma FollowsClosed(w: Workspace, roots: set<string>, s: Surface, x: Fact)
    requires Whole(w) && roots <= w.Keys && Closed(w, roots, s) && Follows(w, roots, All(Facts(s)), x)
    ensures x in Facts(s)
  {
    match x
    case Reached(c) =>
      if c !in roots {
        var from, edge :| Compiled(w, All(Facts(s)), from, edge) && edge.name == c;
        CompiledClosed(w, roots, s, from, edge);
      }
    case Enabled(c, f) => FeatureClosed(w, roots, s, c, f);
  }

  lemma CompiledClosed(w: Workspace, roots: set<string>, s: Surface, from: string, edge: Edge)
    requires Whole(w) && roots <= w.Keys && Closed(w, roots, s) && Compiled(w, All(Facts(s)), from, edge)
    ensures from in s && Activated(w[from].features, s[from], edge)
    ensures edge.name in s && Wanted(w, from, s[from], edge) <= s[edge.name]
  {
    var known := All(Facts(s));
    assert from in s && CrateMet(w, s, from);
    if edge.optional && edge.name !in s[from] {
      var g, a :| Enabled(from, g) in known && Lists(w, from, g, a)
                  && (a == "dep:" + edge.name || a == edge.name || edge.name + "/" <= a);
      assert g in s[from] && a in Activations(w[from].features, g) && TurnsOn(a, edge.name);
    }
    var k :| 0 <= k < |w[from].dependencies| && w[from].dependencies[k] == edge;
    assert EdgeMet(w, s, from, w[from].dependencies[k]);
  }

  lemma RequestedClosed(w: Workspace, roots: set<string>, s: Surface, from: string, edge: Edge, f: string)
    requires Whole(w) && roots <= w.Keys && Closed(w, roots, s) && Compiled(w, All(Facts(s)), from, edge)
    requires Requested(w, All(Facts(s)), from, edge, f)
    ensures Enabled(edge.name, f) in Facts(s)
  {
    CompiledClosed(w, roots, s, from, edge);
    AskedAs(w[from].features, s[from], edge.name, f);
  }

  lemma FeatureClosed(w: Workspace, roots: set<string>, s: Surface, c: string, f: string)
    requires Whole(w) && roots <= w.Keys && Closed(w, roots, s)
    requires FeatureFollows(w, roots, All(Facts(s)), c, f)
    ensures Enabled(c, f) in Facts(s)
  {
    var known := All(Facts(s));
    if from, edge :| Compiled(w, known, from, edge) && edge.name == c && Requested(w, known, from, edge, f) {
      RequestedClosed(w, roots, s, from, edge, f);
    } else if g :| Enabled(c, g) in known && Lists(w, c, g, f) && !("dep:" <= f) && '/' !in f {
      assert CrateMet(w, s, c);
    }
  }

  lemma {:induction false} RoundClosed(w: Workspace, roots: set<string>, s: Surface, n: nat)
    requires Whole(w) && roots <= w.Keys && Closed(w, roots, s)
    ensures Round(w, roots, n) <= All(Facts(s))
  {
    if n > 0 {
      RoundClosed(w, roots, s, n - 1);
      forall x | x in Round(w, roots, n) ensures x in Facts(s) {
        FollowsGrows(w, roots, Round(w, roots, n - 1), All(Facts(s)), x);
        FollowsClosed(w, roots, s, x);
      }
    }
  }

  /** The surface of everything derived. */
  ghost function Deriving(w: Workspace, roots: set<string>): Surface {
    map c | c in w && Derived(w, roots, Reached(c)) ::
      set f | f in AllFeatures(w) && Derived(w, roots, Enabled(c, f))
  }

  lemma DerivedIn(w: Workspace, roots: set<string>, x: Fact)
    requires Whole(w) && roots <= w.Keys && Derived(w, roots, x)
    ensures x.crate in w && (x.Enabled? ==> x.feature in AllFeatures(w))
  {
    TopClosed(w, roots);
    var n: nat :| x in Round(w, roots, n);
    RoundClosed(w, roots, Top(w), n);
  }

  lemma DerivingRoots(w: Workspace, roots: set<string>)
    requires Whole(w) && roots <= w.Keys
    ensures RootsMet(w, roots, Deriving(w, roots))
  {
    forall r | r in roots ensures r in Deriving(w, roots) && RootFeatures(w, r) <= Deriving(w, roots)[r] {
      DerivedStep(w, roots, {}, Reached(r));
      if Declares(w, r, "default") { DerivedStep(w, roots, {}, Enabled(r, "default")); }
    }
  }

  lemma DerivingOwn(w: Workspace, roots: set<string>, c: string)
    requires Whole(w) && roots <= w.Keys && c in Deriving(w, roots)
    ensures FeaturesClosed(w[c].features, Deriving(w, roots)[c])
  {
    var s := Deriving(w, roots);
    forall g, f | g in s[c] && f in Activations(w[c].features, g) && Own(f) ensures f in s[c] {
      assert Lists(w, c, g, f);
      DerivedStep(w, roots, {Enabled(c, g)}, Enabled(c, f));
      DerivedIn(w, roots, Enabled(c, f));
    }
  }

  lemma DerivingEdge(w: Workspace, roots: set<string>, c: string, edge: Edge)
    requires Whole(w) && roots <= w.Keys && c in Deriving(w, roots) && edge in w[c].dependencies
    ensures edge.name in w && EdgeMet(w, Deriving(w, roots), c, edge)
  {
    var s := Deriving(w, roots);
    var k :| 0 <= k < |w[c].dependencies| && w[c].dependencies[k] == edge;
    if Activated(w[c].features, s[c], edge) {
      var known := DerivingActivated(w, roots, c, edge);
      DerivedStep(w, roots, known, Reached(edge.name));
      forall f | f in Wanted(w, c, s[c], edge) ensures f in s[edge.name] {
        DerivingWanted(w, roots, c, edge, known, f);
        DerivedIn(w, roots, Enabled(edge.name, f));
      }
    }
  }

  /** Facts that show a dependency compiled. */
  lemma DerivingActivated(w: Workspace, roots: set<string>, c: string, edge: Edge) returns (known: set<Fact>)
    requires Whole(w) && roots <= w.Keys && c in Deriving(w, roots) && edge in w[c].dependencies
    requires Activated(w[c].features, Deriving(w, roots)[c], edge)
    ensures forall x :: x in known ==> Derived(w, roots, x)
    ensures Compiled(w, All(known), c, edge)
  {
    var s := Deriving(w, roots);
    known := {Reached(c)};
    if !edge.optional {}
    else if edge.name in s[c] { known := known + {Enabled(c, edge.name)}; }
    else {
      var g :| g in s[c] && exists a :: a in Activations(w[c].features, g) && TurnsOn(a, edge.name);
      var a :| a in Activations(w[c].features, g) && TurnsOn(a, edge.name);
      known := known + {Enabled(c, g)};
      assert Enabled(c, g) in All(known) && Lists(w, c, g, a);
    }
  }

  lemma DerivingWanted(
    w: Workspace, roots: set<string>, c: string, edge: Edge, known: set<Fact>, f: string)
    requires Whole(w) && roots <= w.Keys && c in Deriving(w, roots) && edge in w[c].dependencies
    requires forall x :: x in known ==> Derived(w, roots, x)
    requires Compiled(w, All(known), c, edge) && edge.name in w
    requires f in Wanted(w, c, Deriving(w, roots)[c], edge)
    ensures Derived(w, roots, Enabled(edge.name, f))
  {
    var s, more := Deriving(w, roots), known;
    if f in AskedOf(w[c].features, s[c], edge.name) {
      AskedAs(w[c].features, s[c], edge.name, f);
      var g, a :| g in s[c] && a in Activations(w[c].features, g) && Asks(a, edge.name, f);
      more := known + {Enabled(c, g)};
      assert Enabled(c, g) in All(more) && Lists(w, c, g, a);
    }
    CompiledGrows(w, All(known), All(more), c, edge);
    assert Requested(w, All(more), c, edge, f);
    DerivedStep(w, roots, more, Enabled(edge.name, f));
  }

  lemma DerivingClosed(w: Workspace, roots: set<string>)
    requires Whole(w) && roots <= w.Keys
    ensures Closed(w, roots, Deriving(w, roots))
  {
    var s := Deriving(w, roots);
    DerivingRoots(w, roots);
    forall c | c in s ensures CrateMet(w, s, c) {
      DerivingOwn(w, roots, c);
      forall k | 0 <= k < |w[c].dependencies| ensures EdgeMet(w, s, c, w[c].dependencies[k]) {
        DerivingEdge(w, roots, c, w[c].dependencies[k]);
      }
    }
  }

  /** The least closed surface is what the rules derive: every crate and feature they put there, and
      no other. */
  lemma ResolvedDerived(w: Workspace, roots: set<string>, s: Surface)
    requires Whole(w) && roots <= w.Keys && Resolved(w, roots, s)
    ensures forall x :: x in Facts(s) <==> Derived(w, roots, x)
  {
    DerivingClosed(w, roots);
    forall x ensures x in Facts(s) <==> Derived(w, roots, x) {
      if Derived(w, roots, x) {
        var n: nat :| x in Round(w, roots, n);
        RoundClosed(w, roots, s, n);
      }
      if x in Facts(s) { FactsWithin(s, Deriving(w, roots)); }
    }
  }

  /** What one line of a manifest does: `dep:n` or `n` compiles dependency `n`, `n/f` also enables `f`. */
  lemma LineHonoured(
    w: Workspace, roots: set<string>, s: Surface, c: string, g: string, edge: Edge, text: string, f: string)
    requires Whole(w) && roots <= w.Keys && Resolved(w, roots, s)
    requires c in s && g in s[c] && Lists(w, c, g, text) && Depends(w, c, edge)
    ensures text == "dep:" + edge.name || text == edge.name ==> edge.name in s
    ensures '/' !in edge.name && text == edge.name + "/" + f ==> edge.name in s && f in s[edge.name]
  {
    var n, known := edge.name, All(Facts(s));
    assert Enabled(c, g) in known && Reached(c) in known;
    if text == "dep:" + n || text == n {
      assert Compiled(w, known, c, edge);
      CompiledClosed(w, roots, s, c, edge);
    }
    if '/' !in n && text == n + "/" + f {
      AsksPlainly(text, n, f);
      assert Compiled(w, known, c, edge) && Requested(w, known, c, edge, f);
      assert FeatureFollows(w, roots, known, n, f);
      FeatureClosed(w, roots, s, n, f);
    }
  }

  /** Resolution ends and returns the least closed surface, which is exactly what the rules derive,
      whatever order crates and features are taken in. */
  method Resolve(w: Workspace, roots: set<string>) returns (enabled: Surface)
    requires Whole(w) && roots <= w.Keys
    ensures Resolved(w, roots, enabled)
    ensures forall x :: x in Facts(enabled) <==> Derived(w, roots, x)
  {
    enabled := Seed(w, roots);
    var changed := true;
    while changed
      invariant Partial(w, roots, enabled) && RootsMet(w, roots, enabled)
      invariant !changed ==> forall c :: c in enabled ==> CrateMet(w, enabled, c)
      decreases Measure(w, enabled), changed
    {
      ghost var before := enabled;
      enabled, changed := Pass(w, roots, enabled);
      if changed { MeasureDrops(w, roots, before, enabled); }
    }
    ResolvedDerived(w, roots, enabled);
  }

  // ---- what follows from being least ------------------------------------------------------------

  lemma ResolvedUnique(w: Workspace, roots: set<string>, a: Surface, b: Surface)
    requires Whole(w) && roots <= w.Keys && Resolved(w, roots, a) && Resolved(w, roots, b)
    ensures a == b
  {
    WithinBoth(a, b);
  }

  /** Adding an application only widens the surface. */
  lemma MoreRootsWiden(w: Workspace, roots: set<string>, more: set<string>, a: Surface, b: Surface)
    requires Whole(w) && roots <= more <= w.Keys && Resolved(w, roots, a) && Resolved(w, more, b)
    ensures Within(a, b) && a.Keys <= b.Keys
  {
    assert RootsMet(w, more, b);
    assert RootsMet(w, roots, b);
    assert Closed(w, roots, b);
  }
}
