/** The rule that a `cfg`-gated item must not outlive its callers, and what its reports mean. */
module CfgCallers {
  import opened Wrappers
  import opened KeyOrder
  import opened CfgPredicates
  import opened CfgPlatforms
  import opened CfgGates
  import opened CfgRoutes

  // ---- the rule --------------------------------------------------------------------------------

  /** What an item's own gates require. */
  function Mine(w: Sources, gates: Gates, path: string, item: Item): set<string>
    requires path in w && path in gates
  {
    ItemAtoms(w[path], item) + gates[path]
  }

  predicate Outside(path: string, item: Item, m: Mention) {
    !(m.path == path && item.start <= m.line <= item.end)
  }

  function UseAtoms(w: Sources, gates: Gates, m: Mention): set<string>
    requires m.path in w && m.path in gates
  {
    EnclosingAtoms(w[m.path].scopes, m.line) + gates[m.path]
  }

  predicate Indexed(w: Sources, ms: seq<Mention>) { forall m :: m in ms ==> m.path in w }

  /** Every use outside the item's own declaration also requires the atom. */
  predicate AllRequire(w: Sources, gates: Gates, path: string, item: Item, ms: seq<Mention>, atom: string)
    requires gates.Keys == w.Keys && Indexed(w, ms)
  {
    forall m :: m in ms && Outside(path, item, m) ==> atom in UseAtoms(w, gates, m)
  }

  /** What every use requires and the item does not entail. */
  ghost predicate IsMissing(
    w: Sources, gates: Gates, path: string, item: Item, ms: seq<Mention>, atom: string)
    requires gates.Keys == w.Keys && path in w && Indexed(w, ms)
  {
    && (exists m :: m in ms && Outside(path, item, m))
    && AllRequire(w, gates, path, item, ms, atom)
    && atom !in Implications(Mine(w, gates, path, item))
  }

  method Shared(w: Sources, gates: Gates, path: string, item: Item, ms: seq<Mention>)
    returns (used: bool, shared: set<string>)
    requires gates.Keys == w.Keys && Indexed(w, ms)
    ensures used <==> exists m :: m in ms && Outside(path, item, m)
    ensures used ==> forall a :: a in shared <==> AllRequire(w, gates, path, item, ms, a)
  {
    used, shared := false, {};
    for n := 0 to |ms|
      invariant Indexed(w, ms[..n])
      invariant used <==> exists m :: m in ms[..n] && Outside(path, item, m)
      invariant used ==> forall a :: a in shared <==> AllRequire(w, gates, path, item, ms[..n], a)
    {
      var m := ms[n];
      assert m in ms && ms[..n + 1] == ms[..n] + [m];
      if Outside(path, item, m) {
        var here := Enclosing(w[m.path].scopes, m.line);
        var atoms := here + gates[m.path];
        shared := if used then shared * atoms else atoms;
        used := true;
      }
    }
    assert ms[..|ms|] == ms;
  }

  method MissingOf(w: Sources, gates: Gates, path: string, item: Item, ms: seq<Mention>)
    returns (missing: set<string>)
    requires gates.Keys == w.Keys && path in w && Indexed(w, ms)
    ensures forall a :: a in missing <==> IsMissing(w, gates, path, item, ms, a)
  {
    var used, shared := Shared(w, gates, path, item, ms);
    if !used { return {}; }
    var own := Enclosing(w[path].scopes, item.line);
    var implied := Implied(own + gates[path]);
    missing := shared - implied;
  }

  // ---- what a report means ---------------------------------------------------------------------

  /** The atom holds in every configuration that compiles any use of the item. */
  ghost predicate UsesNeed(w: Sources, path: string, item: Item, ms: seq<Mention>, atom: string) {
    forall b, c, m ::
      SoleDeclarations(w, b) && m in ms && Outside(path, item, m) && Compiled(w, b, c, m.path, m.line)
      ==> Holds(atom, c)
  }

  /** No use compiles where a reported atom is false. */
  lemma ReportedAtomsNeeded(w: Sources, gates: Gates, path: string, item: Item, ms: seq<Mention>, atom: string)
    requires PlainSources(w) && Growing(w, gates) && path in w && Indexed(w, ms)
    requires IsMissing(w, gates, path, item, ms, atom)
    ensures UsesNeed(w, path, item, ms, atom)
  {
    forall b, c, m | SoleDeclarations(w, b) && m in ms && Outside(path, item, m)
                     && Compiled(w, b, c, m.path, m.line)
      ensures Holds(atom, c)
    {
      EnclosingSound(w, m.path, m.line, c);
      var n: nat :| Reached(w, b, c, m.path, n);
      assert atom in UseAtoms(w, gates, m);
    }
  }

  /** Everything held back as implied does hold wherever the item compiles. */
  lemma ImpliedAtomsHold(w: Sources, gates: Gates, b: Build, c: Config, path: string, item: Item)
    requires PlainSources(w) && Growing(w, gates) && SoleDeclarations(w, b) && Platform(c)
    requires Compiled(w, b, c, path, item.line)
    ensures forall a :: a in Implications(Mine(w, gates, path, item)) ==> Holds(a, c)
  {
    EnclosingSound(w, path, item.line, c);
    var n: nat :| Reached(w, b, c, path, n);
    forall a | a in Mine(w, gates, path, item)
      ensures Holds(a, c) && forall x :: x in Entailed(a) ==> Holds(x, c)
    {
      EntailedSound(a, c);
    }
  }

  // ---- exactly when a report is true -----------------------------------------------------------------

  /** In this build the item is compiled somewhere without the atom, and none of its uses is. */
  ghost predicate TrueReport(
    w: Sources, b: Build, shape: Shape, path: string, item: Item, ms: seq<Mention>, atom: string)
  {
    && Avoidable(w, b, shape, path, item.line, atom)
    && forall m :: m in ms && Outside(path, item, m) ==> !Avoidable(w, b, shape, m.path, m.line, atom)
  }

  /** The same, read off the declarations: there is a way to the item free of the atom, and to none of
      its uses. */
  ghost predicate OnlyItemExposed(
    w: Sources, b: Build, shape: Shape, path: string, item: Item, ms: seq<Mention>, atom: string)
  {
    && Exposed(w, b, shape, path, item.line, atom)
    && forall m :: m in ms && Outside(path, item, m) ==> !Exposed(w, b, shape, m.path, m.line, atom)
  }

  ghost predicate TrueExactlyWhenExposed(w: Sources, path: string, item: Item, ms: seq<Mention>, atom: string) {
    forall b, shape :: SourcesFit(w, shape) ==>
      (TrueReport(w, b, shape, path, item, ms, atom) <==> OnlyItemExposed(w, b, shape, path, item, ms, atom))
  }

  /** Whatever the gates say, and however often files are declared. */
  lemma ReportTrueExactly(w: Sources, path: string, item: Item, ms: seq<Mention>, atom: string)
    requires PlainSources(w)
    ensures TrueExactlyWhenExposed(w, path, item, ms, atom)
  {
    forall b, shape | SourcesFit(w, shape)
      ensures TrueReport(w, b, shape, path, item, ms, atom) <==> OnlyItemExposed(w, b, shape, path, item, ms, atom)
    {
      AvoidableExactly(w, b, shape, path, item.line, atom);
      forall m | m in ms
        ensures Avoidable(w, b, shape, m.path, m.line, atom) <==> Exposed(w, b, shape, m.path, m.line, atom)
      {
        AvoidableExactly(w, b, shape, m.path, m.line, atom);
      }
    }
  }

  // ---- where the gates suffice -----------------------------------------------------------------------

  /** Every predicate around the line was read, has the shape, and needs nothing the analysis does not
      see; on any configuration that is nothing, on a platform what `UnseenExactly` says. */
  ghost predicate LineSeen(f: File, line: int, shape: Shape) {
    forall k :: 0 <= k < |f.scopes| && Covers(f.scopes[k], line) ==>
      && f.scopes[k].node.Some? && Fits(f.scopes[k].node.value, shape)
      && Needed(f.scopes[k].node.value, shape) <= Implications(Required(f.scopes[k].node.value))
  }

  lemma ImplicationsGrow(a: set<string>, b: set<string>)
    requires a <= b
    ensures Implications(a) <= Implications(b)
  {}

  lemma SeenLineFree(f: File, line: int, shape: Shape, atoms: set<string>, atom: string)
    requires LineSeen(f, line, shape) && EnclosingAtoms(f.scopes, line) <= atoms && atom !in Implications(atoms)
    ensures LineFree(f, line, shape, atom)
  {
    forall k | 0 <= k < |f.scopes| && Covers(f.scopes[k], line) ensures atom !in Needed(f.scopes[k].node.value, shape) {
      assert ScopeAtoms(f.scopes[k]) == Required(f.scopes[k].node.value);
      ImplicationsGrow(Required(f.scopes[k].node.value), atoms);
    }
  }

  /** The gates around a declaration have reached the file it pulls in. */
  ghost predicate Passed(w: Sources, gates: Gates, pull: Pull) {
    && pull.from in w && pull.from in gates && pull.to in gates
    && EnclosingAtoms(w[pull.from].scopes, pull.line) + gates[pull.from] <= gates[pull.to]
  }

  /** Once the gates are settled they have, for every declaration the reader sees. */
  lemma SeenDeclarationsPassed(w: Sources, gates: Gates, pull: Pull, k: nat)
    requires gates.Keys == w.Keys && Inherited(w, gates) && pull.from in w && pull.to in w
    requires k < |w[pull.from].items| && Declares(w[pull.from].items[k], pull.to)
    requires w[pull.from].items[k].line == pull.line
    ensures Passed(w, gates, pull)
  {
    assert Handed(w, gates, gates, pull.from, w[pull.from].items[k]);
  }

  /** The declarations that were handed down and are seen through. */
  ghost function SeenPulls(w: Sources, b: Build, gates: Gates, shape: Shape): set<Pull> {
    set p | p in b.pulls && Passed(w, gates, p) && LineSeen(w[p.from], p.line, shape)
  }

  ghost function Within(pulls: set<Pull>, gates: Gates, atoms: set<string>): set<Pull> {
    set p | p in pulls && p.to in gates && gates[p.to] <= atoms
  }

  /** Whoever leads to a file, through declarations that were handed down, inherits no more than it. */
  lemma {:induction false} ChainWithin(
    w: Sources, roots: set<string>, pulls: set<Pull>, gates: Gates, path: string, n: nat, atoms: set<string>)
    requires (forall p :: p in pulls ==> Passed(w, gates, p)) && Chain(roots, pulls, path, n)
    requires path in gates && gates[path] <= atoms
    ensures Chain(roots, Within(pulls, gates, atoms), path, n)
    decreases n
  {
    if n > 0 {
      var pull :| pull in pulls && pull.to == path && Chain(roots, pulls, pull.from, n - 1);
      ChainWithin(w, roots, pulls, gates, pull.from, n - 1, atoms);
    }
  }

  /** The file is reached through `n` declarations, each handed down and seen through. */
  ghost predicate Route(w: Sources, b: Build, gates: Gates, shape: Shape, path: string, n: nat) {
    Chain(b.roots, SeenPulls(w, b, gates, shape), path, n)
  }

  lemma RouteFree(w: Sources, b: Build, gates: Gates, shape: Shape, path: string, n: nat, atom: string)
    requires Route(w, b, gates, shape, path, n) && path in gates && atom !in Implications(gates[path])
    ensures FreeRoute(w, b, shape, path, n, atom)
  {
    var seen := SeenPulls(w, b, gates, shape);
    var within := Within(seen, gates, gates[path]);
    ChainWithin(w, b.roots, seen, gates, path, n, gates[path]);
    forall p | p in within ensures p in FreePulls(w, b, shape, atom) {
      SeenLineFree(w[p.from], p.line, shape, gates[path], atom);
    }
    ChainMore(b.roots, within, FreePulls(w, b, shape, atom), path, n);
  }

  /** The item is compiled where the atom is false, on a platform or in any configuration, wherever the
      declarations that lead to it were handed down and nothing around them goes unseen. */
  ghost predicate Outlives(w: Sources, gates: Gates, path: string, item: Item, atom: string) {
    forall b, shape, n: nat ::
      Route(w, b, gates, shape, path, n) && path in w && LineSeen(w[path], item.line, shape) ==>
        Avoidable(w, b, shape, path, item.line, atom)
  }

  /** A reported item does outlive its callers. */
  lemma ReportedItemsOutlive(w: Sources, gates: Gates, path: string, item: Item, atom: string)
    requires path in w && path in gates && atom !in Implications(Mine(w, gates, path, item))
    ensures Outlives(w, gates, path, item, atom)
  {
    ImplicationsGrow(gates[path], Mine(w, gates, path, item));
    forall b, shape, n: nat | Route(w, b, gates, shape, path, n) && LineSeen(w[path], item.line, shape)
      ensures Avoidable(w, b, shape, path, item.line, atom)
    {
      RouteFree(w, b, gates, shape, path, n, atom);
      SeenLineFree(w[path], item.line, shape, Mine(w, gates, path, item), atom);
      ExposedAvoidable(w, b, shape, path, item.line, atom);
    }
  }

  // ---- the check ---------------------------------------------------------------------------------

  datatype Finding = Finding(path: string, item: Item, missing: set<string>)

  /** The rule applies: the file is in a unit, the item is not exported from a library, and its
      gates were understood. */
  predicate Applies(f: File, item: Item) {
    f.unit.Some? && !(item.exported && f.unit.value.1 == "src") && Readable(f, item.line)
  }

  function MentionsOf(mentions: Mentions, f: File, item: Item): seq<Mention> {
    if f.unit.Some? && f.unit.value in mentions && item.name in mentions[f.unit.value]
    then mentions[f.unit.value][item.name] else []
  }

  ghost predicate AllIndexed(w: Sources, mentions: Mentions) {
    forall path, k :: path in w && 0 <= k < |w[path].items| ==>
      Indexed(w, MentionsOf(mentions, w[path], w[path].items[k]))
  }

  /** A finding is about an item the rule applies to and names exactly the missing atoms; none of the
      item's uses compiles where one of them is false, and the item itself does. */
  ghost predicate Justified(w: Sources, mentions: Mentions, gates: Gates, f: Finding)
    requires gates.Keys == w.Keys && AllIndexed(w, mentions)
  {
    && f.path in w && f.item in w[f.path].items && Applies(w[f.path], f.item) && f.missing != {}
    && var ms := MentionsOf(mentions, w[f.path], f.item);
       && Indexed(w, ms)
       && (forall a :: a in f.missing <==> IsMissing(w, gates, f.path, f.item, ms, a))
       && (forall a :: a in f.missing ==>
             && UsesNeed(w, f.path, f.item, ms, a) && Outlives(w, gates, f.path, f.item, a)
             && TrueExactlyWhenExposed(w, f.path, f.item, ms, a))
  }

  /** The item is reported if anything is missing. */
  ghost predicate Covered(
    w: Sources, mentions: Mentions, gates: Gates, path: string, item: Item, findings: seq<Finding>)
    requires gates.Keys == w.Keys && path in w && Indexed(w, MentionsOf(mentions, w[path], item))
  {
    var ms := MentionsOf(mentions, w[path], item);
    Applies(w[path], item) && (exists a :: IsMissing(w, gates, path, item, ms, a)) ==>
      exists f :: f in findings && f.path == path && f.item == item
  }

  method CheckItem(w: Sources, mentions: Mentions, gates: Gates, path: string, k: nat)
    returns (findings: seq<Finding>)
    requires PlainSources(w) && Growing(w, gates) && AllIndexed(w, mentions) && path in w && k < |w[path].items|
    ensures forall f :: f in findings ==> Justified(w, mentions, gates, f)
    ensures Covered(w, mentions, gates, path, w[path].items[k], findings)
  {
    var item := w[path].items[k];
    if !Applies(w[path], item) { return []; }
    var ms := MentionsOf(mentions, w[path], item);
    var missing := MissingOf(w, gates, path, item, ms);
    if missing == {} { return []; }
    forall a | a in missing
      ensures UsesNeed(w, path, item, ms, a) && Outlives(w, gates, path, item, a)
      ensures TrueExactlyWhenExposed(w, path, item, ms, a)
    {
      ReportTrueExactly(w, path, item, ms, a);
      ReportedAtomsNeeded(w, gates, path, item, ms, a);
      ReportedItemsOutlive(w, gates, path, item, a);
    }
    return [Finding(path, item, missing)];
  }

  ghost predicate AllJustified(w: Sources, mentions: Mentions, gates: Gates, findings: seq<Finding>)
    requires gates.Keys == w.Keys && AllIndexed(w, mentions)
  {
    forall f :: f in findings ==> Justified(w, mentions, gates, f)
  }

  ghost predicate FileCovered(w: Sources, mentions: Mentions, gates: Gates, path: string, findings: seq<Finding>)
    requires gates.Keys == w.Keys && AllIndexed(w, mentions) && path in w
  {
    forall k :: 0 <= k < |w[path].items| ==> Covered(w, mentions, gates, path, w[path].items[k], findings)
  }

  method CheckFile(w: Sources, mentions: Mentions, gates: Gates, path: string) returns (findings: seq<Finding>)
    requires PlainSources(w) && Growing(w, gates) && AllIndexed(w, mentions) && path in w
    ensures AllJustified(w, mentions, gates, findings) && FileCovered(w, mentions, gates, path, findings)
  {
    findings := [];
    for k := 0 to |w[path].items|
      invariant AllJustified(w, mentions, gates, findings)
      invariant forall j :: 0 <= j < k ==> Covered(w, mentions, gates, path, w[path].items[j], findings)
    {
      findings := CheckNextItem(w, mentions, gates, path, k, findings);
    }
  }

  method CheckNextItem(w: Sources, mentions: Mentions, gates: Gates, path: string, k: nat, before: seq<Finding>)
    returns (findings: seq<Finding>)
    requires PlainSources(w) && Growing(w, gates) && AllIndexed(w, mentions) && path in w && k < |w[path].items|
    requires AllJustified(w, mentions, gates, before)
    requires forall j :: 0 <= j < k ==> Covered(w, mentions, gates, path, w[path].items[j], before)
    ensures AllJustified(w, mentions, gates, findings)
    ensures forall j :: 0 <= j <= k ==> Covered(w, mentions, gates, path, w[path].items[j], findings)
  {
    var found := CheckItem(w, mentions, gates, path, k);
    findings := before + found;
    JustifiedBoth(w, mentions, gates, before, found);
    forall j | 0 <= j <= k ensures Covered(w, mentions, gates, path, w[path].items[j], findings) {
      StillCovered(w, mentions, gates, path, w[path].items[j], before, found);
    }
  }

  lemma StillCovered(
    w: Sources, mentions: Mentions, gates: Gates, path: string, item: Item, a: seq<Finding>, b: seq<Finding>)
    requires gates.Keys == w.Keys && path in w && Indexed(w, MentionsOf(mentions, w[path], item))
    requires Covered(w, mentions, gates, path, item, a) || Covered(w, mentions, gates, path, item, b)
    ensures Covered(w, mentions, gates, path, item, a + b)
  {
    assert forall f :: f in a || f in b ==> f in a + b;
  }

  lemma FileStillCovered(
    w: Sources, mentions: Mentions, gates: Gates, path: string, a: seq<Finding>, b: seq<Finding>)
    requires gates.Keys == w.Keys && AllIndexed(w, mentions) && path in w
    requires FileCovered(w, mentions, gates, path, a) || FileCovered(w, mentions, gates, path, b)
    ensures FileCovered(w, mentions, gates, path, a + b)
  {
    forall k | 0 <= k < |w[path].items| ensures Covered(w, mentions, gates, path, w[path].items[k], a + b) {
      StillCovered(w, mentions, gates, path, w[path].items[k], a, b);
    }
  }

  lemma JustifiedBoth(w: Sources, mentions: Mentions, gates: Gates, a: seq<Finding>, b: seq<Finding>)
    requires gates.Keys == w.Keys && AllIndexed(w, mentions)
    requires AllJustified(w, mentions, gates, a) && AllJustified(w, mentions, gates, b)
    ensures AllJustified(w, mentions, gates, a + b)
  {}

  /** The files `paths[..n]` are dealt with. */
  ghost predicate Swept(w: Sources, mentions: Mentions, gates: Gates, paths: seq<string>, n: nat, findings: seq<Finding>)
    requires gates.Keys == w.Keys && AllIndexed(w, mentions) && n <= |paths|
    requires forall j :: 0 <= j < |paths| ==> paths[j] in w
  {
    && AllJustified(w, mentions, gates, findings)
    && forall j :: 0 <= j < n ==> FileCovered(w, mentions, gates, paths[j], findings)
  }

  method CheckNext(w: Sources, mentions: Mentions, gates: Gates, paths: seq<string>, n: nat, before: seq<Finding>)
    returns (findings: seq<Finding>)
    requires PlainSources(w) && Growing(w, gates) && AllIndexed(w, mentions) && n < |paths|
    requires forall j :: 0 <= j < |paths| ==> paths[j] in w
    requires Swept(w, mentions, gates, paths, n, before)
    ensures Swept(w, mentions, gates, paths, n + 1, findings)
  {
    var found := CheckFile(w, mentions, gates, paths[n]);
    findings := before + found;
    JustifiedBoth(w, mentions, gates, before, found);
    forall j | 0 <= j <= n ensures FileCovered(w, mentions, gates, paths[j], findings) {
      FileStillCovered(w, mentions, gates, paths[j], before, found);
    }
  }

  method CheckFiles(w: Sources, mentions: Mentions, gates: Gates, paths: seq<string>)
    returns (findings: seq<Finding>)
    requires PlainSources(w) && Growing(w, gates) && AllIndexed(w, mentions)
    requires forall j :: 0 <= j < |paths| ==> paths[j] in w
    ensures Swept(w, mentions, gates, paths, |paths|, findings)
  {
    findings := [];
    for n := 0 to |paths|
      invariant Swept(w, mentions, gates, paths, n, findings)
    {
      findings := CheckNext(w, mentions, gates, paths, n, findings);
    }
  }

  // ---- the rule, said of the workspace -----------------------------------------------------------

  /** Other crates can name the item: it is `pub` in a library. */
  ghost predicate NamedAbroad(f: File, item: Item) {
    item.exported && exists crate: string :: f.unit == Some((crate, "src"))
  }

  /** Every predicate around the line was understood. */
  ghost predicate Understood(f: File, line: int) {
    forall s :: s in f.scopes && s.start <= line <= s.end ==> s.node.Some?
  }

  /** The rule is about this item. */
  ghost predicate Subject(w: Sources, path: string, item: Item) {
    && path in w && item in w[path].items && w[path].unit.Some?
    && !NamedAbroad(w[path], item) && Understood(w[path], item.line)
  }

  /** A line of the item's own unit that names it, outside its declaration. */
  ghost predicate Use(w: Sources, mentions: Mentions, path: string, item: Item, m: Mention) {
    && path in w && w[path].unit.Some?
    && var unit := w[path].unit.value;
       && unit in mentions && item.name in mentions[unit] && m in mentions[unit][item.name]
       && (m.path != path || m.line < item.start || item.end < m.line)
  }

  /** The atom is one the file inherits, or one that a predicate around the line requires. */
  ghost predicate LineNeeds(f: File, inherited: set<string>, line: int, atom: string) {
    || atom in inherited
    || exists s :: s in f.scopes && s.start <= line <= s.end && s.node.Some? && atom in Required(s.node.value)
  }

  /** One of those atoms is it or entails it. */
  ghost predicate Entails(f: File, inherited: set<string>, line: int, atom: string) {
    exists a :: LineNeeds(f, inherited, line, a) && (a == atom || atom in Entailed(a))
  }

  /** The item is used, every use requires the atom, and the item does not entail it. */
  ghost predicate Lacks(w: Sources, mentions: Mentions, gates: Gates, path: string, item: Item, atom: string)
    requires gates.Keys == w.Keys && path in w
  {
    && (exists m :: Use(w, mentions, path, item, m))
    && (forall m :: Use(w, mentions, path, item, m) ==>
          m.path in w && LineNeeds(w[m.path], gates[m.path], m.line, atom))
    && !Entails(w[path], gates[path], item.line, atom)
  }

  /** The findings are about exactly the items that lack something, and say what. */
  ghost predicate Complete(w: Sources, mentions: Mentions, gates: Gates, findings: seq<Finding>)
    requires gates.Keys == w.Keys
  {
    && (forall f :: f in findings ==>
          && Subject(w, f.path, f.item) && f.missing != {}
          && forall a :: a in f.missing <==> Lacks(w, mentions, gates, f.path, f.item, a))
    && (forall path, item, a :: Subject(w, path, item) && Lacks(w, mentions, gates, path, item, a) ==>
          Found(findings, path, item))
  }

  ghost predicate Found(findings: seq<Finding>, path: string, item: Item) {
    exists f :: f in findings && f.path == path && f.item == item
  }

  /** A gated `mod x;` in file `q` that may mean file `p`. */
  predicate Names(w: Sources, q: string, item: Item, p: string) {
    q in w && item in w[q].items && item.external && p in item.targets && p in w
  }

  /** What a file inherits: exactly the atoms that some declaration naming it needs where it stands. */
  ghost predicate Bequeathed(w: Sources, gates: Gates)
    requires gates.Keys == w.Keys
  {
    forall p, a :: p in w ==>
      (a in gates[p] <==> exists q, item :: Names(w, q, item, p) && LineNeeds(w[q], gates[q], item.line, a))
  }

  /** The part of the gates that some declaration accounts for. */
  ghost function Accounted(w: Sources, gates: Gates): Gates
    requires gates.Keys == w.Keys
  {
    map p | p in w :: set a | a in gates[p] &&
      exists q, item :: Names(w, q, item, p) && LineNeeds(w[q], gates[q], item.line, a)
  }

  lemma NeedsMore(f: File, less: set<string>, more: set<string>, line: int, a: string)
    requires less <= more && LineNeeds(f, less, line, a)
    ensures LineNeeds(f, more, line, a)
  {}

  lemma NamedHanded(w: Sources, gates: Gates, q: string, item: Item, p: string, a: string)
    requires gates.Keys == w.Keys && Inherited(w, gates) && Names(w, q, item, p)
    requires LineNeeds(w[q], gates[q], item.line, a)
    ensures a in gates[p]
  {
    var k :| 0 <= k < |w[q].items| && w[q].items[k] == item;
    assert Handed(w, gates, gates, q, w[q].items[k]);
    LineNeedsExact(w[q], gates[q], item.line);
  }

  lemma AccountedInherited(w: Sources, gates: Gates)
    requires gates.Keys == w.Keys && Inherited(w, gates)
    ensures Inherited(w, Accounted(w, gates))
  {
    var t := Accounted(w, gates);
    forall q, k, p | q in w && 0 <= k < |w[q].items| && Declares(w[q].items[k], p) && p in w
      ensures t[q] + ItemAtoms(w[q], w[q].items[k]) <= t[p]
    {
      var item := w[q].items[k];
      forall a | a in t[q] + ItemAtoms(w[q], item) ensures a in t[p] {
        LineNeedsExact(w[q], t[q], item.line);
        NeedsMore(w[q], t[q], gates[q], item.line, a);
        NamedHanded(w, gates, q, item, p, a);
        assert Names(w, q, item, p);
      }
    }
  }

  /** Settled gates are exactly that. */
  lemma SettledBequeathed(w: Sources, gates: Gates)
    requires Growing(w, gates) && Inherited(w, gates)
    ensures Bequeathed(w, gates)
  {
    AccountedInherited(w, gates);
    assert Under(gates, Accounted(w, gates));
    forall p, a | p in w
      ensures a in gates[p] <==> exists q, item :: Names(w, q, item, p) && LineNeeds(w[q], gates[q], item.line, a)
    {
      if q, item :| Names(w, q, item, p) && LineNeeds(w[q], gates[q], item.line, a) {
        NamedHanded(w, gates, q, item, p, a);
      }
    }
  }

  lemma SubjectExact(w: Sources, path: string, item: Item)
    requires path in w && item in w[path].items
    ensures Applies(w[path], item) <==> Subject(w, path, item)
  {
    var f := w[path];
    if f.unit.Some? && f.unit.value.1 == "src" { assert f.unit == Some((f.unit.value.0, "src")); }
  }

  lemma LineNeedsExact(f: File, inherited: set<string>, line: int)
    ensures forall a :: a in EnclosingAtoms(f.scopes, line) + inherited <==> LineNeeds(f, inherited, line, a)
    ensures forall a :: a in Implications(EnclosingAtoms(f.scopes, line) + inherited)
                   <==> Entails(f, inherited, line, a)
  {
    forall a ensures a in EnclosingAtoms(f.scopes, line) + inherited <==> LineNeeds(f, inherited, line, a) {
      if s :| s in f.scopes && s.start <= line <= s.end && s.node.Some? && a in Required(s.node.value) {
        var k :| 0 <= k < |f.scopes| && f.scopes[k] == s;
        assert Covers(f.scopes[k], line) && a in ScopeAtoms(f.scopes[k]);
      }
    }
  }

  lemma LacksExact(w: Sources, mentions: Mentions, gates: Gates, path: string, item: Item, atom: string)
    requires gates.Keys == w.Keys && path in w && Indexed(w, MentionsOf(mentions, w[path], item))
    ensures IsMissing(w, gates, path, item, MentionsOf(mentions, w[path], item), atom)
       <==> Lacks(w, mentions, gates, path, item, atom)
  {
    var ms := MentionsOf(mentions, w[path], item);
    assert forall m :: m in ms && Outside(path, item, m) <==> Use(w, mentions, path, item, m);
    LineNeedsExact(w[path], gates[path], item.line);
    forall m | m in ms
      ensures atom in UseAtoms(w, gates, m) <==> LineNeeds(w[m.path], gates[m.path], m.line, atom)
    {
      LineNeedsExact(w[m.path], gates[m.path], m.line);
    }
  }

  lemma CoveredCompletely(w: Sources, mentions: Mentions, gates: Gates, findings: seq<Finding>)
    requires gates.Keys == w.Keys && AllIndexed(w, mentions) && AllJustified(w, mentions, gates, findings)
    requires forall path :: path in w ==> FileCovered(w, mentions, gates, path, findings)
    ensures Complete(w, mentions, gates, findings)
  {
    forall f | f in findings
      ensures Subject(w, f.path, f.item) && f.missing != {}
      ensures forall a :: a in f.missing <==> Lacks(w, mentions, gates, f.path, f.item, a)
    {
      assert Justified(w, mentions, gates, f);
      SubjectExact(w, f.path, f.item);
      forall a ensures a in f.missing <==> Lacks(w, mentions, gates, f.path, f.item, a) {
        LacksExact(w, mentions, gates, f.path, f.item, a);
      }
    }
    forall path, item, a | Subject(w, path, item) && Lacks(w, mentions, gates, path, item, a)
      ensures Found(findings, path, item)
    {
      var k :| 0 <= k < |w[path].items| && w[path].items[k] == item;
      SubjectExact(w, path, item);
      LacksExact(w, mentions, gates, path, item, a);
      assert Covered(w, mentions, gates, path, w[path].items[k], findings);
    }
  }

  /** Under a test, bench or example root `pub` excuses nothing. */
  lemma ExportedTestsCovered(
    w: Sources, mentions: Mentions, gates: Gates, findings: seq<Finding>, path: string, item: Item, atom: string)
    requires gates.Keys == w.Keys && Complete(w, mentions, gates, findings)
    requires path in w && item in w[path].items && w[path].unit.Some?
    requires w[path].unit.value.1 in {"tests", "benches", "examples"} && Understood(w[path], item.line)
    requires Lacks(w, mentions, gates, path, item, atom)
    ensures Found(findings, path, item)
  {
    assert Subject(w, path, item);
  }

  /** The findings are about exactly the items that lack something and say what, and each is justified,
      by gates that hold
      everything along chains of up to eight gated declarations, are the least inheriting assignment
      once settled, and settle whenever no chain is longer than seven. */
  method Check(w: Sources, mentions: Mentions) returns (findings: seq<Finding>, gates: Gates, settled: bool)
    requires ReadSources(w) && AllIndexed(w, mentions)
    ensures Growing(w, gates) && Holding(w, gates, PASSES)
    ensures settled ==> Inherited(w, gates) && Bequeathed(w, gates)
    ensures Shallow(w) ==> settled
    ensures AllJustified(w, mentions, gates, findings)
    ensures Complete(w, mentions, gates, findings)
  {
    ReadSourcesPlain(w);
    gates, settled := FileGates(w);
    var paths := SortedKeys(w.Keys);
    assert forall j :: 0 <= j < |paths| ==> paths[j] in paths;
    findings := CheckFiles(w, mentions, gates, paths);
    forall path | path in w ensures FileCovered(w, mentions, gates, path, findings) {
      assert path in paths;
    }
    CoveredCompletely(w, mentions, gates, findings);
    if settled { SettledBequeathed(w, gates); }
  }
}
