/** Reports of the gated-callers rule that are not true, and the hypothesis each of them breaks. */
module CfgReports {
  import opened Wrappers
  import opened CfgPredicates
  import opened CfgPlatforms
  import opened CfgGates
  import opened CfgRoutes
  import opened CfgCallers

  /** The gates the reader ends with once they have settled. */
  ghost predicate Final(w: Sources, gates: Gates) { Growing(w, gates) && Inherited(w, gates) }

  const UNIT: Option<Unit> := Some(("crate", "src"))

  function Gate(line: int, atom: string): Scope { Scope(line, line, Some(Atom(atom))) }

  lemma GateAtoms(scopes: seq<Scope>, line: int, k: nat, atom: string)
    requires k < |scopes| && scopes[k] == Gate(line, atom)
    requires forall j :: 0 <= j < |scopes| && j != k ==> !Covers(scopes[j], line)
    ensures EnclosingAtoms(scopes, line) == {atom}
  {
    assert Covers(scopes[k], line) && atom in ScopeAtoms(scopes[k]);
  }

  // ---- a file declared twice -------------------------------------------------------------------

  /** Two gated declarations of one `mod x;`, and an item under the first one's gate. */
  function TwiceDeclared(main: string, other: string, spare: string, a: string, b: string): Sources {
    map[main := File([Gate(0, a), Gate(1, b), Gate(2, a)],
                     [Item("x", 0, 0, 0, false, true, [other, spare]), Item("x", 1, 1, 1, false, true, [other, spare]),
                      Item("f", 2, 2, 2, false, false, [])], UNIT),
        other := File([], [], UNIT)]
  }

  lemma TwiceDeclaredAtoms(main: string, other: string, spare: string, a: string, b: string)
    requires main != other
    ensures var f := TwiceDeclared(main, other, spare, a, b)[main];
            ItemAtoms(f, f.items[0]) == {a} && ItemAtoms(f, f.items[1]) == {b} && ItemAtoms(f, f.items[2]) == {a}
  {
    var scopes := TwiceDeclared(main, other, spare, a, b)[main].scopes;
    GateAtoms(scopes, 0, 0, a);
    GateAtoms(scopes, 1, 1, b);
    GateAtoms(scopes, 2, 2, a);
  }

  lemma TwiceDeclaredGates(main: string, other: string, spare: string, a: string, b: string, gates: Gates)
    requires main != other && spare != main && spare != other && Final(TwiceDeclared(main, other, spare, a, b), gates)
    ensures gates[main] == {} && gates[other] == {a, b}
  {
    var w := TwiceDeclared(main, other, spare, a, b);
    var t: Gates := map[main := {}, other := {a, b}];
    TwiceDeclaredAtoms(main, other, spare, a, b);
    TwiceDeclaredInherited(main, other, spare, a, b, t);
    assert Under(gates, t);
    assert Handed(w, gates, gates, main, w[main].items[0]) && Handed(w, gates, gates, main, w[main].items[1]);
    assert other in [other, spare];
  }

  lemma TwiceDeclaredInherited(main: string, other: string, spare: string, a: string, b: string, t: Gates)
    requires main != other && spare != main && spare != other && t == map[main := {}, other := {a, b}]
    ensures Inherited(TwiceDeclared(main, other, spare, a, b), t)
  {
    var w := TwiceDeclared(main, other, spare, a, b);
    TwiceDeclaredAtoms(main, other, spare, a, b);
    forall q, k | q in w && 0 <= k < |w[q].items| ensures Handed(w, t, t, q, w[q].items[k]) {
      assert q == main && (k == 0 || k == 1 || k == 2);
    }
  }

  lemma TwiceDeclaredMissing(main: string, other: string, spare: string, a: string, b: string, gates: Gates)
    requires main != other && spare != main && spare != other && b !in Implications({a})
    requires Final(TwiceDeclared(main, other, spare, a, b), gates)
    ensures var w := TwiceDeclared(main, other, spare, a, b);
            IsMissing(w, gates, main, w[main].items[2], [Mention(other, 5)], b)
  {
    var w := TwiceDeclared(main, other, spare, a, b);
    TwiceDeclaredGates(main, other, spare, a, b, gates);
    TwiceDeclaredAtoms(main, other, spare, a, b);
    assert Mine(w, gates, main, w[main].items[2]) == {a};
    assert Mention(other, 5) in [Mention(other, 5)];
  }

  lemma TwiceDeclaredCompiles(main: string, other: string, spare: string, a: string, b: string)
    returns (build: Build, c: Config)
    requires main != other && spare != main && spare != other && a != b && forall x :: b != Negation(x)
    ensures Compiled(TwiceDeclared(main, other, spare, a, b), build, c, other, 5) && !Holds(b, c)
  {
    var w := TwiceDeclared(main, other, spare, a, b);
    build := Build({main}, {Pull(main, 0, other), Pull(main, 1, other)});
    c := iset{a};
    assert Reached(w, build, c, main, 0);
    assert Pull(main, 0, other) in build.pulls && LineMet(w[main], 0, c);
    assert Reached(w, build, c, other, 1);
  }

  lemma TwiceDeclaredPlain(main: string, other: string, spare: string, a: string, b: string)
    requires main != other && forall x :: a != Negation(x) && b != Negation(x)
    ensures var w := TwiceDeclared(main, other, spare, a, b);
            PlainSources(w) && Applies(w[main], w[main].items[2])
  {}

  /** The item's only use stands in the file declared twice, and the item is reported for lacking the
      second gate; a configuration without that gate compiles the use. */
  lemma TwiceDeclaredMisreports(main: string, other: string, spare: string, a: string, b: string, gates: Gates)
    returns (build: Build, c: Config)
    requires main != other && spare != main && spare != other && b !in Implications({a})
    requires forall x :: a != Negation(x) && b != Negation(x)
    requires Final(TwiceDeclared(main, other, spare, a, b), gates)
    ensures var w, use := TwiceDeclared(main, other, spare, a, b), Mention(other, 5);
            && PlainSources(w) && Applies(w[main], w[main].items[2])
            && IsMissing(w, gates, main, w[main].items[2], [use], b)
            && Compiled(w, build, c, use.path, use.line) && !Holds(b, c)
  {
    assert a in Implications({a});
    TwiceDeclaredPlain(main, other, spare, a, b);
    TwiceDeclaredMissing(main, other, spare, a, b, gates);
    build, c := TwiceDeclaredCompiles(main, other, spare, a, b);
  }

  // ---- an ungated `mod` inside a gated file ------------------------------------------------------

  /** A gated `mod` pulls in `mid`; `mid` pulls in `leaf` without a gate, so the reader does not see
      it; the item stands in `leaf` and its use in `mid`, both under the gate `b`. */
  function Nested(main: string, mid: string, leaf: string, a: string, b: string): Sources {
    map[main := File([Gate(0, a)], [Item("mid", 0, 0, 0, false, true, [mid])], UNIT),
        mid := File([Gate(5, b)], [], UNIT),
        leaf := File([Gate(0, b)], [Item("f", 0, 0, 0, false, false, [])], UNIT)]
  }

  function NestedBuild(main: string, mid: string, leaf: string): Build {
    Build({main}, {Pull(main, 0, mid), Pull(mid, 9, leaf)})
  }

  lemma NestedGates(main: string, mid: string, leaf: string, a: string, b: string, gates: Gates)
    requires main != mid && mid != leaf && main != leaf && Final(Nested(main, mid, leaf, a, b), gates)
    ensures gates[main] == {} && gates[mid] == {a} && gates[leaf] == {}
  {
    var w := Nested(main, mid, leaf, a, b);
    var t: Gates := map[main := {}, mid := {a}, leaf := {}];
    NestedInherited(main, mid, leaf, a, b, t);
    assert Under(gates, t);
    GateAtoms(w[main].scopes, 0, 0, a);
    assert Handed(w, gates, gates, main, w[main].items[0]);
    assert mid in [mid];
  }

  lemma NestedInherited(main: string, mid: string, leaf: string, a: string, b: string, t: Gates)
    requires main != mid && mid != leaf && main != leaf && t == map[main := {}, mid := {a}, leaf := {}]
    ensures Inherited(Nested(main, mid, leaf, a, b), t)
  {
    var w := Nested(main, mid, leaf, a, b);
    GateAtoms(w[main].scopes, 0, 0, a);
    forall q, k | q in w && 0 <= k < |w[q].items| ensures Handed(w, t, t, q, w[q].items[k]) {
      assert k == 0 && (q == main || q == leaf);
    }
  }

  lemma NestedLeafNeeds(main: string, mid: string, leaf: string, a: string, b: string, c: Config, n: nat)
    requires main != mid && mid != leaf && main != leaf
    requires Reached(Nested(main, mid, leaf, a, b), NestedBuild(main, mid, leaf), c, leaf, n)
    ensures a in c
  {
    var w, build := Nested(main, mid, leaf, a, b), NestedBuild(main, mid, leaf);
    assert n > 0;
    var pull :| pull in build.pulls && pull.to == leaf && pull.from in w
                && LineMet(w[pull.from], pull.line, c) && Reached(w, build, c, pull.from, n - 1);
    assert pull.from == mid && n > 1;
    var up :| up in build.pulls && up.to == mid && up.from in w
              && LineMet(w[up.from], up.line, c) && Reached(w, build, c, up.from, n - 2);
    assert up == Pull(main, 0, mid) && Covers(w[main].scopes[0], 0);
  }

  lemma NestedPlain(main: string, mid: string, leaf: string, a: string, b: string)
    requires main != mid && mid != leaf && main != leaf && forall x :: a != Negation(x) && b != Negation(x)
    ensures var w := Nested(main, mid, leaf, a, b);
            && PlainSources(w) && SoleDeclarations(w, NestedBuild(main, mid, leaf))
            && Applies(w[leaf], w[leaf].items[0])
  {}

  lemma NestedMissing(main: string, mid: string, leaf: string, a: string, b: string, gates: Gates)
    requires main != mid && mid != leaf && main != leaf && a !in Implications({b})
    requires Final(Nested(main, mid, leaf, a, b), gates)
    ensures var w := Nested(main, mid, leaf, a, b);
            IsMissing(w, gates, leaf, w[leaf].items[0], [Mention(mid, 5)], a)
  {
    var w := Nested(main, mid, leaf, a, b);
    NestedGates(main, mid, leaf, a, b, gates);
    GateAtoms(w[leaf].scopes, 0, 0, b);
    GateAtoms(w[mid].scopes, 5, 0, b);
    assert Mine(w, gates, leaf, w[leaf].items[0]) == {b};
    assert Mention(mid, 5) in [Mention(mid, 5)];
  }

  /** The item is reported for lacking the gate of the file around it, though it is never compiled
      without that gate; every file is declared once. */
  lemma NestedModMisreports(main: string, mid: string, leaf: string, a: string, b: string, gates: Gates)
    requires main != mid && mid != leaf && main != leaf && a !in Implications({b})
    requires forall x :: a != Negation(x) && b != Negation(x)
    requires Final(Nested(main, mid, leaf, a, b), gates)
    ensures var w, build, use := Nested(main, mid, leaf, a, b), NestedBuild(main, mid, leaf), Mention(mid, 5);
            && PlainSources(w) && SoleDeclarations(w, build) && Applies(w[leaf], w[leaf].items[0])
            && IsMissing(w, gates, leaf, w[leaf].items[0], [use], a)
            && forall c :: Compiled(w, build, c, leaf, 0) ==> Holds(a, c)
  {
    NestedPlain(main, mid, leaf, a, b);
    NestedMissing(main, mid, leaf, a, b, gates);
    NestedNeeds(main, mid, leaf, a, b);
  }

  lemma NestedNeeds(main: string, mid: string, leaf: string, a: string, b: string)
    requires main != mid && mid != leaf && main != leaf && forall x :: a != Negation(x)
    ensures forall c :: Compiled(Nested(main, mid, leaf, a, b), NestedBuild(main, mid, leaf), c, leaf, 0) ==> Holds(a, c)
  {
    var w, build := Nested(main, mid, leaf, a, b), NestedBuild(main, mid, leaf);
    forall c | Compiled(w, build, c, leaf, 0) ensures Holds(a, c) {
      var n: nat :| Reached(w, build, c, leaf, n);
      NestedLeafNeeds(main, mid, leaf, a, b, c, n);
    }
  }

  // ---- a choice of platforms -------------------------------------------------------------------

  /** An item under the predicate `n`, used under `atom`. */
  function Choice(main: string, n: Node, atom: string): Sources {
    map[main := File([Scope(0, 0, Some(n)), Gate(5, atom)], [Item("f", 0, 0, 0, false, false, [])], UNIT)]
  }

  lemma ChoiceAtoms(main: string, n: Node, atom: string)
    ensures EnclosingAtoms(Choice(main, n, atom)[main].scopes, 0) == Required(n)
    ensures EnclosingAtoms(Choice(main, n, atom)[main].scopes, 5) == {atom}
  {
    var scopes := Choice(main, n, atom)[main].scopes;
    assert Covers(scopes[0], 0) && ScopeAtoms(scopes[0]) == Required(n);
    GateAtoms(scopes, 5, 1, atom);
  }

  lemma ChoiceReported(main: string, n: Node, atom: string, gates: Gates)
    requires Final(Choice(main, n, atom), gates)
    ensures var w := Choice(main, n, atom);
            IsMissing(w, gates, main, w[main].items[0], [Mention(main, 5)], atom) <==> atom !in Implications(Required(n))
  {
    var w := Choice(main, n, atom);
    var t: Gates := map[main := {}];
    forall q, k | q in w && 0 <= k < |w[q].items| ensures Handed(w, t, t, q, w[q].items[k]) {}
    assert Under(gates, t);
    ChoiceAtoms(main, n, atom);
    assert Mine(w, gates, main, w[main].items[0]) == Required(n);
    assert Mention(main, 5) in [Mention(main, 5)];
  }

  /** The item has the atom on every platform that compiles it, whatever the build. */
  ghost predicate NeverWithout(main: string, n: Node, atom: string) {
    forall b, c :: Platform(c) && Compiled(Choice(main, n, atom), b, c, main, 0) ==> Holds(atom, c)
  }

  lemma ChoiceMet(main: string, n: Node, atom: string, c: Config)
    ensures LineMet(Choice(main, n, atom)[main], 0, c) <==> Satisfies(n, c)
  {
    var scopes := Choice(main, n, atom)[main].scopes;
    assert Covers(scopes[0], 0) && !Covers(scopes[1], 0);
  }

  lemma ChoiceCompiles(main: string, n: Node, atom: string, c: Config)
    requires Satisfies(n, c)
    ensures Compiled(Choice(main, n, atom), Build({main}, {}), c, main, 0)
  {
    ChoiceMet(main, n, atom, c);
    assert Reached(Choice(main, n, atom), Build({main}, {}), c, main, 0);
  }

  lemma ChoiceForced(main: string, n: Node, atom: string)
    requires Plain(n) && Positive(n)
    ensures NeverWithout(main, n, atom) <==> atom in Forced(n)
  {
    ForcedExact(n, atom);
    if atom in Forced(n) {
      forall b, c | Platform(c) && Compiled(Choice(main, n, atom), b, c, main, 0) ensures Holds(atom, c) {
        ChoiceMet(main, n, atom, c);
      }
    } else {
      var c: Config :| Platform(c) && Satisfies(n, c) && !Holds(atom, c);
      ChoiceCompiles(main, n, atom, c);
    }
  }

  /** For any predicate without `not`: the item is reported for lacking an atom that every platform
      compiling it has, if and only if the atom is forced and the analysis does not see it. */
  lemma ChoiceMisreports(main: string, n: Node, atom: string, gates: Gates)
    requires Plain(n) && Positive(n) && Final(Choice(main, n, atom), gates)
    ensures var w := Choice(main, n, atom);
            IsMissing(w, gates, main, w[main].items[0], [Mention(main, 5)], atom) && NeverWithout(main, n, atom)
            <==> atom in Forced(n) - Implications(Required(n))
  {
    ChoiceReported(main, n, atom, gates);
    ChoiceForced(main, n, atom);
  }

  const LINUX_OR_MACOS := Any([Atom(TargetOs("linux")), Atom(TargetOs("macos"))])

  lemma EitherIsPlain()
    ensures Plain(LINUX_OR_MACOS) && Positive(LINUX_OR_MACOS)
  {
    forall b, k | 0 <= k < 2 ensures LINUX_OR_MACOS.children[k].text != Negation(b) {
      assert LINUX_OR_MACOS.children[k].text[0] == 't' && Negation(b)[0] == 'n';
    }
  }

  lemma EitherRequiresNothing()
    ensures Required(LINUX_OR_MACOS) == {}
  {
    var either := LINUX_OR_MACOS;
    assert Required(either.children[0]) == {TargetOs("linux")} && Required(either.children[1]) == {TargetOs("macos")};
    assert TargetOs("linux")[13] == 'l' && TargetOs("macos")[13] == 'm';
  }

  /** Such an atom is `unix` under a choice between two Unix systems. */
  lemma UnixUnseen()
    ensures Plain(LINUX_OR_MACOS) && Positive(LINUX_OR_MACOS)
    ensures UNIX in Forced(LINUX_OR_MACOS) - Implications(Required(LINUX_OR_MACOS))
  {
    EitherIsPlain();
    EitherRequiresNothing();
    assert "linux" in UNIX_LIKE && "macos" in UNIX_LIKE;
    assert UNIX in Entailed(TargetOs("linux")) && UNIX in Entailed(TargetOs("macos"));
    assert UNIX in Forced(LINUX_OR_MACOS.children[0]) && UNIX in Forced(LINUX_OR_MACOS.children[1]);
  }
}
