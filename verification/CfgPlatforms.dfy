/** What a platform entails, and what a predicate requires of every platform. */
module CfgPlatforms {
  import opened CfgPredicates

  const UNIX_LIKE: set<string> := {
    "linux", "macos", "ios", "tvos", "watchos", "visionos", "android", "freebsd", "netbsd", "openbsd",
    "dragonfly", "solaris", "illumos", "haiku", "redox", "fuchsia", "hurd", "aix", "nto", "emscripten"}

  const UNIX := "unix"
  const WINDOWS := "windows"
  const FAMILY_UNIX := "target_family = \"unix\""
  const FAMILY_WINDOWS := "target_family = \"windows\""
  const FAMILY_WASM := "target_family = \"wasm\""
  const ARCH_WASM := "target_arch = \"wasm32\""

  function TargetOs(os: string): string { "target_os = \"" + os + "\"" }

  predicate NamesUnix(atom: string) {
    atom == UNIX || atom == FAMILY_UNIX || exists os :: os in UNIX_LIKE && atom == TargetOs(os)
  }

  predicate NamesWindows(atom: string) {
    atom == WINDOWS || atom == FAMILY_WINDOWS || atom == TargetOs("windows")
  }

  function Entailed(atom: string): set<string> {
    (if NamesUnix(atom) then {UNIX, FAMILY_UNIX} else {})
    + (if NamesWindows(atom) then {WINDOWS, FAMILY_WINDOWS} else {})
    + (if atom == ARCH_WASM then {FAMILY_WASM} else {})
  }

  function Implications(atoms: set<string>): set<string> {
    atoms + set a, x | a in atoms && x in Entailed(a) :: x
  }

  method Implied(atoms: set<string>) returns (found: set<string>)
    ensures found == Implications(atoms)
  {
    found := atoms;
    var todo := atoms;
    while todo != {}
      invariant todo <= atoms && found == atoms + set a, x | a in atoms - todo && x in Entailed(a) :: x
    {
      var atom :| atom in todo;
      ghost var done := atoms - todo;
      todo := todo - {atom};
      assert atoms - todo == done + {atom};
      found := found + Entailed(atom);
    }
    assert atoms - todo == atoms;
  }

  /** The axioms of a platform. */
  ghost predicate Platform(c: Config) {
    && (forall os :: os in UNIX_LIKE && TargetOs(os) in c ==> UNIX in c)
    && (TargetOs("windows") in c ==> WINDOWS in c)
    && (UNIX in c <==> FAMILY_UNIX in c) && (WINDOWS in c <==> FAMILY_WINDOWS in c)
    && (ARCH_WASM in c ==> FAMILY_WASM in c)
  }

  lemma HoldsPlainly(text: string, c: Config)
    requires text != "" && text[0] != 'n'
    ensures Holds(text, c) <==> text in c
  {
    forall a ensures text != Negation(a) { assert Negation(a)[0] == 'n'; }
  }

  /** An atom that entails anything does not read as a negated one. */
  lemma EntailingIsPlain(atom: string)
    requires Entailed(atom) != {}
    ensures atom != "" && atom[0] != 'n'
  {
    if os :| os in UNIX_LIKE && atom == TargetOs(os) { assert atom[0] == 't'; }
    else if atom == TargetOs("windows") { assert atom[0] == 't'; }
  }

  lemma UnixHolds(atom: string, c: Config)
    requires Platform(c) && NamesUnix(atom) && atom in c
    ensures UNIX in c && FAMILY_UNIX in c
  {}

  lemma WindowsHolds(atom: string, c: Config)
    requires Platform(c) && NamesWindows(atom) && atom in c
    ensures WINDOWS in c && FAMILY_WINDOWS in c
  {}

  lemma EntailedHolds(atom: string, c: Config)
    requires Platform(c) && atom in c
    ensures forall x :: x in Entailed(atom) ==> x in c
  {
    if NamesUnix(atom) { UnixHolds(atom, c); }
    if NamesWindows(atom) { WindowsHolds(atom, c); }
  }

  lemma EntailedSound(atom: string, c: Config)
    requires Platform(c) && Holds(atom, c)
    ensures forall x :: x in Entailed(atom) ==> Holds(x, c)
  {
    if Entailed(atom) != {} {
      EntailingIsPlain(atom);
      HoldsPlainly(atom, c);
      EntailedHolds(atom, c);
      EntailedNames(atom);
      forall x | x in Entailed(atom) ensures Holds(x, c) { HoldsPlainly(x, c); }
    }
  }

  // ---- a platform without a given atom -----------------------------------------------------------

  predicate Spared(text: string, b: string) { b != text && text !in Entailed(b) }

  /** The atoms that do not entail the text. */
  ghost function Sparing(text: string): Config { iset b: string | Spared(text, b) }

  lemma EntailedNames(b: string)
    ensures forall x :: x in Entailed(b) ==> x in {UNIX, FAMILY_UNIX, WINDOWS, FAMILY_WINDOWS, FAMILY_WASM}
  {}

  lemma SparingFails(text: string)
    ensures !Holds(text, Sparing(text))
  {
    if a :| text == Negation(a) {
      EntailedNames(a);
      assert text[0] == 'n' && |text| == |a| + 5;
      assert Spared(text, a);
      assert a in Sparing(text);
    } else {
      assert !Spared(text, text);
    }
  }

  lemma UnixEntails()
    ensures Entailed(UNIX) <= {UNIX, FAMILY_UNIX} && Entailed(FAMILY_UNIX) <= {UNIX, FAMILY_UNIX}
  {
    assert |UNIX| == 4 && |FAMILY_UNIX| == 22 && |WINDOWS| == 7 && |FAMILY_WINDOWS| == 25;
    assert |TargetOs("windows")| == 21 && |ARCH_WASM| == 22;
    assert FAMILY_UNIX[7] == 'f' && ARCH_WASM[7] == 'a';
  }

  lemma WindowsEntails()
    ensures Entailed(WINDOWS) <= {WINDOWS, FAMILY_WINDOWS} && Entailed(FAMILY_WINDOWS) <= {WINDOWS, FAMILY_WINDOWS}
  {
    forall os ensures TargetOs(os) != WINDOWS && TargetOs(os) != FAMILY_WINDOWS {
      assert TargetOs(os)[7] == 'o' && FAMILY_WINDOWS[7] == 'f';
    }
    assert |UNIX| == 4 && |FAMILY_UNIX| == 22 && |WINDOWS| == 7 && |FAMILY_WINDOWS| == 25 && |ARCH_WASM| == 22;
  }

  lemma WasmEntails()
    ensures Entailed(FAMILY_WASM) == {}
  {
    forall os ensures TargetOs(os) != FAMILY_WASM {
      assert TargetOs(os)[7] == 'o' && FAMILY_WASM[7] == 'f';
    }
    assert |UNIX| == 4 && |WINDOWS| == 7 && |FAMILY_WINDOWS| == 25 && |FAMILY_WASM| == 22;
    assert FAMILY_WASM[17] == 'w' && FAMILY_UNIX[17] == 'u' && ARCH_WASM[7] == 'a' && FAMILY_WASM[7] == 'f';
  }

  /** What an atom entails, entails nothing more. */
  lemma EntailedClosed(atom: string, x: string)
    requires x in Entailed(atom)
    ensures Entailed(x) <= Entailed(atom)
  {
    UnixEntails();
    WindowsEntails();
    WasmEntails();
  }

  lemma SparedEntailed(text: string, atom: string, x: string)
    requires Spared(text, atom) && x in Entailed(atom)
    ensures Spared(text, x)
  {
    EntailedClosed(atom, x);
  }

  ghost predicate EntailmentsHold(c: Config) { forall a, x :: a in c && x in Entailed(a) ==> x in c }

  lemma EntailmentsPlatform(c: Config)
    requires EntailmentsHold(c)
    ensures Platform(c)
  {
    forall os | os in UNIX_LIKE && TargetOs(os) in c ensures UNIX in c { assert UNIX in Entailed(TargetOs(os)); }
    assert WINDOWS in Entailed(TargetOs("windows"));
    assert UNIX in Entailed(FAMILY_UNIX) && FAMILY_UNIX in Entailed(UNIX);
    assert WINDOWS in Entailed(FAMILY_WINDOWS) && FAMILY_WINDOWS in Entailed(WINDOWS);
    assert FAMILY_WASM in Entailed(ARCH_WASM);
  }

  lemma SparingIsPlatform(text: string)
    ensures Platform(Sparing(text))
  {
    var c := Sparing(text);
    forall a, x | a in c && x in Entailed(a) ensures x in c { SparedEntailed(text, a, x); }
    EntailmentsPlatform(c);
  }

  // ---- what every platform has -------------------------------------------------------------------

  /** Built from atoms without `not` and without an empty `any`. */
  predicate Positive(n: Node) {
    match n
    case Atom(_) => true
    case All(ns) => forall k :: 0 <= k < |ns| ==> Positive(ns[k])
    case Any(ns) => ns != [] && forall k :: 0 <= k < |ns| ==> Positive(ns[k])
    case Not(_) => false
  }

  /** Like `Required`, but what an atom entails is added before branches are intersected. */
  function Forced(n: Node): set<string> {
    match n
    case Atom(a) => Implications({a})
    case All(ns) => set k, a | 0 <= k < |ns| && a in Forced(ns[k]) :: a
    case Any(ns) => if ns == [] then {} else set a | a in Forced(ns[0]) && forall k :: 0 <= k < |ns| ==> a in Forced(ns[k])
    case Not(_) => {}
  }

  lemma {:induction false} ForcedSound(n: Node, c: Config)
    requires Plain(n) && Satisfies(n, c) && Platform(c)
    ensures forall a :: a in Forced(n) ==> Holds(a, c)
  {
    match n
    case Atom(a) => EntailedSound(a, c);
    case All(ns) => forall k | 0 <= k < |ns| ensures forall a :: a in Forced(ns[k]) ==> Holds(a, c) { ForcedSound(ns[k], c); }
    case Any(ns) =>
      var k :| 0 <= k < |ns| && Satisfies(ns[k], c);
      ForcedSound(ns[k], c);
    case Not(_) =>
  }

  lemma {:induction false} UnforcedAvoidable(n: Node, text: string)
    requires Positive(n) && text !in Forced(n)
    ensures Satisfies(n, Sparing(text))
  {
    match n
    case Atom(a) => assert Spared(text, a);
    case All(ns) => forall k | 0 <= k < |ns| ensures Satisfies(ns[k], Sparing(text)) {
      assert text !in Forced(ns[k]);
      UnforcedAvoidable(ns[k], text);
    }
    case Any(ns) =>
      var k :| 0 <= k < |ns| && text !in Forced(ns[k]);
      UnforcedAvoidable(ns[k], text);
  }

  /** Without `not`: an atom holds on every platform that satisfies the predicate if and only if it is
      forced. */
  lemma ForcedExact(n: Node, text: string)
    requires Plain(n) && Positive(n)
    ensures text in Forced(n) <==> forall c: Config :: Platform(c) && Satisfies(n, c) ==> Holds(text, c)
  {
    if text in Forced(n) {
      forall c: Config | Platform(c) && Satisfies(n, c) ensures Holds(text, c) { ForcedSound(n, c); }
    } else {
      UnforcedAvoidable(n, text);
      SparingFails(text);
      SparingIsPlatform(text);
    }
  }

  /** What the analysis sees is forced. */
  lemma {:induction false} ImpliedForced(n: Node)
    requires Positive(n)
    ensures Implications(Required(n)) <= Forced(n)
  {
    match n
    case Atom(_) =>
    case All(ns) => forall x | x in Implications(Required(n)) ensures x in Forced(n) {
      var a :| a in Required(n) && (x == a || x in Entailed(a));
      var k :| 0 <= k < |ns| && a in Required(ns[k]);
      ImpliedForced(ns[k]);
      assert x in Implications(Required(ns[k]));
    }
    case Any(ns) => forall x | x in Implications(Required(n)) ensures x in Forced(n) {
      var a :| a in Required(n) && (x == a || x in Entailed(a));
      forall k | 0 <= k < |ns| ensures x in Forced(ns[k]) { ImpliedForced(ns[k]); }
    }
  }

  /** What it cannot see: exactly the forced atoms it does not list are held by every platform that
      satisfies the predicate although the predicate is taken not to entail them. */
  lemma UnseenExactly(n: Node, text: string)
    requires Plain(n) && Positive(n)
    ensures text in Forced(n) - Implications(Required(n))
       <==> text !in Implications(Required(n)) && forall c: Config :: Platform(c) && Satisfies(n, c) ==> Holds(text, c)
  {
    ForcedExact(n, text);
  }

  predicate Conjunction(n: Node) {
    match n
    case Atom(_) => true
    case All(ns) => forall k :: 0 <= k < |ns| ==> Conjunction(ns[k])
    case Any(_) => false
    case Not(_) => false
  }

  /** Of a conjunction nothing is unseen. */
  lemma {:induction false} ConjunctionSeen(n: Node)
    requires Conjunction(n)
    ensures Positive(n) && Forced(n) == Implications(Required(n))
  {
    match n
    case Atom(_) =>
    case All(ns) =>
      forall k | 0 <= k < |ns| ensures Positive(ns[k]) && Forced(ns[k]) == Implications(Required(ns[k])) { ConjunctionSeen(ns[k]); }
      assert Forced(n) <= Implications(Required(n));
      ImpliedForced(n);
  }
}
