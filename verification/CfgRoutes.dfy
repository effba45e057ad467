/** Exactly when a line is compiled in a configuration without a given atom: when a chain of `mod`
    declarations leads to its file on which no line requires the atom. */
module CfgRoutes {
  import opened CfgPredicates
  import opened CfgPlatforms
  import opened CfgGates

  /** The predicates a workspace is written in, and the configurations asked about: each atom kept to
      one polarity and any configuration, or no `not` at all and the platforms. */
  datatype Shape = OnePolarity(neg: set<string>) | OnPlatform

  predicate Fits(n: Node, shape: Shape) {
    match shape
    case OnePolarity(neg) => Tame(n, neg)
    case OnPlatform => Positive(n)
  }

  ghost predicate Admits(shape: Shape, c: Config) { shape.OnPlatform? ==> Platform(c) }

  function Needed(n: Node, shape: Shape): set<string> {
    match shape
    case OnePolarity(_) => Required(n)
    case OnPlatform => Forced(n)
  }

  /** A configuration in which the text is false and everything that does not need it is as the
      shape has it. */
  ghost function Escape(shape: Shape, text: string): Config {
    match shape
    case OnePolarity(neg) => Dodging(neg, text)
    case OnPlatform => Sparing(text)
  }

  lemma EscapeAdmitted(shape: Shape, text: string)
    ensures Admits(shape, Escape(shape, text)) && !Holds(text, Escape(shape, text))
  {
    match shape
    case OnePolarity(neg) => DodgingFails(neg, text);
    case OnPlatform =>
      SparingFails(text);
      SparingIsPlatform(text);
  }

  lemma NeededSound(n: Node, shape: Shape, c: Config)
    requires Plain(n) && Satisfies(n, c) && Admits(shape, c)
    ensures forall a :: a in Needed(n, shape) ==> Holds(a, c)
  {
    match shape
    case OnePolarity(_) => RequiredSound(n, c);
    case OnPlatform => ForcedSound(n, c);
  }

  lemma NeededEscapes(n: Node, shape: Shape, text: string)
    requires Fits(n, shape) && text !in Needed(n, shape)
    ensures Satisfies(n, Escape(shape, text))
  {
    match shape
    case OnePolarity(neg) => UnrequiredAvoidable(n, neg, text);
    case OnPlatform => UnforcedAvoidable(n, text);
  }

  /** Every predicate around the line that could be read has the shape and does not need the atom. */
  ghost predicate LineFree(f: File, line: int, shape: Shape, atom: string) {
    forall k :: 0 <= k < |f.scopes| && Covers(f.scopes[k], line) && f.scopes[k].node.Some? ==>
      Fits(f.scopes[k].node.value, shape) && atom !in Needed(f.scopes[k].node.value, shape)
  }

  // ---- routes ----------------------------------------------------------------------------------------

  /** A chain of `n` of the declarations leads from a root to the file. */
  ghost predicate Chain(roots: set<string>, pulls: set<Pull>, path: string, n: nat)
    decreases n
  {
    if n == 0 then path in roots
    else exists pull :: pull in pulls && pull.to == path && Chain(roots, pulls, pull.from, n - 1)
  }

  lemma {:induction false} ChainMore(roots: set<string>, a: set<Pull>, b: set<Pull>, path: string, n: nat)
    requires a <= b && Chain(roots, a, path, n)
    ensures Chain(roots, b, path, n)
    decreases n
  {
    if n > 0 {
      var pull :| pull in a && pull.to == path && Chain(roots, a, pull.from, n - 1);
      ChainMore(roots, a, b, pull.from, n - 1);
    }
  }

  ghost function MetPulls(w: Sources, b: Build, c: Config): set<Pull> {
    set p | p in b.pulls && p.from in w && LineMet(w[p.from], p.line, c)
  }

  lemma {:induction false} ReachedIsChain(w: Sources, b: Build, c: Config, path: string, n: nat)
    ensures Reached(w, b, c, path, n) <==> Chain(b.roots, MetPulls(w, b, c), path, n)
    decreases n
  {
    if n > 0 {
      forall p | p in MetPulls(w, b, c)
        ensures Reached(w, b, c, p.from, n - 1) <==> Chain(b.roots, MetPulls(w, b, c), p.from, n - 1)
      {
        ReachedIsChain(w, b, c, p.from, n - 1);
      }
    }
  }

  ghost function FreePulls(w: Sources, b: Build, shape: Shape, atom: string): set<Pull> {
    set p | p in b.pulls && p.from in w && LineFree(w[p.from], p.line, shape, atom)
  }

  /** The file is reached through `n` declarations, all of whose lines are free of the atom. */
  ghost predicate FreeRoute(w: Sources, b: Build, shape: Shape, path: string, n: nat, atom: string) {
    Chain(b.roots, FreePulls(w, b, shape, atom), path, n)
  }

  /** The line and some route to its file are free of the atom. */
  ghost predicate Exposed(w: Sources, b: Build, shape: Shape, path: string, line: int, atom: string) {
    path in w && LineFree(w[path], line, shape, atom) && exists n: nat :: FreeRoute(w, b, shape, path, n, atom)
  }

  /** Some admitted configuration compiles the line although the atom is false in it. */
  ghost predicate Avoidable(w: Sources, b: Build, shape: Shape, path: string, line: int, atom: string) {
    exists c :: Admits(shape, c) && Compiled(w, b, c, path, line) && !Holds(atom, c)
  }

  lemma FreeLineEscapes(f: File, line: int, shape: Shape, atom: string)
    requires LineFree(f, line, shape, atom)
    ensures LineMet(f, line, Escape(shape, atom))
  {
    forall k | 0 <= k < |f.scopes| && Covers(f.scopes[k], line) && f.scopes[k].node.Some?
      ensures Satisfies(f.scopes[k].node.value, Escape(shape, atom))
    {
      NeededEscapes(f.scopes[k].node.value, shape, atom);
    }
  }

  lemma FreeRouteEscapes(w: Sources, b: Build, shape: Shape, path: string, n: nat, atom: string)
    requires FreeRoute(w, b, shape, path, n, atom)
    ensures Reached(w, b, Escape(shape, atom), path, n)
  {
    var c := Escape(shape, atom);
    forall p | p in FreePulls(w, b, shape, atom) ensures p in MetPulls(w, b, c) {
      FreeLineEscapes(w[p.from], p.line, shape, atom);
    }
    ChainMore(b.roots, FreePulls(w, b, shape, atom), MetPulls(w, b, c), path, n);
    ReachedIsChain(w, b, c, path, n);
  }

  /** A free route is compiled without the atom, whatever the rest of the workspace looks like. */
  lemma ExposedAvoidable(w: Sources, b: Build, shape: Shape, path: string, line: int, atom: string)
    requires Exposed(w, b, shape, path, line, atom)
    ensures Avoidable(w, b, shape, path, line, atom)
  {
    var n: nat :| FreeRoute(w, b, shape, path, n, atom);
    FreeRouteEscapes(w, b, shape, path, n, atom);
    FreeLineEscapes(w[path], line, shape, atom);
    EscapeAdmitted(shape, atom);
    assert Compiled(w, b, Escape(shape, atom), path, line);
  }

  /** Every predicate of the workspace that could be read has the shape. */
  ghost predicate SourcesFit(w: Sources, shape: Shape) {
    forall q, k :: q in w && 0 <= k < |w[q].scopes| && w[q].scopes[k].node.Some? ==> Fits(w[q].scopes[k].node.value, shape)
  }

  lemma MetLineFree(w: Sources, path: string, line: int, shape: Shape, c: Config, atom: string)
    requires PlainSources(w) && SourcesFit(w, shape) && path in w
    requires LineMet(w[path], line, c) && Admits(shape, c) && !Holds(atom, c)
    ensures LineFree(w[path], line, shape, atom)
  {
    var scopes := w[path].scopes;
    forall k | 0 <= k < |scopes| && Covers(scopes[k], line) && scopes[k].node.Some?
      ensures atom !in Needed(scopes[k].node.value, shape)
    {
      NeededSound(scopes[k].node.value, shape, c);
    }
  }

  lemma ReachedFree(w: Sources, b: Build, shape: Shape, path: string, n: nat, c: Config, atom: string)
    requires PlainSources(w) && SourcesFit(w, shape) && Reached(w, b, c, path, n)
    requires Admits(shape, c) && !Holds(atom, c)
    ensures FreeRoute(w, b, shape, path, n, atom)
  {
    forall p | p in MetPulls(w, b, c) ensures p in FreePulls(w, b, shape, atom) {
      MetLineFree(w, p.from, p.line, shape, c, atom);
    }
    ReachedIsChain(w, b, c, path, n);
    ChainMore(b.roots, MetPulls(w, b, c), FreePulls(w, b, shape, atom), path, n);
  }

  /** Whatever is gated, however files are declared: a line is compiled somewhere without the atom if
      and only if it and some route to its file are free of it. */
  lemma AvoidableExactly(w: Sources, b: Build, shape: Shape, path: string, line: int, atom: string)
    requires PlainSources(w) && SourcesFit(w, shape)
    ensures Avoidable(w, b, shape, path, line, atom) <==> Exposed(w, b, shape, path, line, atom)
  {
    if Exposed(w, b, shape, path, line, atom) { ExposedAvoidable(w, b, shape, path, line, atom); }
    if Avoidable(w, b, shape, path, line, atom) {
      var c :| Admits(shape, c) && Compiled(w, b, c, path, line) && !Holds(atom, c);
      var n: nat :| Reached(w, b, c, path, n);
      ReachedFree(w, b, shape, path, n, c, atom);
      MetLineFree(w, path, line, shape, c, atom);
    }
  }
}
