/** The chase from a public type to the sample buffer its `Debug` would render, over any type
    graph, cycles included. */
module CarrierChain {
  const CARRIER_HOPS: nat := 6

  datatype Site = Site(path: string, offset: nat)

  /** One declaration: a type name at a place. */
  datatype Decl = Decl(site: Site, name: string)

  /** What the readers of one crate report: where each name is declared, which declarations hold a
      sample buffer, which decide their own rendering, and the names a rendering follows. */
  datatype Index = Index(
    declarations: map<string, seq<Site>>, buffers: set<Decl>, redactions: set<Decl>,
    follows: map<Decl, seq<string>>)

  type Key = (string, string)

  /** What the chase remembers a declaration by. */
  function KeyOf(d: Decl): Key { (d.site.path, d.name) }

  function Beside(sites: seq<Site>, path: string): seq<Site> {
    if sites == [] then []
    else (if sites[0].path == path then [sites[0]] else []) + Beside(sites[1..], path)
  }

  /** Where a name written in `path` is declared: in that file if anywhere there, else everywhere. */
  function Resolve(c: Index, path: string, name: string): seq<Site> {
    var sites := if name in c.declarations then c.declarations[name] else [];
    var beside := Beside(sites, path);
    if beside != [] then beside else sites
  }

  function Followed(c: Index, d: Decl): seq<string> { if d in c.follows then c.follows[d] else [] }

  function Named(sites: seq<Site>, name: string): seq<Decl> {
    if sites == [] then [] else [Decl(sites[0], name)] + Named(sites[1..], name)
  }

  /** Every declaration the words resolve to, in the order they are tried. */
  function Resolved(c: Index, path: string, words: seq<string>): seq<Decl> {
    if words == [] then [] else Named(Resolve(c, path, words[0]), words[0]) + Resolved(c, path, words[1..])
  }

  function Successors(c: Index, d: Decl): seq<Decl> { Resolved(c, d.site.path, Followed(c, d)) }

  /** The names from the start to a buffer, or nothing. */
  function Walk(c: Index, redacted: bool, d: Decl, seen: set<Key>, trail: seq<string>): seq<string>
    requires |trail| <= CARRIER_HOPS
    decreases CARRIER_HOPS - |trail|, 1, 0
  {
    if KeyOf(d) in seen then []
    else if redacted && d in c.redactions then []
    else
      var further := trail + [d.name];
      if d in c.buffers then further
      else if |further| > CARRIER_HOPS then []
      else TryAll(c, redacted, Successors(c, d), seen + {KeyOf(d)}, further)
  }

  /** The first successor that answers. */
  function TryAll(c: Index, redacted: bool, ds: seq<Decl>, seen: set<Key>, trail: seq<string>): seq<string>
    requires 0 < |trail| <= CARRIER_HOPS
    decreases CARRIER_HOPS - |trail| + 1, 0, |ds|
  {
    if ds == [] then []
    else
      var found := Walk(c, redacted, ds[0], seen, trail);
      if found != [] then found else TryAll(c, redacted, ds[1..], seen, trail)
  }

  function Chain(c: Index, d: Decl, redacted: bool): seq<string> { Walk(c, redacted, d, {}, []) }

  // ---- what resolution means -------------------------------------------------------------------

  lemma {:induction false} BesideExact(sites: seq<Site>, path: string)
    ensures forall s :: s in Beside(sites, path) <==> s in sites && s.path == path
  {
    if sites != [] { BesideExact(sites[1..], path); }
  }

  lemma {:induction false} NamedExact(sites: seq<Site>, name: string)
    ensures forall d :: d in Named(sites, name) <==> d.name == name && d.site in sites
  {
    if sites != [] { NamedExact(sites[1..], name); }
  }

  /** `d` follows the word `w` written in `path`: declared in that file, or anywhere when no
      declaration of that name is. */
  predicate Meant(c: Index, path: string, w: string, d: Decl) {
    && d.name == w && w in c.declarations && d.site in c.declarations[w]
    && (d.site.path == path || forall s :: s in c.declarations[w] ==> s.path != path)
  }

  lemma ResolveMeant(c: Index, path: string, w: string)
    ensures forall d :: d in Named(Resolve(c, path, w), w) <==> Meant(c, path, w, d)
  {
    NamedExact(Resolve(c, path, w), w);
    if w in c.declarations {
      var sites := c.declarations[w];
      BesideExact(sites, path);
      if Beside(sites, path) != [] { assert Beside(sites, path)[0] in Beside(sites, path); }
      if s :| s in sites && s.path == path { assert s in Beside(sites, path); }
    }
  }

  lemma {:induction false} ResolvedExact(c: Index, path: string, words: seq<string>)
    ensures forall d :: d in Resolved(c, path, words) <==> d.name in words && Meant(c, path, d.name, d)
  {
    if words != [] {
      ResolveMeant(c, path, words[0]);
      ResolvedExact(c, path, words[1..]);
    }
  }

  // ---- paths of the type graph -----------------------------------------------------------------

  predicate Edge(c: Index, a: Decl, b: Decl) {
    b.name in Followed(c, a) && Meant(c, a.site.path, b.name, b)
  }

  lemma EdgeIsSuccessor(c: Index, a: Decl, b: Decl)
    ensures Edge(c, a, b) <==> b in Successors(c, a)
  {
    ResolvedExact(c, a.site.path, Followed(c, a));
  }

  /** A path from its first declaration to a buffer, through unredacted types when that matters. */
  ghost predicate Carries(c: Index, redacted: bool, ds: seq<Decl>) {
    && ds != [] && ds[|ds| - 1] in c.buffers
    && (forall k :: 0 < k < |ds| ==> Edge(c, ds[k - 1], ds[k]))
    && (redacted ==> forall k :: 0 <= k < |ds| ==> ds[k] !in c.redactions)
  }

  /** Enters no declaration of `seen`, and none twice, by the key they are remembered by. */
  ghost predicate Simple(ds: seq<Decl>, seen: set<Key>) {
    && (forall k :: 0 <= k < |ds| ==> KeyOf(ds[k]) !in seen)
    && (forall j, k :: 0 <= j < k < |ds| ==> KeyOf(ds[j]) != KeyOf(ds[k]))
  }

  ghost predicate Spells(ds: seq<Decl>, names: seq<string>) {
    |names| == |ds| && forall k :: 0 <= k < |ds| ==> names[k] == ds[k].name
  }

  /** The chain `ds` is what the walk from `ds[0]` answered after `trail`. */
  ghost predicate Witness(
    c: Index, redacted: bool, ds: seq<Decl>, seen: set<Key>, trail: seq<string>, found: seq<string>)
  {
    && Carries(c, redacted, ds) && Simple(ds, seen) && |trail| + |ds| <= CARRIER_HOPS + 1
    && |trail| <= |found| && found[..|trail|] == trail && Spells(ds, found[|trail|..])
  }

  /** Of the words followed, `x` is tried and `y` is not tried before it. */
  ghost predicate Sooner(tried: seq<Decl>, x: Decl, y: Decl) {
    exists p: nat :: p < |tried| && tried[p] == x && y !in tried[..p + 1]
  }

  /** Two paths from one declaration: `a` comes first when it is the shorter, or is tried sooner where
      they part. */
  ghost predicate NoLater(c: Index, a: seq<Decl>, b: seq<Decl>)
    decreases |a|
  {
    || |a| <= 1
    || (|b| > 1 && if a[1] == b[1] then NoLater(c, a[1..], b[1..]) else Sooner(Successors(c, a[0]), a[1], b[1]))
  }

  ghost predicate Candidate(c: Index, redacted: bool, b: seq<Decl>, d: Decl, seen: set<Key>, n: nat) {
    Carries(c, redacted, b) && b[0] == d && Simple(b, seen) && n + |b| <= CARRIER_HOPS + 1
  }

  /** No other path the walk may take comes before this one. */
  ghost predicate First(c: Index, redacted: bool, ds: seq<Decl>, d: Decl, seen: set<Key>, n: nat) {
    forall b :: Candidate(c, redacted, b, d, seen, n) ==> NoLater(c, ds, b)
  }

  lemma {:induction false} WalkSound(c: Index, redacted: bool, d: Decl, seen: set<Key>, trail: seq<string>)
    returns (ds: seq<Decl>)
    requires |trail| <= CARRIER_HOPS && Walk(c, redacted, d, seen, trail) != []
    ensures Witness(c, redacted, ds, seen, trail, Walk(c, redacted, d, seen, trail)) && ds[0] == d
    ensures First(c, redacted, ds, d, seen, |trail|)
    decreases CARRIER_HOPS - |trail|, 1, 0
  {
    var further := trail + [d.name];
    if d in c.buffers {
      ds := [d];
      assert further[..|trail|] == trail && further[|trail|..] == [d.name];
    } else {
      var rest, p := TryAllSound(c, redacted, Successors(c, d), seen + {KeyOf(d)}, further);
      var found := Walk(c, redacted, d, seen, trail);
      EdgeIsSuccessor(c, d, rest[0]);
      ds := [d] + rest;
      Extend(c, redacted, d, rest, seen, trail, found);
      FirstMore(c, redacted, d, rest, p, seen, trail);
    }
  }

  /** What comes first among the successors comes first after `d`. */
  lemma FirstMore(c: Index, redacted: bool, d: Decl, rest: seq<Decl>, p: nat, seen: set<Key>, trail: seq<string>)
    requires |trail| < CARRIER_HOPS && d !in c.buffers && rest != []
    requires var next, kept := Successors(c, d), seen + {KeyOf(d)};
             && p < |next| && next[p] == rest[0]
             && (forall k :: 0 <= k < p ==> Walk(c, redacted, next[k], kept, trail + [d.name]) == [])
             && First(c, redacted, rest, rest[0], kept, |trail| + 1)
    ensures First(c, redacted, [d] + rest, d, seen, |trail|)
  {
    var next, kept, ds := Successors(c, d), seen + {KeyOf(d)}, [d] + rest;
    assert ds[1..] == rest;
    forall b | Candidate(c, redacted, b, d, seen, |trail|) ensures NoLater(c, ds, b) {
      var after := CandidateAfter(c, redacted, b, d, seen, |trail|);
      WalkComplete(c, redacted, after, kept, trail + [d.name]);
      if b[1] == rest[0] { assert NoLater(c, rest, after); }
      else {
        forall k | 0 <= k < p + 1 ensures next[k] != b[1] { if k == p { assert next[k] == rest[0]; } }
        assert Sooner(next, rest[0], b[1]);
      }
    }
  }

  lemma CandidateAfter(c: Index, redacted: bool, b: seq<Decl>, d: Decl, seen: set<Key>, n: nat)
    returns (after: seq<Decl>)
    requires Candidate(c, redacted, b, d, seen, n) && d !in c.buffers
    ensures |b| > 1 && after == b[1..] && b[1] in Successors(c, d)
    ensures Candidate(c, redacted, after, b[1], seen + {KeyOf(d)}, n + 1)
  {
    after := b[1..];
    assert Edge(c, b[0], b[1]);
    EdgeIsSuccessor(c, d, b[1]);
    assert forall k :: 0 < k < |after| ==> Edge(c, b[k], b[k + 1]) && after[k - 1] == b[k] && after[k] == b[k + 1];
  }

  lemma CarriesMore(c: Index, redacted: bool, d: Decl, rest: seq<Decl>)
    requires Carries(c, redacted, rest) && Edge(c, d, rest[0]) && (redacted ==> d !in c.redactions)
    ensures Carries(c, redacted, [d] + rest)
  {
    var ds := [d] + rest;
    forall k | 0 < k < |ds| ensures Edge(c, ds[k - 1], ds[k]) {
      if k > 1 { assert Edge(c, rest[k - 2], rest[k - 1]); }
    }
  }

  lemma SpellsMore(d: Decl, rest: seq<Decl>, trail: seq<string>, found: seq<string>)
    requires |trail| < |found| && found[..|trail| + 1] == trail + [d.name] && Spells(rest, found[|trail| + 1..])
    ensures found[..|trail|] == trail && Spells([d] + rest, found[|trail|..])
  {
    assert found[..|trail|] == found[..|trail| + 1][..|trail|];
    assert found[|trail|] == found[..|trail| + 1][|trail|];
    assert found[|trail|..] == [d.name] + found[|trail| + 1..];
  }

  lemma Extend(
    c: Index, redacted: bool, d: Decl, rest: seq<Decl>, seen: set<Key>, trail: seq<string>, found: seq<string>)
    requires Witness(c, redacted, rest, seen + {KeyOf(d)}, trail + [d.name], found) && Edge(c, d, rest[0])
    requires KeyOf(d) !in seen && (redacted ==> d !in c.redactions)
    ensures Witness(c, redacted, [d] + rest, seen, trail, found)
  {
    CarriesMore(c, redacted, d, rest);
    SpellsMore(d, rest, trail, found);
  }

  lemma {:induction false} TryAllSound(c: Index, redacted: bool, ds: seq<Decl>, seen: set<Key>, trail: seq<string>)
    returns (rest: seq<Decl>, p: nat)
    requires 0 < |trail| <= CARRIER_HOPS && TryAll(c, redacted, ds, seen, trail) != []
    ensures Witness(c, redacted, rest, seen, trail, TryAll(c, redacted, ds, seen, trail))
    ensures p < |ds| && rest[0] == ds[p] && First(c, redacted, rest, rest[0], seen, |trail|)
    ensures forall k :: 0 <= k < p ==> Walk(c, redacted, ds[k], seen, trail) == []
    decreases CARRIER_HOPS - |trail| + 1, 0, |ds|
  {
    if Walk(c, redacted, ds[0], seen, trail) != [] {
      rest := WalkSound(c, redacted, ds[0], seen, trail);
      p := 0;
    } else {
      rest, p := TryAllSound(c, redacted, ds[1..], seen, trail);
      p := p + 1;
    }
  }

  lemma {:induction false} WalkComplete(c: Index, redacted: bool, ds: seq<Decl>, seen: set<Key>, trail: seq<string>)
    requires Carries(c, redacted, ds) && Simple(ds, seen) && |trail| + |ds| <= CARRIER_HOPS + 1
    ensures Walk(c, redacted, ds[0], seen, trail) != []
    decreases |ds|
  {
    var d := ds[0];
    if d !in c.buffers {
      var rest := ds[1..];
      assert Edge(c, ds[0], ds[1]);
      EdgeIsSuccessor(c, d, ds[1]);
      assert forall k :: 0 < k < |rest| ==> Edge(c, ds[k], ds[k + 1]) && rest[k - 1] == ds[k] && rest[k] == ds[k + 1];
      WalkComplete(c, redacted, rest, seen + {KeyOf(d)}, trail + [d.name]);
      TryAllComplete(c, redacted, Successors(c, d), seen + {KeyOf(d)}, trail + [d.name], ds[1]);
    }
  }

  lemma {:induction false} TryAllComplete(
    c: Index, redacted: bool, ds: seq<Decl>, seen: set<Key>, trail: seq<string>, d: Decl)
    requires 0 < |trail| <= CARRIER_HOPS && d in ds && Walk(c, redacted, d, seen, trail) != []
    ensures TryAll(c, redacted, ds, seen, trail) != []
    decreases |ds|
  {
    if ds[0] != d { TryAllComplete(c, redacted, ds[1..], seen, trail, d); }
  }

  // ---- the main results ------------------------------------------------------------------------

  /** A path of at most six hops from `d`. */
  ghost predicate CarriesFrom(c: Index, redacted: bool, d: Decl, ds: seq<Decl>) {
    Carries(c, redacted, ds) && ds[0] == d && |ds| <= 7
  }

  predicate Alike(a: Decl, b: Decl) { a.site.path == b.site.path && a.name == b.name }

  /** No two of the declarations share file and name. */
  ghost predicate Different(ds: seq<Decl>) { forall j, k :: 0 <= j < k < |ds| ==> !Alike(ds[j], ds[k]) }

  ghost predicate Foremost(c: Index, redacted: bool, d: Decl, ds: seq<Decl>) {
    forall b :: CarriesFrom(c, redacted, d, b) && Different(b) ==> NoLater(c, ds, b)
  }

  /** A chain is reported exactly when some path of at most six hops, none of whose declarations
      share file and name, reaches a buffer; what is reported spells the first such path in depth-first
      order. */
  lemma ChainExact(c: Index, d: Decl, redacted: bool)
    ensures Chain(c, d, redacted) != [] <==> exists ds :: CarriesFrom(c, redacted, d, ds) && Different(ds)
    ensures Chain(c, d, redacted) != [] ==>
              exists ds :: CarriesFrom(c, redacted, d, ds) && Different(ds) && Spells(ds, Chain(c, d, redacted))
                           && Foremost(c, redacted, d, ds)
  {
    if Chain(c, d, redacted) != [] {
      var ds := WalkSound(c, redacted, d, {}, []);
      assert Chain(c, d, redacted)[0..] == Chain(c, d, redacted);
      forall b | CarriesFrom(c, redacted, d, b) && Different(b) ensures NoLater(c, ds, b) {
        assert Candidate(c, redacted, b, d, {}, 0);
      }
      assert CarriesFrom(c, redacted, d, ds) && Different(ds) && Spells(ds, Chain(c, d, redacted));
    }
    if ds :| CarriesFrom(c, redacted, d, ds) && Different(ds) { WalkComplete(c, redacted, ds, {}, []); }
  }

  /** No two declarations share file and name. */
  ghost predicate Unambiguous(c: Index, d: Decl) {
    forall a, b :: Known(c, d, a) && Known(c, d, b) && Alike(a, b) ==> a == b
  }

  ghost predicate Known(c: Index, root: Decl, d: Decl) {
    d == root || (d.name in c.declarations && d.site in c.declarations[d.name])
  }

  /** A path that meets a declaration twice can be cut short. */
  lemma {:induction false} Shortcut(c: Index, redacted: bool, ds: seq<Decl>) returns (short: seq<Decl>)
    requires Carries(c, redacted, ds) && Unambiguous(c, ds[0])
    ensures Carries(c, redacted, short) && short[0] == ds[0] && |short| <= |ds| && Different(short)
    decreases |ds|
  {
    if j, k :| 0 <= j < k < |ds| && Alike(ds[j], ds[k]) {
      assert Known(c, ds[0], ds[j]) && Known(c, ds[0], ds[k]) by {
        assert j > 0 ==> Edge(c, ds[j - 1], ds[j]);
        assert Edge(c, ds[k - 1], ds[k]);
      }
      var cut := ds[..j] + ds[k..];
      forall n | 0 < n < |cut| ensures Edge(c, cut[n - 1], cut[n]) {
        if n < j { assert Edge(c, ds[n - 1], ds[n]); }
        else if n == j { assert Edge(c, ds[j - 1], ds[j]); }
        else { assert Edge(c, ds[n - j + k - 1], ds[n - j + k]); }
      }
      short := Shortcut(c, redacted, cut);
    } else {
      short := ds;
    }
  }

  /** Where file and name identify a declaration, a chain is reported exactly when any path of at
      most six hops reaches a buffer. */
  lemma ChainComplete(c: Index, d: Decl, redacted: bool)
    requires Unambiguous(c, d)
    ensures Chain(c, d, redacted) != [] <==> exists ds :: CarriesFrom(c, redacted, d, ds)
  {
    ChainExact(c, d, redacted);
    if ds :| CarriesFrom(c, redacted, d, ds) {
      var short := Shortcut(c, redacted, ds);
      assert CarriesFrom(c, redacted, d, short) && Different(short);
    }
  }

  ghost predicate Declared(declarations: map<string, seq<Site>>, d: Decl) {
    d.name in declarations && d.site in declarations[d.name]
  }

  /** File and name identify every declaration. */
  ghost predicate Distinct(declarations: map<string, seq<Site>>) {
    forall a, b :: Declared(declarations, a) && Declared(declarations, b) && Alike(a, b) ==> a == b
  }

  /** A chain is reported for `d` exactly when a path of at most six hops reaches a buffer. */
  ghost predicate Complete(c: Index, d: Decl, redacted: bool) {
    Chain(c, d, redacted) != [] <==> exists ds :: CarriesFrom(c, redacted, d, ds)
  }

  /** The crate in which `a` follows its own name and `b` holds the buffer. */
  function Twins(declarations: map<string, seq<Site>>, a: Decl, b: Decl): Index {
    Index(declarations, {b}, {}, map[a := [a.name]])
  }

  /** Of two declarations of one name in one file, one hop apart, the second is taken for the first
      and never looked at. */
  lemma TwinIsMissed(declarations: map<string, seq<Site>>, a: Decl, b: Decl, redacted: bool)
    requires Declared(declarations, a) && Declared(declarations, b) && Alike(a, b) && a != b
    ensures var c := Twins(declarations, a, b); Carries(c, redacted, [a, b]) && Chain(c, a, redacted) == []
  {
    var c := Twins(declarations, a, b);
    assert Edge(c, a, b);
    forall ds | CarriesFrom(c, redacted, a, ds) ensures !Different(ds) {
      assert ds[|ds| - 1] == b && Alike(ds[0], ds[|ds| - 1]);
    }
    ChainExact(c, a, redacted);
  }

  /** The search is complete on every crate with these declarations exactly when file and name
      identify each of them. */
  lemma CompleteExactlyWhenDistinct(declarations: map<string, seq<Site>>, redacted: bool)
    ensures (forall c: Index, d :: c.declarations == declarations && Declared(declarations, d) ==> Complete(c, d, redacted))
       <==> Distinct(declarations)
  {
    if Distinct(declarations) {
      forall c: Index, d | c.declarations == declarations && Declared(declarations, d) ensures Complete(c, d, redacted) {
        ChainComplete(c, d, redacted);
      }
    } else {
      var a, b :| Declared(declarations, a) && Declared(declarations, b) && Alike(a, b) && a != b;
      TwinIsMissed(declarations, a, b, redacted);
      var c := Twins(declarations, a, b);
      assert CarriesFrom(c, redacted, a, [a, b]);
      assert c.declarations == declarations && !Complete(c, a, redacted);
    }
  }

  /** Redacting more types never adds a report. */
  lemma RedactionNeverAdds(c: Index, more: set<Decl>, d: Decl, redacted: bool)
    requires c.redactions <= more
    ensures Chain(c.(redactions := more), d, redacted) != [] ==> Chain(c, d, redacted) != []
  {
    var c' := c.(redactions := more);
    if Chain(c', d, redacted) != [] {
      ChainExact(c', d, redacted);
      var ds :| CarriesFrom(c', redacted, d, ds) && Different(ds);
      forall k | 0 < k < |ds| ensures Edge(c, ds[k - 1], ds[k]) { assert Edge(c', ds[k - 1], ds[k]); }
      assert CarriesFrom(c, redacted, d, ds);
      ChainExact(c, d, redacted);
    }
  }

  /** Every reported type is in the population. */
  lemma ReportedInPopulation(c: Index, d: Decl)
    ensures Chain(c, d, true) != [] ==> Chain(c, d, false) != []
  {
    if Chain(c, d, true) != [] {
      ChainExact(c, d, true);
      var ds :| CarriesFrom(c, true, d, ds) && Different(ds);
      assert CarriesFrom(c, false, d, ds);
      ChainExact(c, d, false);
    }
  }
}
