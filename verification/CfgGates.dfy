/** Where `cfg` gates apply: the lines of a file, and the files that gated `mod` declarations pull in. */
module CfgGates {
  import opened Wrappers
  import opened CfgPredicates

  /** The lines one `cfg` attribute governs; an unreadable predicate has no node. */
  datatype Scope = Scope(start: int, end: int, node: Option<Node>)

  /** A gated declaration. A bare `mod x;` is external and names the files it may pull in. */
  datatype Item = Item(
    name: string, line: int, start: int, end: int, exported: bool, external: bool, targets: seq<string>)

  type Unit = (string, string)

  datatype File = File(scopes: seq<Scope>, items: seq<Item>, unit: Option<Unit>)

  type Sources = map<string, File>

  datatype Mention = Mention(path: string, line: int)

  type Mentions = map<Unit, map<string, seq<Mention>>>

  type Gates = map<string, set<string>>

  // ---- scopes ----------------------------------------------------------------------------------

  predicate Covers(s: Scope, line: int) { s.start <= line <= s.end }

  function ScopeAtoms(s: Scope): set<string> { if s.node.Some? then Required(s.node.value) else {} }

  function EnclosingAtoms(scopes: seq<Scope>, line: int): set<string> {
    set k, a | 0 <= k < |scopes| && Covers(scopes[k], line) && a in ScopeAtoms(scopes[k]) :: a
  }

  /** Everything that must hold for a line to be compiled, from its file alone. */
  method Enclosing(scopes: seq<Scope>, line: int) returns (found: set<string>)
    ensures found == EnclosingAtoms(scopes, line)
  {
    found := {};
    for n := 0 to |scopes|
      invariant found == EnclosingAtoms(scopes[..n], line)
    {
      EnclosingGrows(scopes, line, n);
      if Covers(scopes[n], line) { found := found + ScopeAtoms(scopes[n]); }
    }
    assert scopes[..|scopes|] == scopes;
  }

  lemma EnclosingGrows(scopes: seq<Scope>, line: int, n: nat)
    requires n < |scopes|
    ensures EnclosingAtoms(scopes[..n + 1], line)
         == EnclosingAtoms(scopes[..n], line) + (if Covers(scopes[n], line) then ScopeAtoms(scopes[n]) else {})
  {
    var less, more := scopes[..n], scopes[..n + 1];
    assert forall k :: 0 <= k < n ==> less[k] == more[k];
    assert more[n] == scopes[n];
    forall a | a in EnclosingAtoms(less, line) ensures a in EnclosingAtoms(more, line) {
      var k :| 0 <= k < |less| && Covers(less[k], line) && a in ScopeAtoms(less[k]);
      assert more[k] == less[k];
    }
  }

  predicate Readable(f: File, line: int) {
    forall k :: 0 <= k < |f.scopes| && Covers(f.scopes[k], line) ==> f.scopes[k].node.Some?
  }

  function ItemAtoms(f: File, item: Item): set<string> { EnclosingAtoms(f.scopes, item.line) }

  // ---- what compiles ---------------------------------------------------------------------------

  /** A `mod` declaration at a line of one file that pulls in another. */
  datatype Pull = Pull(from: string, line: int, to: string)

  /** How the compiler reaches files, gated or not; the reader sees only the gated declarations. */
  datatype Build = Build(roots: set<string>, pulls: set<Pull>)

  /** The readable gates around a line hold. */
  ghost predicate LineMet(f: File, line: int, c: Config) {
    forall k :: 0 <= k < |f.scopes| && Covers(f.scopes[k], line) && f.scopes[k].node.Some? ==>
      Satisfies(f.scopes[k].node.value, c)
  }

  /** The file is compiled in `c`, reached through `n` declarations. */
  ghost predicate Reached(w: Sources, b: Build, c: Config, path: string, n: nat)
    decreases n
  {
    if n == 0 then path in b.roots
    else exists pull :: pull in b.pulls && pull.to == path && pull.from in w
                        && LineMet(w[pull.from], pull.line, c) && Reached(w, b, c, pull.from, n - 1)
  }

  ghost predicate Compiled(w: Sources, b: Build, c: Config, path: string, line: int) {
    path in w && LineMet(w[path], line, c) && exists n: nat :: Reached(w, b, c, path, n)
  }

  /** A file that a gated `mod` names is reached through that declaration alone. */
  ghost predicate SoleDeclarations(w: Sources, b: Build) {
    forall q, item, p :: q in w && item in w[q].items && Declares(item, p) ==>
      Sole(b, q, item.line, p)
  }

  ghost predicate Sole(b: Build, q: string, line: int, p: string) {
    p !in b.roots && forall pull :: pull in b.pulls && pull.to == p ==> pull.from == q && pull.line == line
  }

  ghost predicate PlainSources(w: Sources) {
    forall q, k :: q in w && 0 <= k < |w[q].scopes| && w[q].scopes[k].node.Some? ==>
      Plain(w[q].scopes[k].node.value)
  }

  /** The scope's predicate was read from tokens as the lexer cuts them. */
  ghost predicate ReadScope(s: Scope) {
    s.node.Some? ==> exists tokens: seq<Token> :: (forall t :: t in tokens ==> Lexed(t)) && ReadNode(tokens) == s.node
  }

  ghost predicate ReadSources(w: Sources) {
    forall q, k :: q in w && 0 <= k < |w[q].scopes| ==> ReadScope(w[q].scopes[k])
  }

  lemma ReadSourcesPlain(w: Sources)
    requires ReadSources(w)
    ensures PlainSources(w)
  {
    forall q, k | q in w && 0 <= k < |w[q].scopes| && w[q].scopes[k].node.Some?
      ensures Plain(w[q].scopes[k].node.value)
    {
      assert ReadScope(w[q].scopes[k]);
      var tokens: seq<Token> :| (forall t :: t in tokens ==> Lexed(t)) && ReadNode(tokens) == w[q].scopes[k].node;
      ParsePlain(tokens, 0);
    }
  }

  lemma EnclosingSound(w: Sources, path: string, line: int, c: Config)
    requires PlainSources(w) && path in w && LineMet(w[path], line, c)
    ensures forall a :: a in EnclosingAtoms(w[path].scopes, line) ==> Holds(a, c)
  {
    var scopes := w[path].scopes;
    forall a | a in EnclosingAtoms(scopes, line) ensures Holds(a, c) {
      var k :| 0 <= k < |scopes| && Covers(scopes[k], line) && a in ScopeAtoms(scopes[k]);
      RequiredSound(scopes[k].node.value, c);
    }
  }

  // ---- gates inherited by files ----------------------------------------------------------------

  /** What a file is said to require holds whenever it is compiled. */
  ghost predicate Grounded(w: Sources, gates: Gates) {
    forall b, c, p, n: nat :: SoleDeclarations(w, b) && p in gates && Reached(w, b, c, p, n) ==>
      forall a :: a in gates[p] ==> Holds(a, c)
  }

  predicate Declares(item: Item, p: string) { item.external && p in item.targets }

  /** What `from` says of file `q` and its declaration `item` has reached the files `item` names. */
  ghost predicate Handed(w: Sources, from: Gates, to: Gates, q: string, item: Item)
    requires from.Keys == to.Keys == w.Keys && q in w
  {
    forall p :: Declares(item, p) && p in w ==> from[q] + ItemAtoms(w[q], item) <= to[p]
  }

  ghost predicate AllHanded(w: Sources, from: Gates, to: Gates)
    requires from.Keys == to.Keys == w.Keys
  {
    forall q, k :: q in w && 0 <= k < |w[q].items| ==> Handed(w, from, to, q, w[q].items[k])
  }

  /** Every file named by a gated `mod` inherits its gate and its file's. */
  ghost predicate Inherited(w: Sources, gates: Gates)
    requires gates.Keys == w.Keys
  {
    AllHanded(w, gates, gates)
  }

  ghost predicate Under(a: Gates, b: Gates) {
    forall p :: p in a ==> p in b && a[p] <= b[p]
  }

  /** No more than every inheriting assignment says. */
  ghost predicate Minimal(w: Sources, gates: Gates) {
    forall t: Gates :: t.Keys == w.Keys && Inherited(w, t) ==> Under(gates, t)
  }

  ghost predicate Growing(w: Sources, gates: Gates) {
    gates.Keys == w.Keys && Grounded(w, gates) && Minimal(w, gates)
  }

  lemma InheritGrounded(w: Sources, gates: Gates, q: string, item: Item, p: string)
    requires PlainSources(w) && Growing(w, gates) && q in w && item in w[q].items && Declares(item, p) && p in w
    ensures Grounded(w, gates[p := gates[p] + gates[q] + ItemAtoms(w[q], item)])
  {
    var more := gates[p := gates[p] + gates[q] + ItemAtoms(w[q], item)];
    forall b, c, r, n: nat | SoleDeclarations(w, b) && r in more && Reached(w, b, c, r, n)
      ensures forall a :: a in more[r] ==> Holds(a, c)
    {
      assert forall a :: a in gates[r] ==> Holds(a, c);
      if r == p {
        assert Sole(b, q, item.line, p);
        var pull :| pull in b.pulls && pull.to == p && pull.from in w
                    && LineMet(w[pull.from], pull.line, c) && Reached(w, b, c, pull.from, n - 1);
        EnclosingSound(w, q, item.line, c);
        assert Reached(w, b, c, q, n - 1);
      }
    }
  }

  lemma InheritMinimal(w: Sources, gates: Gates, q: string, k: nat, p: string)
    requires Growing(w, gates) && q in w && k < |w[q].items| && Declares(w[q].items[k], p) && p in w
    ensures Minimal(w, gates[p := gates[p] + gates[q] + ItemAtoms(w[q], w[q].items[k])])
  {
    var item := w[q].items[k];
    forall t: Gates | t.Keys == w.Keys && Inherited(w, t)
      ensures Under(gates[p := gates[p] + gates[q] + ItemAtoms(w[q], item)], t)
    {
      assert Under(gates, t) && Handed(w, t, t, q, item);
    }
  }

  /** Hands the gate of one `mod` declaration to the files it may mean. */
  method HandDown(w: Sources, before: Gates, q: string, k: nat) returns (gates: Gates, settled: bool)
    requires PlainSources(w) && Growing(w, before) && q in w && k < |w[q].items| && w[q].items[k].external
    ensures Growing(w, gates) && Under(before, gates) && (settled <==> gates == before)
    ensures Handed(w, before, gates, q, w[q].items[k])
  {
    var item := w[q].items[k];
    gates, settled := before, true;
    for j := 0 to |item.targets|
      invariant Growing(w, gates) && Under(before, gates)
      invariant settled <==> gates == before
      invariant forall i :: 0 <= i < j && item.targets[i] in w ==>
                  before[q] + ItemAtoms(w[q], item) <= gates[item.targets[i]]
    {
      var p := item.targets[j];
      var atoms := Enclosing(w[q].scopes, item.line);
      if p in gates && !(gates[q] + atoms <= gates[p]) {
        InheritGrounded(w, gates, q, item, p);
        InheritMinimal(w, gates, q, k, p);
        ghost var last := gates;
        gates := gates[p := gates[p] + gates[q] + atoms];
        assert before[p] <= last[p] < gates[p];
        settled := false;
      }
    }
  }

  lemma StillHanded(w: Sources, before: Gates, less: Gates, more: Gates, q: string, item: Item)
    requires before.Keys == less.Keys == more.Keys == w.Keys && q in w
    requires Handed(w, before, less, q, item) && Under(less, more)
    ensures Handed(w, before, more, q, item)
  {}

  lemma LaterHanded(w: Sources, before: Gates, later: Gates, gates: Gates, q: string, item: Item)
    requires before.Keys == later.Keys == gates.Keys == w.Keys && q in w
    requires Handed(w, later, gates, q, item) && Under(before, later)
    ensures Handed(w, before, gates, q, item)
  {}

  ghost predicate FileHanded(w: Sources, from: Gates, to: Gates, q: string, n: nat)
    requires from.Keys == to.Keys == w.Keys && q in w && n <= |w[q].items|
  {
    forall k :: 0 <= k < n ==> Handed(w, from, to, q, w[q].items[k])
  }

  method HandDownFile(w: Sources, before: Gates, q: string) returns (gates: Gates, settled: bool)
    requires PlainSources(w) && Growing(w, before) && q in w
    ensures Growing(w, gates) && Under(before, gates) && (settled <==> gates == before)
    ensures FileHanded(w, before, gates, q, |w[q].items|)
  {
    gates, settled := before, true;
    for k := 0 to |w[q].items|
      invariant Growing(w, gates) && Under(before, gates) && (settled <==> gates == before)
      invariant FileHanded(w, before, gates, q, k)
    {
      if w[q].items[k].external {
        ghost var last := gates;
        var still: bool;
        gates, still := HandDown(w, gates, q, k);
        FileHandedMore(w, before, last, gates, q, k);
        if gates == before { SameGates(last, gates); }
        settled := settled && still;
      }
    }
  }

  lemma FileHandedMore(w: Sources, before: Gates, last: Gates, gates: Gates, q: string, k: nat)
    requires before.Keys == last.Keys == gates.Keys == w.Keys && q in w && k < |w[q].items|
    requires Under(before, last) && Under(last, gates)
    requires FileHanded(w, before, last, q, k) && Handed(w, last, gates, q, w[q].items[k])
    ensures FileHanded(w, before, gates, q, k + 1)
  {
    LaterHanded(w, before, last, gates, q, w[q].items[k]);
    forall j | 0 <= j < k ensures Handed(w, before, gates, q, w[q].items[j]) {
      StillHanded(w, before, last, gates, q, w[q].items[j]);
    }
  }

  lemma SameGates(a: Gates, b: Gates)
    requires Under(a, b) && Under(b, a)
    ensures a == b
  {
    assert a.Keys == b.Keys;
    forall p | p in a ensures a[p] == b[p] {}
  }

  ghost predicate PassHanded(w: Sources, from: Gates, to: Gates, done: set<string>)
    requires from.Keys == to.Keys == w.Keys && done <= w.Keys
  {
    forall q :: q in done ==> FileHanded(w, from, to, q, |w[q].items|)
  }

  lemma PassHandedMore(w: Sources, before: Gates, last: Gates, gates: Gates, done: set<string>, q: string)
    requires before.Keys == last.Keys == gates.Keys == w.Keys && done <= w.Keys && q in w
    requires Under(before, last) && Under(last, gates)
    requires PassHanded(w, before, last, done) && FileHanded(w, last, gates, q, |w[q].items|)
    ensures PassHanded(w, before, gates, done + {q})
  {
    forall r, k | r in done + {q} && 0 <= k < |w[r].items| ensures Handed(w, before, gates, r, w[r].items[k]) {
      if r == q { LaterHanded(w, before, last, gates, q, w[q].items[k]); }
      else { StillHanded(w, before, last, gates, r, w[r].items[k]); }
    }
  }

  /** One pass over the files, in any order. */
  method HandDownAll(w: Sources, before: Gates) returns (gates: Gates, settled: bool)
    requires PlainSources(w) && Growing(w, before)
    ensures Growing(w, gates) && Under(before, gates) && (settled <==> gates == before)
    ensures AllHanded(w, before, gates)
  {
    gates, settled := before, true;
    var todo := w.Keys;
    while todo != {}
      invariant todo <= w.Keys && Growing(w, gates) && Under(before, gates)
      invariant settled <==> gates == before
      invariant PassHanded(w, before, gates, w.Keys - todo)
    {
      var q :| q in todo;
      ghost var last, done := gates, w.Keys - todo;
      todo := todo - {q};
      var still: bool;
      gates, still := HandDownFile(w, gates, q);
      PassHandedMore(w, before, last, gates, done, q);
      assert w.Keys - todo == done + {q};
      if gates == before { SameGates(last, gates); }
      settled := settled && still;
    }
  }

  // ---- how far eight passes reach --------------------------------------------------------------

  const PASSES: nat := 8

  /** What a file inherits along chains of at most `n` gated declarations. */
  function Upto(w: Sources, p: string, n: nat): set<string>
    decreases n, 0
  {
    if n == 0 then {}
    else
      var m: nat := n - 1;
      set q, k, a | q in w && 0 <= k < |w[q].items| && Declares(w[q].items[k], p) && a in Bequest(w, q, k, m) :: a
  }

  /** What declaration `k` of file `q` hands down when chains of `n` more lead to `q`. */
  function Bequest(w: Sources, q: string, k: nat, n: nat): set<string>
    requires q in w && k < |w[q].items|
    decreases n, 1
  {
    ItemAtoms(w[q], w[q].items[k]) + Upto(w, q, n)
  }

  ghost predicate Holding(w: Sources, gates: Gates, n: nat)
    requires gates.Keys == w.Keys
  {
    forall p :: p in w ==> Upto(w, p, n) <= gates[p]
  }

  lemma PassReaches(w: Sources, before: Gates, gates: Gates, n: nat)
    requires before.Keys == gates.Keys == w.Keys && AllHanded(w, before, gates) && Holding(w, before, n)
    ensures Holding(w, gates, n + 1)
  {
    forall p, a | p in w && a in Upto(w, p, n + 1) ensures a in gates[p] {
      var q, k := UptoSource(w, p, n, a);
      assert Handed(w, before, gates, q, w[q].items[k]);
    }
  }

  lemma {:induction false} InheritedHolds(w: Sources, gates: Gates, n: nat)
    requires gates.Keys == w.Keys && Inherited(w, gates)
    ensures Holding(w, gates, n)
  {
    if n > 0 {
      InheritedHolds(w, gates, n - 1);
      PassReaches(w, gates, gates, n - 1);
    }
  }

  /** No file inherits anything only through a chain of eight declarations. */
  ghost predicate Shallow(w: Sources) {
    forall p :: p in w ==> Upto(w, p, PASSES) <= Upto(w, p, PASSES - 1)
  }

  ghost function UptoGates(w: Sources, n: nat): Gates { map p | p in w :: Upto(w, p, n) }

  lemma ShallowInherited(w: Sources)
    requires Shallow(w)
    ensures Inherited(w, UptoGates(w, PASSES - 1))
  {
    var t := UptoGates(w, PASSES - 1);
    forall q, k, p | q in w && 0 <= k < |w[q].items| && Declares(w[q].items[k], p) && p in w
      ensures t[q] + ItemAtoms(w[q], w[q].items[k]) <= t[p]
    {
      UptoStep(w, q, k, p, PASSES - 1);
    }
  }

  lemma UptoStep(w: Sources, q: string, k: nat, p: string, n: nat)
    requires q in w && k < |w[q].items| && Declares(w[q].items[k], p)
    ensures Bequest(w, q, k, n) <= Upto(w, p, n + 1)
  {
    forall a | a in Bequest(w, q, k, n) ensures a in Upto(w, p, n + 1) {}
  }

  /** After seven passes a shallow workspace has nothing left to hand down. */
  lemma ShallowSettles(w: Sources, before: Gates, gates: Gates)
    requires Shallow(w) && Growing(w, before) && Growing(w, gates) && Under(before, gates)
    requires Holding(w, before, PASSES - 1)
    ensures gates == before
  {
    ShallowInherited(w);
    assert Under(gates, UptoGates(w, PASSES - 1));
    SameGates(before, gates);
  }

  /** Every gated declaration leads to a file of higher rank. */
  ghost predicate Ranked(w: Sources, rank: map<string, nat>) {
    && rank.Keys == w.Keys
    && forall q, k, p :: q in w && 0 <= k < |w[q].items| && Declares(w[q].items[k], p) && p in w ==> rank[q] < rank[p]
  }

  /** A workspace whose gated declarations nest at most seven deep is shallow. */
  lemma RanksShallow(w: Sources, rank: map<string, nat>)
    requires Ranked(w, rank) && forall p :: p in w ==> rank[p] <= 7
    ensures Shallow(w)
  {
    forall p | p in w ensures Upto(w, p, PASSES) <= Upto(w, p, PASSES - 1) { RankStable(w, rank, p, 7); }
  }

  /** Along which declaration a file inherits an atom. */
  lemma UptoSource(w: Sources, p: string, n: nat, a: string) returns (q: string, k: nat)
    requires a in Upto(w, p, n + 1)
    ensures q in w && k < |w[q].items| && Declares(w[q].items[k], p) && a in Bequest(w, q, k, n)
  {
    q, k :| q in w && 0 <= k < |w[q].items| && Declares(w[q].items[k], p) && a in Bequest(w, q, k, n);
  }

  lemma {:induction false} RankStable(w: Sources, rank: map<string, nat>, p: string, n: nat)
    requires Ranked(w, rank) && p in w && rank[p] <= n
    ensures Upto(w, p, n + 1) <= Upto(w, p, n)
    decreases n
  {
    forall a | a in Upto(w, p, n + 1) ensures a in Upto(w, p, n) {
      var q, k := UptoSource(w, p, n, a);
      RankStable(w, rank, q, n - 1);
      BequestStable(w, q, k, n - 1);
      UptoStep(w, q, k, p, n - 1);
    }
  }

  lemma BequestStable(w: Sources, q: string, k: nat, n: nat)
    requires q in w && k < |w[q].items| && Upto(w, q, n + 1) <= Upto(w, q, n)
    ensures Bequest(w, q, k, n + 1) <= Bequest(w, q, k, n)
  {}

  /** What files inherit, in at most eight passes: everything along chains of up to eight gated
      declarations, and nothing that the least inheriting assignment does not have. Once settled it
      is that assignment, and a shallow workspace always settles. */
  method FileGates(w: Sources) returns (gates: Gates, settled: bool)
    requires PlainSources(w)
    ensures Growing(w, gates) && Holding(w, gates, PASSES)
    ensures settled ==> Inherited(w, gates)
    ensures Shallow(w) ==> settled
  {
    gates := map q | q in w :: {};
    settled := false;
    for pass := 0 to PASSES
      invariant Growing(w, gates) && Holding(w, gates, pass) && !settled
      invariant pass == PASSES ==> !Shallow(w)
    {
      ghost var before := gates;
      gates, settled := HandDownAll(w, gates);
      PassReaches(w, before, gates, pass);
      if pass == PASSES - 1 && Shallow(w) { ShallowSettles(w, before, gates); }
      if settled {
        InheritedHolds(w, gates, PASSES);
        break;
      }
    }
  }
}
