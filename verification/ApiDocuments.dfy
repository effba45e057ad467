/** Whole API documents: what a baseline update must satisfy. */
module ApiDocuments {
  import opened Wrappers
  import opened KeyOrder
  import opened Json
  import opened ApiCompat
  import opened ApiVersions

  const SCHEMA := Int(1)
  const BASELINE_MAJOR: nat := 1

  datatype Document = Document(schema: Json, version: string, rustdoc: Json, packages: map<string, Package>)

  // ---- the relation ----------------------------------------------------------------------------

  predicate Current(d: Document) {
    LooseEq(d.schema, SCHEMA) && Major(d.version) == Some(BASELINE_MAJOR)
  }

  predicate PackageKept(base: Package, cand: Package) {
    LooseEq(base.library, cand.library) && Compatible(base.items, cand.items)
  }

  /** The candidate may replace, or with `additive` extend, the baseline. */
  predicate Accepts(base: Document, cand: Document, additive: bool) {
    && Current(base) && Major(cand.version) == Some(BASELINE_MAJOR)
    && LooseEq(base.rustdoc, cand.rustdoc)
    && base.packages.Keys <= cand.packages.Keys
    && (additive || cand.packages.Keys <= base.packages.Keys)
    && (forall name :: name in base.packages && name in cand.packages ==>
          PackageKept(base.packages[name], cand.packages[name]))
  }

  // ---- the comparison --------------------------------------------------------------------------

  datatype DocumentProblem =
    | BadSchema
    | BadVersion
    | WrongMajor(base: nat, cand: nat)
    | RustdocDiffers(at: Option<Path>)
    | NotInCandidate(name: string)
    | NotInBaseline(name: string)
    | LibraryChanged(name: string)
    | InPackage(name: string, problem: Problem)

  method HeaderProblems(base: Document, cand: Document) returns (problems: seq<DocumentProblem>)
    ensures problems == [] <==>
              Current(base) && Major(cand.version) == Some(BASELINE_MAJOR) && LooseEq(base.rustdoc, cand.rustdoc)
    ensures forall at :: RustdocDiffers(at) in problems ==> at.Some? && DiffersFirst(base.rustdoc, cand.rustdoc, at.value)
  {
    problems := [];
    if !LooseEq(base.schema, SCHEMA) { problems := problems + [BadSchema]; }
    var was, now := Major(base.version), Major(cand.version);
    if was.None? || now.None? {
      problems := problems + [BadVersion];
    } else if was.value != BASELINE_MAJOR || now.value != BASELINE_MAJOR {
      problems := problems + [WrongMajor(was.value, now.value)];
    }
    if !LooseEq(base.rustdoc, cand.rustdoc) {
      LooseReflexive(base.rustdoc);
      FirstDifferenceExact(base.rustdoc, cand.rustdoc);
      problems := problems + [RustdocDiffers(FirstDifference(base.rustdoc, cand.rustdoc))];
    }
  }

  /** The names of packages that only one side has. */
  method Unmatched(names: set<string>, inBaseline: bool) returns (problems: seq<DocumentProblem>)
    ensures problems == [] <==> names == {}
    ensures |problems| == |SortedKeys(names)|
    ensures forall k :: 0 <= k < |problems| ==>
              problems[k] == if inBaseline then NotInCandidate(SortedKeys(names)[k])
                             else NotInBaseline(SortedKeys(names)[k])
  {
    var keys := SortedKeys(names);
    problems := [];
    for n := 0 to |keys|
      invariant |problems| == n
      invariant forall k :: 0 <= k < n ==>
                  problems[k] == if inBaseline then NotInCandidate(keys[k]) else NotInBaseline(keys[k])
    {
      problems := problems + [if inBaseline then NotInCandidate(keys[n]) else NotInBaseline(keys[n])];
    }
    if problems == [] { assert forall k :: k in names ==> k in keys; }
    else { assert keys[0] in keys; }
  }

  method PackageProblems(name: string, base: Package, cand: Package) returns (problems: seq<DocumentProblem>)
    ensures problems == [] <==> PackageKept(base, cand)
    ensures LibraryChanged(name) in problems <==> !LooseEq(base.library, cand.library)
    ensures LooseEq(base.library, cand.library) ==>
              forall path :: (exists p :: InPackage(name, p) in problems && p.path == path) <==>
                path in base.items && !PathKept(base.items, cand.items, path)
  {
    if !LooseEq(base.library, cand.library) { return [LibraryChanged(name)]; }
    var found := CompatibilityProblems(base, cand);
    problems := seq(|found|, k requires 0 <= k < |found| => InPackage(name, found[k]));
    forall path ensures (exists p :: InPackage(name, p) in problems && p.path == path) <==> Named(found, path) {
      if p :| p in found && p.path == path {
        var k :| 0 <= k < |found| && found[k] == p;
        assert problems[k] == InPackage(name, p);
      }
    }
  }

  method SharedProblems(base: Document, cand: Document) returns (problems: seq<DocumentProblem>)
    ensures problems == [] <==>
              forall name :: name in base.packages && name in cand.packages ==>
                PackageKept(base.packages[name], cand.packages[name])
  {
    problems := [];
    var shared := SortedKeys(base.packages.Keys * cand.packages.Keys);
    assert forall k :: 0 <= k < |shared| ==> shared[k] in shared;
    for n := 0 to |shared|
      invariant problems == [] <==>
                  forall k :: 0 <= k < n ==> PackageKept(base.packages[shared[k]], cand.packages[shared[k]])
    {
      var found := PackageProblems(shared[n], base.packages[shared[n]], cand.packages[shared[n]]);
      problems := problems + found;
    }
    forall name | name in base.packages && name in cand.packages
      ensures exists k :: 0 <= k < |shared| && shared[k] == name
    {
      assert name in shared;
    }
  }

  lemma EmptyDifference(a: set<string>, b: set<string>)
    ensures a - b == {} <==> a <= b
  {
    if a - b == {} {
      forall x | x in a ensures x in b {
        assert x !in a - b;
      }
    }
  }

  /** Nothing is held against the candidate exactly when the baseline accepts it. */
  method DocumentProblems(base: Document, cand: Document, additive: bool) returns (problems: seq<DocumentProblem>)
    ensures problems == [] <==> Accepts(base, cand, additive)
  {
    EmptyDifference(base.packages.Keys, cand.packages.Keys);
    EmptyDifference(cand.packages.Keys, base.packages.Keys);
    problems := HeaderProblems(base, cand);
    var lost := Unmatched(base.packages.Keys - cand.packages.Keys, true);
    problems := problems + lost;
    if !additive {
      var found := Unmatched(cand.packages.Keys - base.packages.Keys, false);
      problems := problems + found;
    }
    var shared := SharedProblems(base, cand);
    problems := problems + shared;
  }

  method BaselineUpdateProblems(existing: Document, cand: Document) returns (problems: seq<DocumentProblem>)
    ensures problems == [] <==> Accepts(existing, cand, true)
  {
    problems := DocumentProblems(existing, cand, true);
  }
}
