/** The Supported part of an API: what is left once everything Experimental is taken out. */
module ApiFilter {
  import opened Wrappers
  import opened KeyOrder
  import opened Json
  import opened ApiCompat
  import opened ApiSupported

  /** The canonical references a fragment makes. */
  function ResolvedPaths(value: Json): set<string> {
    match value
    case Arr(es) => set k, p | 0 <= k < |es| && p in ResolvedPaths(es[k]) :: p
    case Obj(m) =>
      (if "resolved" in m && m["resolved"].Str? then {m["resolved"].s} else {})
      + set k, p | k in m && p in ResolvedPaths(m[k]) :: p
    case _ => {}
  }

  /** Fallback identifiers, which are no safe identities. */
  function UnresolvedMarkers(value: Json): set<string> {
    match value
    case Str(s) => if "unresolved::" <= s then {s} else {}
    case Arr(es) => set k, p | 0 <= k < |es| && p in UnresolvedMarkers(es[k]) :: p
    case Obj(m) => set k, p | k in m && p in UnresolvedMarkers(m[k]) :: p
    case _ => {}
  }

  function Definition(path: string, record: Record): string {
    match GetOr(record, "definition", Str(path))
    case Str(d) => d
    case _ => path
  }

  predicate Excluded(path: string, record: Record, roots: seq<string>) {
    BelowAny(path, roots) || BelowAny(Definition(path, record), roots)
  }

  predicate ChildShown(path: string, definition: string, name: string, roots: seq<string>) {
    !BelowAny(path + "::" + name, roots) && !BelowAny(definition + "::" + name, roots)
  }

  /** The references in an implementation's header. */
  function HeaderPaths(implementation: Json): set<string> {
    var r := Fields(implementation);
    ResolvedPaths(Obj(map["trait" := GetOr(r, "trait", Null), "for" := GetOr(r, "for", Null),
                          "generics" := GetOr(r, "generics", Null)]))
  }

  predicate Clean(references: set<string>, roots: seq<string>) {
    forall p :: p in references ==> !BelowAny(p, roots)
  }

  function PrunedValue(path: string, definition: string, key: string, value: Json, roots: seq<string>): Json {
    if !value.Obj? then value
    else if key == "variants" || key == "items" then
      Obj(map name | name in value.fields && ChildShown(path, definition, name, roots) :: value.fields[name])
    else if key == "implementations" then
      Obj(map k | k in value.fields && Clean(HeaderPaths(value.fields[k]), roots) :: value.fields[k])
    else value
  }

  function Pruned(path: string, record: Record, roots: seq<string>): Record {
    var definition := Definition(path, record);
    map key | key in record :: PrunedValue(path, definition, key, record[key], roots)
  }

  /** Everything a kept record shows a client. */
  function Exposed(record: Record): set<string> { ResolvedPaths(Obj(record - {"definition"})) }

  datatype FilterError =
    | Unresolved(path: string, marker: string)
    | ExposesExperimental(path: string, reference: string)

  /** What the filter refuses about a record it would otherwise keep. */
  function Fault(path: string, record: Record, roots: seq<string>): Option<FilterError> {
    var kept := Pruned(path, record, roots);
    var markers := UnresolvedMarkers(Obj(kept));
    var exposed := set p | p in Exposed(kept) && BelowAny(p, roots);
    if markers != {} then Some(Unresolved(path, Least(markers)))
    else if exposed != {} then Some(ExposesExperimental(path, Least(exposed)))
    else None
  }

  function Offenders(items: Items, roots: seq<string>): set<string> {
    set path | path in items && !Excluded(path, items[path], roots) && Fault(path, items[path], roots).Some?
  }

  function Shown(items: Items, roots: seq<string>): Items {
    map path | path in items && !Excluded(path, items[path], roots) :: Pruned(path, items[path], roots)
  }

  /** The items to keep, or the fault of the first offending path. */
  function Filtered(items: Items, roots: seq<string>): Result<Items, FilterError> {
    var bad := Offenders(items, roots);
    if bad == {} then Ok(Shown(items, roots))
    else
      var first := Least(bad);
      assert first in bad;
      Err(Fault(first, items[first], roots).value)
  }

  /** The paths of `done` are dealt with, and none of them was at fault. */
  ghost predicate Sifted(items: Items, roots: seq<string>, done: set<string>, supported: Items) {
    && done <= items.Keys && done !! Offenders(items, roots)
    && (forall path :: path in supported <==> path in done && !Excluded(path, items[path], roots))
    && (forall path :: path in supported ==> supported[path] == Pruned(path, items[path], roots))
  }

  method Sift(items: Items, roots: seq<string>, ghost done: set<string>, before: Items, path: string)
    returns (fault: Option<FilterError>, supported: Items)
    requires path in items && Sifted(items, roots, done, before)
    ensures fault.Some? <==> path in Offenders(items, roots)
    ensures fault.Some? ==> fault == Fault(path, items[path], roots)
    ensures fault.None? ==> Sifted(items, roots, done + {path}, supported)
  {
    if Excluded(path, items[path], roots) { return None, before; }
    fault := Fault(path, items[path], roots);
    supported := before[path := Pruned(path, items[path], roots)];
  }

  lemma AllSifted(items: Items, roots: seq<string>, supported: Items)
    requires Sifted(items, roots, items.Keys, supported)
    ensures Filtered(items, roots) == Ok(supported)
  {
    assert Offenders(items, roots) <= items.Keys;
    assert supported == Shown(items, roots);
  }

  lemma FirstOffender(items: Items, roots: seq<string>, paths: seq<string>, n: nat)
    requires paths == SortedKeys(items.Keys) && n < |paths| && paths[n] in Offenders(items, roots)
    requires forall k :: 0 <= k < n ==> paths[k] !in Offenders(items, roots)
    ensures Filtered(items, roots) == Err(Fault(paths[n], items[paths[n]], roots).value)
  {
    var bad := Offenders(items, roots);
    forall p | p in bad ensures LexLe(paths[n], p) {
      assert p in items.Keys && p in paths;
      LexTotal(p, p);
    }
    LexAntisymmetric(Least(bad), paths[n]);
  }

  // ---- what is kept ----------------------------------------------------------------------------

  /** Nothing kept is, holds, implements or mentions anything at or below an Experimental root. */
  ghost predicate Untainted(path: string, record: Record, roots: seq<string>) {
    && !BelowAny(path, roots) && !BelowAny(Definition(path, record), roots)
    && (forall name :: name in Children(record, "variants") || name in Children(record, "items") ==>
          ChildShown(path, Definition(path, record), name, roots))
    && (forall k :: k in Children(record, "implementations") ==>
          Clean(HeaderPaths(Children(record, "implementations")[k]), roots))
    && Clean(Exposed(record), roots)
    && UnresolvedMarkers(Obj(record)) == {}
  }

  lemma PrunedDefinition(path: string, record: Record, roots: seq<string>)
    ensures Definition(path, Pruned(path, record, roots)) == Definition(path, record)
    ensures Pruned(path, record, roots).Keys == record.Keys
  {}

  lemma PrunedChildren(path: string, record: Record, roots: seq<string>)
    ensures forall name ::
              (name in Children(Pruned(path, record, roots), "variants")
               || name in Children(Pruned(path, record, roots), "items"))
              ==> ChildShown(path, Definition(path, record), name, roots)
    ensures forall k :: k in Children(Pruned(path, record, roots), "implementations") ==>
              Clean(HeaderPaths(Children(Pruned(path, record, roots), "implementations")[k]), roots)
  {}

  lemma FilteredUntainted(items: Items, roots: seq<string>)
    requires Filtered(items, roots).Ok?
    ensures var kept := Filtered(items, roots).value;
            forall path :: path in kept ==> path in items && Untainted(path, kept[path], roots)
  {
    var kept := Filtered(items, roots).value;
    forall path | path in kept ensures path in items && Untainted(path, kept[path], roots) {
      var record := items[path];
      PrunedDefinition(path, record, roots);
      PrunedChildren(path, record, roots);
      assert path !in Offenders(items, roots);
      var exposed := set p | p in Exposed(kept[path]) && BelowAny(p, roots);
      assert exposed == {};
      forall p | p in Exposed(kept[path]) ensures !BelowAny(p, roots) { assert p !in exposed; }
    }
  }

  // ---- the filter against the documents --------------------------------------------------------

  lemma BelowExact(path: string, root: string)
    ensures Below(path, root) <==> Beneath(path, root)
  {
    if root + "::" <= path { assert path == root + "::" + path[|root + "::"|..]; }
  }

  lemma BelowAnyExact(path: string, roots: seq<string>)
    ensures BelowAny(path, roots) <==> Experimental(path, roots)
  {
    forall root ensures Below(path, root) <==> Beneath(path, root) { BelowExact(path, root); }
  }

  lemma RefersInside(value: Json, path: string)
    ensures Refers(value, path)
       <==> || Resolves(value, path)
            || (value.Arr? && exists k :: 0 <= k < |value.elements| && Refers(value.elements[k], path))
            || (value.Obj? && exists k :: k in value.fields && Refers(value.fields[k], path))
  {
    forall part
      ensures Occurs(value, part)
         <==> || part == value
              || (value.Arr? && exists k :: 0 <= k < |value.elements| && Occurs(value.elements[k], part))
              || (value.Obj? && exists k :: k in value.fields && Occurs(value.fields[k], part))
    {
      OccursInside(value, part);
    }
  }

  /** The paths collected are those the value refers to. */
  lemma {:induction false} ResolvedExact(value: Json, path: string)
    ensures path in ResolvedPaths(value) <==> Refers(value, path)
    decreases value
  {
    RefersInside(value, path);
    match value
    case Arr(es) => forall k | 0 <= k < |es| { ResolvedExact(es[k], path); }
    case Obj(m) => forall k | k in m { ResolvedExact(m[k], path); }
    case _ =>
  }

  /** The markers collected are the unresolved identities it holds. */
  lemma {:induction false} MarkersExact(value: Json, marker: string)
    ensures marker in UnresolvedMarkers(value) <==> Unidentified(value, marker)
    decreases value
  {
    OccursInside(value, Str(marker));
    match value
    case Arr(es) => forall k | 0 <= k < |es| { MarkersExact(es[k], marker); }
    case Obj(m) => forall k | k in m { MarkersExact(m[k], marker); }
    case _ =>
  }

  lemma HeaderExact(implementation: Json, path: string)
    ensures path in HeaderPaths(implementation) <==> HeaderRefers(implementation, path)
  {
    var r := Fields(implementation);
    var header := map["trait" := GetOr(r, "trait", Null), "for" := GetOr(r, "for", Null),
                      "generics" := GetOr(r, "generics", Null)];
    ResolvedExact(Obj(header), path);
    RefersInside(Obj(header), path);
    RefersInside(Null, path);
    assert forall key :: key in header <==> key in {"trait", "for", "generics"};
    forall key | key in header
      ensures Refers(header[key], path) <==> key in r && Refers(r[key], path)
    {
      assert header[key] == if key in r then r[key] else Null;
    }
  }

  lemma NamesExact(path: string, record: Record, roots: seq<string>)
    ensures Excluded(path, record, roots) <==> !Supported(path, record, roots)
    ensures forall name ::
              ChildShown(path, Definition(path, record), name, roots) <==> ChildSupported(path, record, name, roots)
  {
    forall id ensures BelowAny(id, roots) <==> Experimental(id, roots) { BelowAnyExact(id, roots); }
    var definition := Definition(path, record);
    assert forall id :: GoesBy(path, record, id) <==> id == path || id == definition;
    forall name
      ensures ChildShown(path, definition, name, roots) <==> ChildSupported(path, record, name, roots)
    {
      if ChildSupported(path, record, name, roots) {
        assert GoesBy(path, record, path) && GoesBy(path, record, definition);
      }
    }
    if Supported(path, record, roots) { assert GoesBy(path, record, path) && GoesBy(path, record, definition); }
  }

  lemma CleanExact(implementation: Json, roots: seq<string>)
    ensures Clean(HeaderPaths(implementation), roots) <==> HeaderSupported(implementation, roots)
  {
    forall p
      ensures p in HeaderPaths(implementation) <==> HeaderRefers(implementation, p)
      ensures BelowAny(p, roots) <==> Experimental(p, roots)
    {
      HeaderExact(implementation, p);
      BelowAnyExact(p, roots);
    }
  }

  /** What the filter makes of a record is what is left of it. */
  lemma PrunedLeft(path: string, record: Record, roots: seq<string>)
    ensures Left(path, record, roots, Pruned(path, record, roots))
  {
    NamesExact(path, record, roots);
    forall entry ensures Clean(HeaderPaths(entry), roots) <==> HeaderSupported(entry, roots) {
      CleanExact(entry, roots);
    }
    var definition := Definition(path, record);
    forall key | key in record
      ensures ValueLeft(path, record, key, roots, PrunedValue(path, definition, key, record[key], roots))
    {}
  }

  lemma ExposedExact(record: Record, roots: seq<string>, p: string)
    ensures p in Exposed(record) && BelowAny(p, roots)
       <==> Refers(Obj(record - {"definition"}), p) && Experimental(p, roots)
  {
    ResolvedExact(Obj(record - {"definition"}), p);
    BelowAnyExact(p, roots);
  }

  /** What the filter reports of a refused path: its least unresolved identity or, having none, the
      least Experimental path it refers to. */
  ghost predicate Reports(e: FilterError, left: Record, roots: seq<string>) {
    match e
    case Unresolved(_, marker) =>
      && Unidentified(Obj(left), marker)
      && forall m :: Unidentified(Obj(left), m) ==> LexLe(marker, m)
    case ExposesExperimental(_, reference) =>
      && (forall m :: !Unidentified(Obj(left), m))
      && Refers(Obj(left - {"definition"}), reference) && Experimental(reference, roots)
      && forall p :: Refers(Obj(left - {"definition"}), p) && Experimental(p, roots) ==> LexLe(reference, p)
  }

  lemma FaultExact(path: string, record: Record, roots: seq<string>)
    ensures Fault(path, record, roots).Some? <==> Faulty(Pruned(path, record, roots), roots)
    ensures Fault(path, record, roots).Some? ==>
              && Fault(path, record, roots).value.path == path
              && Reports(Fault(path, record, roots).value, Pruned(path, record, roots), roots)
  {
    var left := Pruned(path, record, roots);
    var markers := UnresolvedMarkers(Obj(left));
    var exposed := set p | p in Exposed(left) && BelowAny(p, roots);
    forall m ensures m in markers <==> Unidentified(Obj(left), m) { MarkersExact(Obj(left), m); }
    forall p ensures p in exposed <==> Refers(Obj(left - {"definition"}), p) && Experimental(p, roots) {
      ExposedExact(left, roots, p);
    }
    if markers != {} { assert Least(markers) in markers; }
    if exposed != {} { assert Least(exposed) in exposed; }
    assert Faulty(left, roots) <==> (exists m :: m in markers) || exists p :: p in exposed;
  }

  lemma RefusedExact(path: string, items: Items, roots: seq<string>)
    requires path in items
    ensures path in Offenders(items, roots) <==> Refused(path, items[path], roots)
  {
    var record := items[path];
    NamesExact(path, record, roots);
    PrunedLeft(path, record, roots);
    FaultExact(path, record, roots);
    if Refused(path, record, roots) {
      var left :| Left(path, record, roots, left) && Faulty(left, roots);
      LeftUnique(path, record, roots, left, Pruned(path, record, roots));
    }
  }

  /** The error names the first refused path, in key order, and its fault. */
  ghost predicate FirstRefused(items: Items, roots: seq<string>, e: FilterError) {
    && e.path in items && Refused(e.path, items[e.path], roots)
    && (forall p :: p in items && Refused(p, items[p], roots) ==> LexLe(e.path, p))
    && exists left :: Left(e.path, items[e.path], roots, left) && Reports(e, left, roots)
  }

  /** What the filter answers, said of the documents: it fails exactly when it has to refuse a path, at
      the first such, and otherwise keeps exactly the supported paths, each with all that is left of it. */
  ghost predicate Answers(items: Items, roots: seq<string>, r: Result<Items, FilterError>) {
    match r
    case Ok(kept) =>
      && (forall path :: path in items ==> !Refused(path, items[path], roots))
      && (forall path :: path in kept <==> path in items && Supported(path, items[path], roots))
      && (forall path :: path in kept ==> Left(path, items[path], roots, kept[path]))
    case Err(e) => FirstRefused(items, roots, e)
  }

  lemma FilteredAnswers(items: Items, roots: seq<string>)
    ensures Answers(items, roots, Filtered(items, roots))
  {
    var bad := Offenders(items, roots);
    forall path | path in items
      ensures path in bad <==> Refused(path, items[path], roots)
      ensures Excluded(path, items[path], roots) <==> !Supported(path, items[path], roots)
      ensures Left(path, items[path], roots, Pruned(path, items[path], roots))
    {
      RefusedExact(path, items, roots);
      NamesExact(path, items[path], roots);
      PrunedLeft(path, items[path], roots);
    }
    if bad != {} {
      var first := Least(bad);
      assert first in bad;
      FaultExact(first, items[first], roots);
    }
  }

  /** Without roots the filter gives the items back, if none holds an unresolved identity. */
  lemma NothingExperimental(items: Items)
    requires forall path, m :: path in items ==> !Unidentified(Obj(items[path]), m)
    ensures Filtered(items, []) == Ok(items)
  {
    FilteredAnswers(items, []);
    forall path | path in items
      ensures Supported(path, items[path], []) && !Refused(path, items[path], [])
      ensures forall left :: Left(path, items[path], [], left) ==> left == items[path]
    {
      LeftWhole(path, items[path]);
      forall left | Left(path, items[path], [], left) ensures left == items[path] {
        LeftUnique(path, items[path], [], left, items[path]);
      }
    }
    var r := Filtered(items, []);
    if r.Ok? { assert r.value == items; }
  }

  method FilterSupportedItems(items: Items, roots: seq<string>) returns (r: Result<Items, FilterError>)
    ensures r == Filtered(items, roots)
    ensures Answers(items, roots, r)
  {
    var supported: Items := map[];
    var paths := SortedKeys(items.Keys);
    ghost var done: set<string> := {};
    for n := 0 to |paths|
      invariant done == set k | 0 <= k < n :: paths[k]
      invariant Sifted(items, roots, done, supported)
    {
      assert paths[n] in paths;
      var fault, next := Sift(items, roots, done, supported, paths[n]);
      if fault.Some? {
        assert forall k :: 0 <= k < n ==> paths[k] in done;
        FirstOffender(items, roots, paths, n);
        FilteredAnswers(items, roots);
        return Err(fault.value);
      }
      supported := next;
      done := done + {paths[n]};
    }
    assert done == items.Keys;
    AllSifted(items, roots, supported);
    FilteredAnswers(items, roots);
    return Ok(supported);
  }

  // ---- filtering in stages ---------------------------------------------------------------------

  predicate Includes(more: seq<string>, roots: seq<string>) { forall r :: r in roots ==> r in more }

  lemma BelowMore(path: string, roots: seq<string>, more: seq<string>)
    requires Includes(more, roots) && BelowAny(path, roots)
    ensures BelowAny(path, more)
  {
    var k :| 0 <= k < |roots| && Below(path, roots[k]);
    assert roots[k] in more;
  }

  lemma ValueStages(path: string, definition: string, key: string, value: Json, roots: seq<string>, more: seq<string>)
    requires Includes(more, roots)
    ensures PrunedValue(path, definition, key, PrunedValue(path, definition, key, value, roots), more)
         == PrunedValue(path, definition, key, value, more)
  {
    forall p | BelowAny(p, roots) ensures BelowAny(p, more) { BelowMore(p, roots, more); }
  }

  lemma RecordStages(path: string, record: Record, roots: seq<string>, more: seq<string>)
    requires Includes(more, roots)
    ensures Pruned(path, Pruned(path, record, roots), more) == Pruned(path, record, more)
  {
    PrunedDefinition(path, record, roots);
    var definition := Definition(path, record);
    forall key | key in record
      ensures PrunedValue(path, definition, key, PrunedValue(path, definition, key, record[key], roots), more)
           == PrunedValue(path, definition, key, record[key], more)
    {
      ValueStages(path, definition, key, record[key], roots, more);
    }
  }

  lemma ShownStages(items: Items, roots: seq<string>, more: seq<string>)
    requires Includes(more, roots)
    ensures Shown(Shown(items, roots), more) == Shown(items, more)
    ensures Offenders(Shown(items, roots), more) == Offenders(items, more)
  {
    var kept := Shown(items, roots);
    forall path | path in items
      ensures !Excluded(path, items[path], more) ==> path in kept
      ensures path in kept ==>
                && (Excluded(path, kept[path], more) <==> Excluded(path, items[path], more))
                && Pruned(path, kept[path], more) == Pruned(path, items[path], more)
                && Fault(path, kept[path], more) == Fault(path, items[path], more)
    {
      PathStages(items, roots, more, path);
    }
  }

  lemma PathStages(items: Items, roots: seq<string>, more: seq<string>, path: string)
    requires Includes(more, roots) && path in items
    ensures var kept := Shown(items, roots);
            && (!Excluded(path, items[path], more) ==> path in kept)
            && (path in kept ==>
                  && (Excluded(path, kept[path], more) <==> Excluded(path, items[path], more))
                  && Pruned(path, kept[path], more) == Pruned(path, items[path], more)
                  && Fault(path, kept[path], more) == Fault(path, items[path], more))
  {
    if Excluded(path, items[path], roots) {
      if BelowAny(path, roots) { BelowMore(path, roots, more); }
      else { BelowMore(Definition(path, items[path]), roots, more); }
    } else {
      PrunedDefinition(path, items[path], roots);
      RecordStages(path, items[path], roots, more);
    }
  }

  /** Filtering in stages is filtering once: refiltering an output with the same roots or more gives
      exactly what filtering the original with those roots gives, errors included. */
  lemma FilterInStages(items: Items, roots: seq<string>, more: seq<string>)
    requires Includes(more, roots) && Filtered(items, roots).Ok?
    ensures Filtered(Filtered(items, roots).value, more) == Filtered(items, more)
  {
    ShownStages(items, roots, more);
    var bad := Offenders(items, more);
    if bad != {} { PathStages(items, roots, more, Least(bad)); }
  }

  lemma FilterIdempotent(items: Items, roots: seq<string>)
    requires Filtered(items, roots).Ok?
    ensures Filtered(Filtered(items, roots).value, roots) == Filtered(items, roots)
  {
    FilterInStages(items, roots, roots);
  }

  /** More roots keep fewer paths, and of each path no more. */
  lemma MoreRootsKeepLess(items: Items, roots: seq<string>, more: seq<string>)
    requires Includes(more, roots) && Filtered(items, roots).Ok? && Filtered(items, more).Ok?
    ensures var less, all := Filtered(items, more).value, Filtered(items, roots).value;
            && less.Keys <= all.Keys
            && (forall path :: path in less ==> less[path] == Pruned(path, all[path], more))
  {
    FilterInStages(items, roots, more);
  }
}
