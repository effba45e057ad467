/** The compatibility relation between two API documents, and the comparison that decides it. */
module ApiCompat {
  import opened Wrappers
  import opened KeyOrder
  import opened Json

  // ---- reading records -----------------------------------------------------------------------

  function GetOr(r: Record, key: string, default: Json): Json { if key in r then r[key] else default }

  function Fields(j: Json): Record { if j.Obj? then j.fields else map[] }

  function Elements(j: Json): seq<Json> { if j.Arr? then j.elements else [] }

  function Children(r: Record, key: string): Record { Fields(GetOr(r, key, Obj(map[]))) }

  predicate Truth(j: Json) {
    match j
    case Null => false
    case Bool(b) => b
    case Int(i) => i != 0
    case Real(x) => x != 0.0
    case Str(s) => s != ""
    case Arr(es) => es != []
    case Obj(m) => m != map[]
  }

  predicate Flag(r: Record, key: string) { Truth(GetOr(r, key, Bool(false))) }

  function KindOf(r: Record): Json { GetOr(r, "kind", Null) }

  predicate IsKind(r: Record, kind: string) { KindOf(r) == Str(kind) }

  /** Marked `non_exhaustive`. */
  predicate Reserved(r: Record) { Str("non_exhaustive") in Elements(GetOr(r, "attrs", Arr([]))) }

  const CHILD_KEYS: set<string> :=
    {"variants", "fields", "items", "implementations", "has_stripped_fields", "is_dyn_compatible"}

  /** What must not change at all. */
  function Common(r: Record): Record { r - CHILD_KEYS }

  function WithoutDefault(r: Record): Record { r - {"has_default"} }

  function Put(path: Path, d: Option<Path>): Option<Path> {
    match d
    case None => None
    case Some(p) => Some(path + p)
  }

  // ---- variants ------------------------------------------------------------------------------

  /** The first old field that is missing or changed. */
  function FirstLost(base: Record, cand: Record, keys: seq<string>): Option<Path>
    requires forall k :: k in keys ==> k in base
  {
    if keys == [] then None
    else
      var k := keys[0];
      if k !in cand then Some([Key(k)])
      else
        var d := FirstDifference(base[k], cand[k]);
        if d.Some? then Under(Key(k), d) else FirstLost(base, cand, keys[1..])
  }

  function KindDifference(base: Json, cand: Json): Option<Path> {
    if base.Obj? && cand.Obj? && "tuple" in base.fields && "tuple" in cand.fields then
      var was, now := Elements(base.fields["tuple"]), Elements(cand.fields["tuple"]);
      if |now| < |was| then Some([Key("tuple")])
      else Under(Key("tuple"), FirstDifference(Arr(was), Arr(now[..|was|])))
    else if base.Obj? && cand.Obj? && "struct" in base.fields && "struct" in cand.fields then
      var was, now := Fields(base.fields["struct"]), Fields(cand.fields["struct"]);
      var hidden := FirstDifference(GetOr(was, "has_stripped_fields", Bool(false)),
                                    GetOr(now, "has_stripped_fields", Bool(false)));
      if hidden.Some? then Put([Key("struct"), Key("has_stripped_fields")], hidden)
      else
        var a, b := Children(was, "fields"), Children(now, "fields");
        Put([Key("struct"), Key("fields")], FirstLost(a, b, SortedKeys(a.Keys)))
    else FirstDifference(base, cand)
  }

  /** One enum variant against its successor; only its own reservation excuses additions. */
  function VariantDifference(base: Record, cand: Record): Option<Path> {
    if !Reserved(base) then Under(Key("variant"), FirstDifference(Obj(base), Obj(cand)))
    else
      var attrs := FirstDifference(GetOr(base, "attrs", Arr([])), GetOr(cand, "attrs", Arr([])));
      var discriminant := FirstDifference(GetOr(base, "discriminant", Null), GetOr(cand, "discriminant", Null));
      if attrs.Some? then Put([Key("variant"), Key("attrs")], attrs)
      else if discriminant.Some? then Put([Key("variant"), Key("discriminant")], discriminant)
      else Put([Key("variant"), Key("kind")], KindDifference(KindOf(base), KindOf(cand)))
  }

  /** A new default relieves implementors; a lost one does not. */
  function MemberDifference(base: Record, cand: Record): Option<Path> {
    if Flag(base, "has_default") && !Flag(cand, "has_default") then Some([Key("trait item"), Key("has_default")])
    else Under(Key("trait item"), FirstDifference(Obj(WithoutDefault(base)), Obj(WithoutDefault(cand))))
  }

  // ---- the relation ----------------------------------------------------------------------------

  predicate Submap(base: Record, cand: Record) { forall k :: k in base ==> k in cand && cand[k] == base[k] }

  predicate KindKept(base: Json, cand: Json) {
    if base.Obj? && cand.Obj? && "tuple" in base.fields && "tuple" in cand.fields then
      Elements(base.fields["tuple"]) <= Elements(cand.fields["tuple"])
    else if base.Obj? && cand.Obj? && "struct" in base.fields && "struct" in cand.fields then
      var was, now := Fields(base.fields["struct"]), Fields(cand.fields["struct"]);
      && GetOr(was, "has_stripped_fields", Bool(false)) == GetOr(now, "has_stripped_fields", Bool(false))
      && Submap(Children(was, "fields"), Children(now, "fields"))
    else base == cand
  }

  predicate VariantKept(base: Record, cand: Record) {
    if !Reserved(base) then base == cand
    else
      && GetOr(base, "attrs", Arr([])) == GetOr(cand, "attrs", Arr([]))
      && GetOr(base, "discriminant", Null) == GetOr(cand, "discriminant", Null)
      && KindKept(KindOf(base), KindOf(cand))
  }

  predicate MemberKept(base: Record, cand: Record) {
    && (Flag(base, "has_default") ==> Flag(cand, "has_default"))
    && WithoutDefault(base) == WithoutDefault(cand)
  }

  datatype ChildKind = Field | Variant | Member | Implementation

  predicate ChildKept(kind: ChildKind, base: Json, cand: Json) {
    match kind
    case Field => base == cand
    case Variant => VariantKept(Fields(base), Fields(cand))
    case Member => MemberKept(Fields(base), Fields(cand))
    case Implementation => base == cand
  }

  predicate ChildrenKept(kind: ChildKind, base: Record, cand: Record) {
    forall k :: k in base ==> k in cand && ChildKept(kind, base[k], cand[k])
  }

  predicate StructKept(base: Record, cand: Record) {
    && ChildrenKept(Field, Children(base, "fields"), Children(cand, "fields"))
    && (!Reserved(base) && !Flag(base, "has_stripped_fields") ==>
          !Flag(cand, "has_stripped_fields") && Children(cand, "fields").Keys <= Children(base, "fields").Keys)
  }

  predicate EnumKept(base: Record, cand: Record) {
    && ChildrenKept(Variant, Children(base, "variants"), Children(cand, "variants"))
    && (!Reserved(base) ==> Children(cand, "variants").Keys <= Children(base, "variants").Keys)
  }

  /** A member that implementors written before it existed do not miss. */
  predicate Optional(member: Record) {
    (IsKind(member, "function") || IsKind(member, "assoc_const")) && Flag(member, "has_default")
  }

  predicate TraitKept(base: Record, cand: Record) {
    var was, now := Children(base, "items"), Children(cand, "items");
    && (Flag(base, "is_dyn_compatible") ==> Flag(cand, "is_dyn_compatible"))
    && ChildrenKept(Member, was, now)
    && (forall k :: k in now && k !in was ==> Optional(Fields(now[k])))
  }

  predicate ItemKept(base: Record, cand: Record) {
    && Common(base) == Common(cand)
    && (IsKind(base, "struct") ==> StructKept(base, cand))
    && (IsKind(base, "union") ==> ChildrenKept(Field, Children(base, "fields"), Children(cand, "fields")))
    && (IsKind(base, "enum") ==> EnumKept(base, cand))
    && (IsKind(base, "trait") ==> TraitKept(base, cand))
    && ChildrenKept(Implementation, Children(base, "implementations"), Children(cand, "implementations"))
  }

  type Items = map<string, Record>

  predicate PathKept(base: Items, cand: Items, path: string)
    requires path in base
  {
    path in cand && ItemKept(base[path], cand[path])
  }

  predicate Compatible(base: Items, cand: Items) {
    forall path :: path in base ==> PathKept(base, cand, path)
  }

  // ---- the differences decide the relation -----------------------------------------------------

  lemma {:induction false} FirstLostExact(base: Record, cand: Record, keys: seq<string>)
    requires forall k :: k in keys ==> k in base
    ensures FirstLost(base, cand, keys) == None <==> forall k :: k in keys ==> k in cand && cand[k] == base[k]
  {
    if keys != [] {
      if keys[0] in cand { FirstDifferenceExact(base[keys[0]], cand[keys[0]]); }
      FirstLostExact(base, cand, keys[1..]);
      assert forall k :: k in keys <==> k == keys[0] || k in keys[1..];
    }
  }

  lemma KindDifferenceExact(base: Json, cand: Json)
    ensures KindDifference(base, cand) == None <==> KindKept(base, cand)
  {
    if base.Obj? && cand.Obj? && "tuple" in base.fields && "tuple" in cand.fields {
      var was, now := Elements(base.fields["tuple"]), Elements(cand.fields["tuple"]);
      if |was| <= |now| { FirstDifferenceExact(Arr(was), Arr(now[..|was|])); }
    } else if base.Obj? && cand.Obj? && "struct" in base.fields && "struct" in cand.fields {
      var was, now := Fields(base.fields["struct"]), Fields(cand.fields["struct"]);
      FirstDifferenceExact(GetOr(was, "has_stripped_fields", Bool(false)),
                           GetOr(now, "has_stripped_fields", Bool(false)));
      FirstLostExact(Children(was, "fields"), Children(now, "fields"), SortedKeys(Children(was, "fields").Keys));
    } else {
      FirstDifferenceExact(base, cand);
    }
  }

  lemma VariantDifferenceExact(base: Record, cand: Record)
    ensures VariantDifference(base, cand) == None <==> VariantKept(base, cand)
  {
    if Reserved(base) {
      FirstDifferenceExact(GetOr(base, "attrs", Arr([])), GetOr(cand, "attrs", Arr([])));
      FirstDifferenceExact(GetOr(base, "discriminant", Null), GetOr(cand, "discriminant", Null));
      KindDifferenceExact(KindOf(base), KindOf(cand));
    } else {
      FirstDifferenceExact(Obj(base), Obj(cand));
    }
  }

  lemma MemberDifferenceExact(base: Record, cand: Record)
    ensures MemberDifference(base, cand) == None <==> MemberKept(base, cand)
  {
    FirstDifferenceExact(Obj(WithoutDefault(base)), Obj(WithoutDefault(cand)));
  }

  function ChildDifference(kind: ChildKind, base: Json, cand: Json): (d: Option<Path>)
    ensures d == None <==> ChildKept(kind, base, cand)
  {
    FirstDifferenceExact(base, cand);
    VariantDifferenceExact(Fields(base), Fields(cand));
    MemberDifferenceExact(Fields(base), Fields(cand));
    match kind
    case Field => Under(Key("type"), FirstDifference(base, cand))
    case Variant => VariantDifference(Fields(base), Fields(cand))
    case Member => MemberDifference(Fields(base), Fields(cand))
    case Implementation => Under(Key("implementation"), FirstDifference(base, cand))
  }

  // ---- the comparison --------------------------------------------------------------------------

  datatype What =
    | ChangedKind
    | LostReservation
    | AddedReservation
    | LostDyn
    | Changed(at: Path)
    | HiddenField
    | RemovedChild(kind: ChildKind, name: string)
    | ChangedChild(kind: ChildKind, name: string, at: Path)
    | AddedChildren(kind: ChildKind, names: seq<string>)
    | AddedRequired(name: string)

  /** What is held against one old child. */
  function Report(kind: ChildKind, base: Record, cand: Record, name: string): seq<What>
    requires name in base
  {
    if name !in cand then [RemovedChild(kind, name)]
    else
      match ChildDifference(kind, base[name], cand[name])
      case None => []
      case Some(at) => [ChangedChild(kind, name, at)]
  }

  function Reports(kind: ChildKind, base: Record, cand: Record, names: seq<string>): seq<What>
    requires forall k :: k in names ==> k in base
  {
    if names == [] then []
    else
      var last := |names| - 1;
      Reports(kind, base, cand, names[..last]) + Report(kind, base, cand, names[last])
  }

  /** Only lost or changed children are reported, and each of them is. */
  lemma {:induction false} ReportsExact(kind: ChildKind, base: Record, cand: Record, names: seq<string>)
    requires forall k :: k in names ==> k in base
    ensures forall w :: w in Reports(kind, base, cand, names) <==>
              exists k :: k in names && w in Report(kind, base, cand, k)
  {
    if names != [] {
      var last := |names| - 1;
      ReportsExact(kind, base, cand, names[..last]);
      assert names == names[..last] + [names[last]];
    }
  }

  lemma ReportEmpty(kind: ChildKind, base: Record, cand: Record, name: string)
    requires name in base
    ensures Report(kind, base, cand, name) == [] <==> name in cand && ChildKept(kind, base[name], cand[name])
  {}

  lemma ReportsEmpty(kind: ChildKind, base: Record, cand: Record, names: seq<string>)
    requires forall k :: k in names ==> k in base
    ensures Reports(kind, base, cand, names) == [] <==>
              forall k :: k in names ==> k in cand && ChildKept(kind, base[k], cand[k])
  {
    var all := Reports(kind, base, cand, names);
    ReportsExact(kind, base, cand, names);
    forall k | k in names ensures Report(kind, base, cand, k) == [] <==> k in cand && ChildKept(kind, base[k], cand[k]) {
      ReportEmpty(kind, base, cand, k);
    }
    if all != [] {
      var w := all[0];
      assert w in all;
      var k :| k in names && w in Report(kind, base, cand, k);
    }
    if k :| k in names && Report(kind, base, cand, k) != [] {
      assert Report(kind, base, cand, k)[0] in all;
    }
  }

  method ChildProblem(kind: ChildKind, base: Record, cand: Record, name: string) returns (problems: seq<What>)
    requires name in base
    ensures problems == Report(kind, base, cand, name)
  {
    if name !in cand { return [RemovedChild(kind, name)]; }
    var changed := ChildDifference(kind, base[name], cand[name]);
    return if changed.Some? then [ChangedChild(kind, name, changed.value)] else [];
  }

  /** The loop every kind of child goes through. */
  method ChildProblemsOver(kind: ChildKind, base: Record, cand: Record, names: seq<string>)
    returns (problems: seq<What>)
    requires forall k :: k in names ==> k in base
    ensures problems == Reports(kind, base, cand, names)
  {
    problems := [];
    for n := 0 to |names|
      invariant problems == Reports(kind, base, cand, names[..n])
    {
      assert names[..n + 1][..n] == names[..n] && names[n] in names;
      var found := ChildProblem(kind, base, cand, names[n]);
      problems := problems + found;
    }
    assert names[..|names|] == names;
  }

  method ChildProblems(kind: ChildKind, base: Record, cand: Record) returns (problems: seq<What>)
    ensures problems == Reports(kind, base, cand, SortedKeys(base.Keys))
    ensures problems == [] <==> ChildrenKept(kind, base, cand)
  {
    problems := ChildProblemsOver(kind, base, cand, SortedKeys(base.Keys));
    ReportsEmpty(kind, base, cand, SortedKeys(base.Keys));
  }

  /** Everything that keeps one item from being compared child by child. */
  method HeaderProblem(base: Record, cand: Record) returns (problem: Option<What>)
    ensures problem == None <==>
              Common(base) == Common(cand)
              && (IsKind(base, "trait") && Flag(base, "is_dyn_compatible") ==> Flag(cand, "is_dyn_compatible"))
  {
    HeaderKeys(base, cand);
    if !LooseEq(KindOf(base), KindOf(cand)) { return Some(ChangedKind); }
    if Reserved(base) && !Reserved(cand) { return Some(LostReservation); }
    if !Reserved(base) && Reserved(cand) { return Some(AddedReservation); }
    if IsKind(base, "trait") && Flag(base, "is_dyn_compatible") && !Flag(cand, "is_dyn_compatible") {
      return Some(LostDyn);
    }
    FirstDifferenceExact(Obj(Common(base)), Obj(Common(cand)));
    var difference := FirstDifference(Obj(Common(base)), Obj(Common(cand)));
    return if difference.Some? then Some(Changed(difference.value)) else None;
  }

  /** Kind and reservation are part of the common record. */
  lemma HeaderKeys(base: Record, cand: Record)
    ensures Common(base) == Common(cand) ==>
              LooseEq(KindOf(base), KindOf(cand)) && KindOf(base) == KindOf(cand) && (Reserved(base) <==> Reserved(cand))
  {
    if Common(base) == Common(cand) {
      CommonGet(base, cand, "kind");
      CommonGet(base, cand, "attrs");
      LooseReflexive(KindOf(base));
    }
  }

  lemma CommonGet(base: Record, cand: Record, key: string)
    requires Common(base) == Common(cand) && key !in CHILD_KEYS
    ensures key in base <==> key in cand
    ensures key in base ==> base[key] == cand[key]
  {
    assert key in base <==> key in Common(base);
    assert key in cand <==> key in Common(cand);
    if key in base { assert Common(base)[key] == Common(cand)[key]; }
  }

  /** The required ones among the added members `names`. */
  function Demands(cand: Record, names: seq<string>): seq<What>
    requires forall k :: k in names ==> k in cand
  {
    if names == [] then []
    else
      var last := |names| - 1;
      Demands(cand, names[..last])
      + (if Optional(Fields(cand[names[last]])) then [] else [AddedRequired(names[last])])
  }

  lemma {:induction false} DemandsExact(cand: Record, names: seq<string>)
    requires forall k :: k in names ==> k in cand
    ensures forall w :: w in Demands(cand, names) <==>
              w.AddedRequired? && w.name in names && !Optional(Fields(cand[w.name]))
  {
    if names != [] {
      var last := |names| - 1;
      DemandsExact(cand, names[..last]);
      assert names == names[..last] + [names[last]];
    }
  }

  lemma DemandsEmpty(cand: Record, names: seq<string>)
    requires forall k :: k in names ==> k in cand
    ensures Demands(cand, names) == [] <==> forall k :: k in names ==> Optional(Fields(cand[k]))
  {
    var all := Demands(cand, names);
    DemandsExact(cand, names);
    if all != [] { assert all[0] in all; }
    if k :| k in names && !Optional(Fields(cand[k])) { assert AddedRequired(k) in all; }
  }

  method AddedMembersOver(cand: Record, names: seq<string>) returns (problems: seq<What>)
    requires forall k :: k in names ==> k in cand
    ensures problems == Demands(cand, names)
  {
    problems := [];
    for n := 0 to |names|
      invariant problems == Demands(cand, names[..n])
    {
      assert names[..n + 1][..n] == names[..n] && names[n] in names;
      if !Optional(Fields(cand[names[n]])) { problems := problems + [AddedRequired(names[n])]; }
    }
    assert names[..|names|] == names;
  }

  method AddedMembers(base: Record, cand: Record) returns (problems: seq<What>)
    ensures problems == Demands(cand, SortedKeys(cand.Keys - base.Keys))
    ensures problems == [] <==> forall k :: k in cand && k !in base ==> Optional(Fields(cand[k]))
  {
    var names := SortedKeys(cand.Keys - base.Keys);
    problems := AddedMembersOver(cand, names);
    DemandsEmpty(cand, names);
    assert forall k :: k in names <==> k in cand && k !in base;
  }

  /** The added names, when there are any and nothing reserved the right to add them. */
  method Additions(kind: ChildKind, base: Record, cand: Record, reserved: bool) returns (problems: seq<What>)
    ensures problems == [] <==> reserved || cand.Keys <= base.Keys
    ensures problems != [] ==> problems == [AddedChildren(kind, SortedKeys(cand.Keys - base.Keys))]
  {
    var names := SortedKeys(cand.Keys - base.Keys);
    assert forall k :: k in cand && k !in base ==> k in names;
    assert names != [] ==> names[0] in names;
    return if names != [] && !reserved then [AddedChildren(kind, names)] else [];
  }

  method StructProblems(base: Record, cand: Record) returns (problems: seq<What>)
    ensures problems == [] <==> StructKept(base, cand)
  {
    var was, now := Children(base, "fields"), Children(cand, "fields");
    var hidden := !Flag(base, "has_stripped_fields") && Flag(cand, "has_stripped_fields") && !Reserved(base);
    var kept := ChildProblems(Field, was, now);
    var added := Additions(Field, was, now, Reserved(base) || Flag(base, "has_stripped_fields"));
    return (if hidden then [HiddenField] else []) + kept + added;
  }

  method EnumProblems(base: Record, cand: Record) returns (problems: seq<What>)
    ensures problems == [] <==> EnumKept(base, cand)
  {
    var was, now := Children(base, "variants"), Children(cand, "variants");
    var kept := ChildProblems(Variant, was, now);
    var added := Additions(Variant, was, now, Reserved(base));
    return kept + added;
  }

  method MemberProblems(base: Record, cand: Record) returns (problems: seq<What>)
    requires Flag(base, "is_dyn_compatible") ==> Flag(cand, "is_dyn_compatible")
    ensures problems == [] <==> TraitKept(base, cand)
  {
    var was, now := Children(base, "items"), Children(cand, "items");
    var kept := ChildProblems(Member, was, now);
    var added := AddedMembers(was, now);
    return kept + added;
  }

  /** The children of two items whose headers agree. */
  method BodyProblems(base: Record, cand: Record) returns (problems: seq<What>)
    requires Common(base) == Common(cand)
    requires IsKind(base, "trait") && Flag(base, "is_dyn_compatible") ==> Flag(cand, "is_dyn_compatible")
    ensures problems == [] <==> ItemKept(base, cand)
  {
    problems := [];
    if IsKind(base, "struct") {
      problems := StructProblems(base, cand);
    } else if IsKind(base, "union") {
      problems := ChildProblems(Field, Children(base, "fields"), Children(cand, "fields"));
    } else if IsKind(base, "enum") {
      problems := EnumProblems(base, cand);
    } else if IsKind(base, "trait") {
      problems := MemberProblems(base, cand);
    }
    var implementations := ChildProblems(
      Implementation, Children(base, "implementations"), Children(cand, "implementations"));
    problems := problems + implementations;
  }

  method ItemProblems(base: Record, cand: Record) returns (problems: seq<What>)
    ensures problems == [] <==> ItemKept(base, cand)
  {
    var header := HeaderProblem(base, cand);
    if header.Some? { return [header.value]; }
    problems := BodyProblems(base, cand);
  }

  // ---- packages --------------------------------------------------------------------------------

  predicate Below(path: string, root: string) { path == root || root + "::" <= path }

  predicate BelowAny(path: string, roots: seq<string>) {
    exists k :: 0 <= k < |roots| && Below(path, roots[k])
  }

  /** `allItems` also holds the candidate's Experimental items. */
  datatype Package = Package(library: Json, items: Items, allItems: Items, roots: seq<string>)

  datatype Problem =
    | Gone(path: string)
    | Reclassified(path: string)
    | Broken(path: string, what: What)

  /** Still public, but now at or below an Experimental root. */
  predicate Hidden(cand: Package, path: string) {
    path in cand.allItems
    && (BelowAny(path, cand.roots)
        || match GetOr(cand.allItems[path], "definition", Str(path))
           case Str(definition) => BelowAny(definition, cand.roots)
           case _ => false)
  }

  method PathProblems(base: Package, cand: Package, path: string) returns (problems: seq<Problem>)
    requires path in base.items
    ensures problems == [] <==> PathKept(base.items, cand.items, path)
    ensures forall p :: p in problems ==> p.path == path
    ensures Gone(path) in problems <==> path !in cand.items && !Hidden(cand, path)
    ensures Reclassified(path) in problems <==> path !in cand.items && Hidden(cand, path)
  {
    if path !in cand.items {
      return [if Hidden(cand, path) then Reclassified(path) else Gone(path)];
    }
    var found := ItemProblems(base.items[path], cand.items[path]);
    return seq(|found|, k requires 0 <= k < |found| => Broken(path, found[k]));
  }

  ghost predicate Named(problems: seq<Problem>, path: string) {
    exists p :: p in problems && p.path == path
  }

  /** `problems` name exactly the paths among `done` that are not kept, and say which of those are
      gone and which are now Experimental. */
  ghost predicate Told(base: Package, cand: Package, done: set<string>, problems: seq<Problem>)
    requires done <= base.items.Keys
  {
    forall path ::
      && (Named(problems, path) <==> path in done && !PathKept(base.items, cand.items, path))
      && (Reclassified(path) in problems <==> path in done && path !in cand.items && Hidden(cand, path))
      && (Gone(path) in problems <==> path in done && path !in cand.items && !Hidden(cand, path))
  }

  method TellNext(base: Package, cand: Package, ghost done: set<string>, before: seq<Problem>, path: string)
    returns (problems: seq<Problem>)
    requires path in base.items && path !in done && done <= base.items.Keys && Told(base, cand, done, before)
    ensures Told(base, cand, done + {path}, problems)
  {
    var found := PathProblems(base, cand, path);
    problems := before + found;
    assert found != [] ==> found[0] in problems;
    forall q ensures Named(problems, q) <==> Named(before, q) || (q == path && found != []) {
      if p :| p in before && p.path == q { assert p in problems; }
      if q == path && found != [] { assert found[0].path == q; }
    }
  }

  lemma ToldAll(base: Package, cand: Package, problems: seq<Problem>)
    requires Told(base, cand, base.items.Keys, problems)
    ensures problems == [] <==> Compatible(base.items, cand.items)
  {
    if problems != [] {
      assert problems[0] in problems && Named(problems, problems[0].path);
    } else {
      forall path | path in base.items ensures PathKept(base.items, cand.items, path) {
        assert !Named(problems, path);
      }
    }
  }

  method TellAll(base: Package, cand: Package, paths: seq<string>) returns (problems: seq<Problem>)
    requires forall k :: 0 <= k < |paths| ==> paths[k] in base.items
    requires forall j, k :: 0 <= j < k < |paths| ==> paths[j] != paths[k]
    ensures Told(base, cand, set k | 0 <= k < |paths| :: paths[k], problems)
  {
    problems := [];
    ghost var done: set<string> := {};
    for n := 0 to |paths|
      invariant done == set k | 0 <= k < n :: paths[k]
      invariant done <= base.items.Keys && Told(base, cand, done, problems)
    {
      problems := TellNext(base, cand, done, problems, paths[n]);
      done := done + {paths[n]};
    }
  }

  /** Every Supported path of the baseline that is not kept is reported, and no other is. */
  method CompatibilityProblems(base: Package, cand: Package) returns (problems: seq<Problem>)
    ensures problems == [] <==> Compatible(base.items, cand.items)
    ensures Told(base, cand, base.items.Keys, problems)
  {
    var paths := SortedKeys(base.items.Keys);
    assert forall k :: 0 <= k < |paths| ==> paths[k] in paths;
    problems := TellAll(base, cand, paths);
    assert (set k | 0 <= k < |paths| :: paths[k]) == base.items.Keys by {
      forall p | p in base.items ensures p in (set k | 0 <= k < |paths| :: paths[k]) { assert p in paths; }
    }
    ToldAll(base, cand, problems);
  }
}
