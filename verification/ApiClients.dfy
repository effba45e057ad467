/** What downstream code relies on, and why the compatibility relation is exactly the promise that
    it keeps working. */
module ApiClients {
  import opened Wrappers
  import opened Json
  import opened ApiCompat
  import opened ApiDocuments

  /** What a client may assume of one variant, reserved or not. */
  datatype VariantFact =
    | HasAttrs(attrs: Json)
    | HasDiscriminant(value: Json)
    | IsTuple
    | TupleField(index: nat, ty: Json)
    | IsStruct
    | NamedField(name: string, ty: Json)
    | Hides(stripped: Json)
    | IsPlain(kind: Json)

  /** One way of using one item. */
  datatype Use =
    | Rely(key: string, value: Option<Json>)          // its kind, signature, generics, ... or their absence
    | ReadField(field: string, ty: Json)              // of a struct or union
    | Literal(fields: Record)                         // a struct literal or pattern without `..`
    | WholeVariant(variant: string, record: Json)     // built, or matched with every field named
    | RelyVariant(variant: string, fact: VariantFact) // a pattern with `..`, a cast, ...
    | Match(arms: set<string>)                        // without a wildcard arm
    | Implement(supplied: map<string, Record>)        // an impl leaving out only defaulted items
    | UseMember(member: string, signature: Record)    // a trait item
    | ListAssociated(names: set<string>)              // all associated types spelled out
    | AsObject                                        // behind `dyn`
    | UseImpl(key: string, record: Json)              // a trait implementation

  predicate TupleKind(kind: Json) { kind.Obj? && "tuple" in kind.fields }

  predicate StructKind(kind: Json) { kind.Obj? && "struct" in kind.fields }

  predicate FactHolds(v: Record, fact: VariantFact) {
    var kind := KindOf(v);
    match fact
    case HasAttrs(attrs) => GetOr(v, "attrs", Arr([])) == attrs
    case HasDiscriminant(value) => GetOr(v, "discriminant", Null) == value
    case IsTuple => TupleKind(kind)
    case TupleField(index, ty) =>
      TupleKind(kind) && index < |Elements(kind.fields["tuple"])| && Elements(kind.fields["tuple"])[index] == ty
    case IsStruct => StructKind(kind)
    case NamedField(name, ty) =>
      StructKind(kind)
      && var named := Children(Fields(kind.fields["struct"]), "fields"); name in named && named[name] == ty
    case Hides(stripped) =>
      StructKind(kind) && GetOr(Fields(kind.fields["struct"]), "has_stripped_fields", Bool(false)) == stripped
    case IsPlain(k) => !TupleKind(kind) && !StructKind(kind) && kind == k
  }

  /** An associated type, for which a default is no help to a client that lists them all. */
  predicate Associated(member: Record) { !IsKind(member, "function") && !IsKind(member, "assoc_const") }

  function AssociatedNames(members: Record): set<string> {
    set k | k in members && Associated(Fields(members[k]))
  }

  predicate Implements(members: Record, supplied: map<string, Record>) {
    && (forall k :: k in supplied ==> k in members && WithoutDefault(Fields(members[k])) == supplied[k])
    && (forall k :: k in members && !Flag(Fields(members[k]), "has_default") ==> k in supplied)
  }

  /** The use compiles against the item. */
  predicate Permits(item: Record, use: Use) {
    match use
    case Rely(key, value) =>
      key !in CHILD_KEYS && value == (if key in item then Some(item[key]) else None)
    case ReadField(field, ty) =>
      (IsKind(item, "struct") || IsKind(item, "union"))
      && var fields := Children(item, "fields"); field in fields && fields[field] == ty
    case Literal(fields) =>
      IsKind(item, "struct") && !Reserved(item) && !Flag(item, "has_stripped_fields")
      && Children(item, "fields") == fields
    case WholeVariant(variant, record) =>
      IsKind(item, "enum")
      && var vs := Children(item, "variants");
         variant in vs && !Reserved(Fields(vs[variant])) && Obj(Fields(vs[variant])) == record
    case RelyVariant(variant, fact) =>
      IsKind(item, "enum")
      && var vs := Children(item, "variants"); variant in vs && FactHolds(Fields(vs[variant]), fact)
    case Match(arms) =>
      IsKind(item, "enum") && !Reserved(item) && Children(item, "variants").Keys == arms
    case Implement(supplied) => IsKind(item, "trait") && Implements(Children(item, "items"), supplied)
    case UseMember(member, signature) =>
      IsKind(item, "trait")
      && var ms := Children(item, "items"); member in ms && WithoutDefault(Fields(ms[member])) == signature
    case ListAssociated(names) => IsKind(item, "trait") && AssociatedNames(Children(item, "items")) == names
    case AsObject => IsKind(item, "trait") && Flag(item, "is_dyn_compatible")
    case UseImpl(key, record) =>
      var impls := Children(item, "implementations"); key in impls && impls[key] == record
  }

  /** A variant is a tuple or a struct or neither. */
  predicate ShapedVariant(v: Record) { !(TupleKind(KindOf(v)) && StructKind(KindOf(v))) }

  predicate ShapedVariants(vs: Record) { forall k :: k in vs ==> ShapedVariant(Fields(vs[k])) }

  predicate Shaped(item: Record) { ShapedVariants(Children(item, "variants")) }

  ghost predicate AllKept(base: Record, cand: Record) {
    forall use :: Permits(base, use) ==> Permits(cand, use)
  }

  // ---- soundness -------------------------------------------------------------------------------

  lemma FactKept(base: Record, cand: Record, fact: VariantFact)
    requires ShapedVariant(base) && VariantKept(base, cand) && FactHolds(base, fact)
    ensures FactHolds(cand, fact)
  {}

  /** A client's use of an item survives every accepted change to it. */
  lemma UseSurvives(base: Record, cand: Record, use: Use)
    requires Shaped(base) && ItemKept(base, cand) && Permits(base, use)
    ensures Permits(cand, use)
  {
    HeaderKeys(base, cand);
    match use
    case Rely(key, _) => CommonGet(base, cand, key);
    case RelyVariant(variant, fact) =>
      FactKept(Fields(Children(base, "variants")[variant]), Fields(Children(cand, "variants")[variant]), fact);
    case Implement(supplied) => ImplementSurvives(base, cand, supplied);
    case ListAssociated(_) => AssociatedSurvive(Children(base, "items"), Children(cand, "items"));
    case _ =>
  }

  lemma ImplementSurvives(base: Record, cand: Record, supplied: map<string, Record>)
    requires TraitKept(base, cand) && Implements(Children(base, "items"), supplied)
    ensures Implements(Children(cand, "items"), supplied)
  {}

  lemma MemberKind(a: Record, b: Record)
    requires WithoutDefault(a) == WithoutDefault(b)
    ensures KindOf(a) == KindOf(b)
  {
    assert "kind" in a <==> "kind" in WithoutDefault(a);
    assert "kind" in b <==> "kind" in WithoutDefault(b);
    if "kind" in a { assert WithoutDefault(a)["kind"] == WithoutDefault(b)["kind"]; }
  }

  lemma AssociatedSurvive(base: Record, cand: Record)
    requires ChildrenKept(Member, base, cand)
    requires forall k :: k in cand && k !in base ==> Optional(Fields(cand[k]))
    ensures AssociatedNames(base) == AssociatedNames(cand)
  {
    forall k | k in base ensures Associated(Fields(base[k])) <==> Associated(Fields(cand[k])) {
      MemberKind(Fields(base[k]), Fields(cand[k]));
    }
  }

  // ---- completeness ----------------------------------------------------------------------------

  lemma CommonForced(base: Record, cand: Record)
    requires AllKept(base, cand)
    ensures Common(base) == Common(cand)
  {
    forall key | key !in CHILD_KEYS
      ensures key in base <==> key in cand
      ensures key in base ==> base[key] == cand[key]
    {
      assert Permits(base, Rely(key, if key in base then Some(base[key]) else None));
    }
  }

  lemma FieldsForced(base: Record, cand: Record)
    requires AllKept(base, cand) && (IsKind(base, "struct") || IsKind(base, "union"))
    ensures ChildrenKept(Field, Children(base, "fields"), Children(cand, "fields"))
    ensures IsKind(base, "struct") ==> StructKept(base, cand)
  {
    var fields := Children(base, "fields");
    forall f | f in fields ensures f in Children(cand, "fields") && Children(cand, "fields")[f] == fields[f] {
      assert Permits(base, ReadField(f, fields[f]));
    }
    if IsKind(base, "struct") && !Reserved(base) && !Flag(base, "has_stripped_fields") {
      assert Permits(base, Literal(fields));
    }
  }

  lemma KindForced(base: Record, cand: Record)
    requires ShapedVariant(base) && forall fact :: FactHolds(base, fact) ==> FactHolds(cand, fact)
    ensures KindKept(KindOf(base), KindOf(cand))
  {
    var kind := KindOf(base);
    if TupleKind(kind) {
      assert FactHolds(base, IsTuple);
      var es := Elements(kind.fields["tuple"]);
      forall n | 0 <= n < |es|
        ensures n < |Elements(KindOf(cand).fields["tuple"])| && Elements(KindOf(cand).fields["tuple"])[n] == es[n]
      {
        assert FactHolds(base, TupleField(n, es[n]));
      }
      var now := Elements(KindOf(cand).fields["tuple"]);
      if es != [] { assert FactHolds(base, TupleField(|es| - 1, es[|es| - 1])); }
      assert now[..|es|] == es;
    } else if StructKind(kind) {
      assert FactHolds(base, IsStruct);
      var detail := Fields(kind.fields["struct"]);
      assert FactHolds(base, Hides(GetOr(detail, "has_stripped_fields", Bool(false))));
      forall f | f in Children(detail, "fields")
        ensures var now := Children(Fields(KindOf(cand).fields["struct"]), "fields");
                f in now && now[f] == Children(detail, "fields")[f]
      {
        assert FactHolds(base, NamedField(f, Children(detail, "fields")[f]));
      }
    } else {
      assert FactHolds(base, IsPlain(kind));
    }
  }

  lemma VariantForced(base: Record, cand: Record, name: string)
    requires AllKept(base, cand) && IsKind(base, "enum") && Shaped(base) && name in Children(base, "variants")
    ensures name in Children(cand, "variants")
    ensures VariantKept(Fields(Children(base, "variants")[name]), Fields(Children(cand, "variants")[name]))
  {
    var v := Fields(Children(base, "variants")[name]);
    var attrs := HasAttrs(GetOr(v, "attrs", Arr([])));
    assert Permits(base, RelyVariant(name, attrs));
    var w := Fields(Children(cand, "variants")[name]);
    if Reserved(v) {
      forall fact | FactHolds(v, fact) ensures FactHolds(w, fact) {
        assert Permits(base, RelyVariant(name, fact));
      }
      assert FactHolds(v, HasDiscriminant(GetOr(v, "discriminant", Null)));
      KindForced(v, w);
    } else {
      assert Permits(base, WholeVariant(name, Obj(v)));
    }
  }

  lemma EnumForced(base: Record, cand: Record)
    requires AllKept(base, cand) && IsKind(base, "enum") && Shaped(base)
    ensures EnumKept(base, cand)
  {
    forall name | name in Children(base, "variants")
      ensures name in Children(cand, "variants")
              && ChildKept(Variant, Children(base, "variants")[name], Children(cand, "variants")[name])
    {
      VariantForced(base, cand, name);
    }
    if !Reserved(base) { assert Permits(base, Match(Children(base, "variants").Keys)); }
  }

  /** The least an implementor has to supply. */
  function Demanded(members: Record): map<string, Record> {
    map k | k in members && !Flag(Fields(members[k]), "has_default") :: WithoutDefault(Fields(members[k]))
  }

  lemma MembersForced(base: Record, cand: Record)
    requires AllKept(base, cand) && IsKind(base, "trait")
    ensures ChildrenKept(Member, Children(base, "items"), Children(cand, "items"))
  {
    var was, now := Children(base, "items"), Children(cand, "items");
    assert Permits(base, Implement(Demanded(was)));
    forall k | k in was ensures k in now && MemberKept(Fields(was[k]), Fields(now[k])) {
      assert Permits(base, UseMember(k, WithoutDefault(Fields(was[k]))));
      assert k in Demanded(was) <==> !Flag(Fields(was[k]), "has_default");
    }
  }

  lemma TraitForced(base: Record, cand: Record)
    requires AllKept(base, cand) && IsKind(base, "trait")
    ensures TraitKept(base, cand)
  {
    var was, now := Children(base, "items"), Children(cand, "items");
    MembersForced(base, cand);
    assert Permits(base, Implement(Demanded(was)));
    assert Permits(base, ListAssociated(AssociatedNames(was)));
    forall k | k in now && k !in was ensures Optional(Fields(now[k])) {
      assert k !in Demanded(was) && k !in AssociatedNames(was);
    }
    if Flag(base, "is_dyn_compatible") { assert Permits(base, AsObject); }
  }

  lemma ImplementationsForced(base: Record, cand: Record)
    requires AllKept(base, cand)
    ensures ChildrenKept(Implementation, Children(base, "implementations"), Children(cand, "implementations"))
  {
    var impls := Children(base, "implementations");
    forall k | k in impls
      ensures k in Children(cand, "implementations") && Children(cand, "implementations")[k] == impls[k]
    {
      assert Permits(base, UseImpl(k, impls[k]));
    }
  }

  /** The comparison accepts a change to an item exactly when no possible use of it breaks. */
  lemma KeptExactlyWhenUsesSurvive(base: Record, cand: Record)
    requires Shaped(base)
    ensures ItemKept(base, cand) <==> AllKept(base, cand)
  {
    if ItemKept(base, cand) {
      forall use | Permits(base, use) ensures Permits(cand, use) { UseSurvives(base, cand, use); }
    }
    if AllKept(base, cand) {
      CommonForced(base, cand);
      ImplementationsForced(base, cand);
      if IsKind(base, "struct") || IsKind(base, "union") { FieldsForced(base, cand); }
      if IsKind(base, "enum") { EnumForced(base, cand); }
      if IsKind(base, "trait") { TraitForced(base, cand); }
    }
  }

  // ---- packages --------------------------------------------------------------------------------

  predicate ShapedItems(items: Items) { forall path :: path in items ==> Shaped(items[path]) }

  /** The client names `path` and uses it. */
  predicate Compiles(items: Items, path: string, use: Use) { path in items && Permits(items[path], use) }

  /** A package keeps its promise exactly when every client that compiled still compiles. */
  lemma CompatibleExactlyWhenClientsCompile(base: Items, cand: Items)
    requires ShapedItems(base)
    ensures Compatible(base, cand) <==>
              forall path, use :: Compiles(base, path, use) ==> Compiles(cand, path, use)
  {
    if Compatible(base, cand) {
      forall path, use | Compiles(base, path, use) ensures Compiles(cand, path, use) {
        assert PathKept(base, cand, path);
        UseSurvives(base[path], cand[path], use);
      }
    }
    if forall path, use :: Compiles(base, path, use) ==> Compiles(cand, path, use) {
      forall path | path in base ensures PathKept(base, cand, path) {
        PathForced(base, cand, path);
      }
    }
  }

  lemma PathForced(base: Items, cand: Items, path: string)
    requires ShapedItems(base) && path in base
    requires forall path, use :: Compiles(base, path, use) ==> Compiles(cand, path, use)
    ensures PathKept(base, cand, path)
  {
    var kind := Rely("kind", if "kind" in base[path] then Some(base[path]["kind"]) else None);
    assert Compiles(base, path, kind);
    forall use | Permits(base[path], use) ensures Permits(cand[path], use) {
      assert Compiles(base, path, use);
    }
    KeptExactlyWhenUsesSurvive(base[path], cand[path]);
  }

  lemma CompatibleTransitive(a: Items, b: Items, c: Items)
    requires ShapedItems(a) && ShapedItems(b) && Compatible(a, b) && Compatible(b, c)
    ensures Compatible(a, c)
  {
    CompatibleExactlyWhenClientsCompile(a, b);
    CompatibleExactlyWhenClientsCompile(b, c);
    CompatibleExactlyWhenClientsCompile(a, c);
  }

  lemma CompatibleReflexive(items: Items)
    ensures Compatible(items, items)
  {
    forall path | path in items ensures PathKept(items, items, path) {
      assert forall kind: ChildKind, j: Json :: ChildKept(kind, j, j);
    }
  }

  // ---- documents -------------------------------------------------------------------------------

  predicate ShapedDocument(d: Document) {
    forall name :: name in d.packages ==> ShapedItems(d.packages[name].items)
  }

  /** A document is an update of itself exactly when it is a current baseline. */
  lemma AcceptsReflexive(d: Document, additive: bool)
    ensures Accepts(d, d, additive) <==> Current(d)
  {
    LooseReflexive(d.rustdoc);
    forall name | name in d.packages ensures PackageKept(d.packages[name], d.packages[name]) {
      LooseReflexive(d.packages[name].library);
      CompatibleReflexive(d.packages[name].items);
    }
  }

  lemma AcceptsTransitive(a: Document, b: Document, c: Document, additive: bool)
    requires ShapedDocument(a) && ShapedDocument(b)
    requires Accepts(a, b, additive) && Accepts(b, c, additive)
    ensures Accepts(a, c, additive)
  {
    LooseTransitive(a.rustdoc, b.rustdoc, c.rustdoc);
    forall name | name in a.packages ensures PackageKept(a.packages[name], c.packages[name]) {
      assert name in b.packages && name in c.packages;
      LooseTransitive(a.packages[name].library, b.packages[name].library, c.packages[name].library);
      CompatibleTransitive(a.packages[name].items, b.packages[name].items, c.packages[name].items);
    }
  }

  /** Each document of the history was accepted as an update of the one before. */
  predicate Rolled(history: seq<Document>) {
    && (forall k :: 0 <= k < |history| ==> ShapedDocument(history[k]))
    && (forall k :: 0 < k < |history| ==> Accepts(history[k - 1], history[k], true))
  }

  /** However often the baseline was rolled forward, the last document still has no problem
      against the first. */
  lemma {:induction false} RolledKeepsFirst(history: seq<Document>)
    requires |history| >= 2 && Rolled(history)
    ensures Accepts(history[0], history[|history| - 1], true)
  {
    var last := |history| - 1;
    if last > 1 {
      assert forall k :: 0 <= k < last ==> history[..last][k] == history[k];
      RolledKeepsFirst(history[..last]);
      AcceptsTransitive(history[0], history[last - 1], history[last], true);
    }
  }

  /** A client written against the first document compiles against the last. */
  lemma ClientsOutliveUpdates(history: seq<Document>, package: string, path: string, use: Use)
    requires |history| >= 2 && Rolled(history)
    requires package in history[0].packages && Compiles(history[0].packages[package].items, path, use)
    ensures var last := history[|history| - 1];
            package in last.packages && Compiles(last.packages[package].items, path, use)
  {
    RolledKeepsFirst(history);
    var first, last := history[0], history[|history| - 1];
    assert package in last.packages;
    CompatibleExactlyWhenClientsCompile(first.packages[package].items, last.packages[package].items);
  }

  /** Why variants must be shaped: one that is both a tuple and a struct links two that are not
      compatible with each other. */
  lemma UnshapedVariantBreaksTheChain() returns (a: Record, b: Record, c: Record)
    ensures VariantKept(a, b) && VariantKept(b, c) && !VariantKept(a, c)
    ensures ShapedVariant(a) && !ShapedVariant(b) && ShapedVariant(c)
  {
    var attrs := Arr([Str("non_exhaustive")]);
    var empty := Obj(map["fields" := Obj(map[])]);
    a := map["attrs" := attrs, "kind" := Obj(map["tuple" := Arr([])])];
    b := map["attrs" := attrs, "kind" := Obj(map["tuple" := Arr([]), "struct" := empty])];
    c := map["attrs" := attrs, "kind" := Obj(map["struct" := empty])];
    assert "tuple" in KindOf(a).fields && "tuple" !in KindOf(c).fields;
  }
}
