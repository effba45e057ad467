/** Single edits of an item, written out on the record itself, and exactly which of them the comparison
    accepts. */
module ApiEdits {
  import opened Wrappers
  import opened Json
  import opened ApiCompat

  /** The record's `attrs` list the attribute. */
  predicate NonExhaustive(r: Record) {
    "attrs" in r && r["attrs"].Arr? && Str("non_exhaustive") in r["attrs"].elements
  }

  /** A boolean entry that may be absent, as the extractor writes them. */
  predicate Switch(r: Record, key: string) { key in r ==> r[key].Bool? }

  predicate On(r: Record, key: string) { key in r && r[key] == Bool(true) }

  predicate OfKind(r: Record, kind: string) { "kind" in r && r["kind"] == Str(kind) }

  predicate HasTable(r: Record, key: string) { key in r && r[key].Obj? }

  /** The item with one entry more in one of its tables. */
  function Grown(r: Record, key: string, name: string, entry: Json): Record
    requires HasTable(r, key)
  {
    r[key := Obj(r[key].fields[name := entry])]
  }

  function Shrunk(r: Record, key: string, name: string): Record
    requires HasTable(r, key)
  {
    r[key := Obj(r[key].fields - {name})]
  }

  /** The six entries that are compared by rule; an edit elsewhere is an edit of something else. */
  const RULED: seq<string> :=
    ["variants", "fields", "items", "implementations", "has_stripped_fields", "is_dyn_compatible"]

  lemma CommonOnlyRuled(a: Record, b: Record)
    ensures Common(a) == Common(b) <==> forall key :: key !in RULED ==> (key in a <==> key in b) && (key in a ==> a[key] == b[key])
  {
    assert forall key :: key in RULED <==> key in CHILD_KEYS;
    if Common(a) == Common(b) {
      forall key | key !in RULED ensures (key in a <==> key in b) && (key in a ==> a[key] == b[key]) {
        assert key in Common(a) <==> key in a;
        assert key in Common(b) <==> key in b;
        if key in a { assert Common(a)[key] == a[key] && Common(b)[key] == b[key]; }
      }
    }
  }

  /** Any other entry that is changed, added or dropped is refused. */
  lemma OtherEntryRefused(base: Record, cand: Record, key: string)
    requires key !in RULED
    requires if key in base then key !in cand || cand[key] != base[key] else key in cand
    ensures !ItemKept(base, cand)
  {
    CommonOnlyRuled(base, cand);
  }

  /** What an item is otherwise decides which tables matter: those of another kind may hold anything. */
  lemma ForeignEntryIgnored(base: Record, key: string, value: Json)
    requires key in {"variants", "fields", "items", "has_stripped_fields", "is_dyn_compatible"}
    requires !OfKind(base, "struct") && !OfKind(base, "union") && !OfKind(base, "enum") && !OfKind(base, "trait")
    ensures ItemKept(base, base[key := value])
  {}

  /** A public field more: accepted exactly for a struct whose literal no client could write, and for any
      union. */
  lemma FieldAdded(base: Record, name: string, ty: Json)
    requires HasTable(base, "fields") && name !in base["fields"].fields && Switch(base, "has_stripped_fields")
    requires OfKind(base, "struct") || OfKind(base, "union")
    ensures ItemKept(base, Grown(base, "fields", name, ty))
       <==> OfKind(base, "union") || NonExhaustive(base) || On(base, "has_stripped_fields")
  {}

  /** A first hidden field: the same. */
  lemma FieldHidden(base: Record)
    requires OfKind(base, "struct") && Switch(base, "has_stripped_fields") && !On(base, "has_stripped_fields")
    ensures ItemKept(base, base["has_stripped_fields" := Bool(true)]) <==> NonExhaustive(base)
  {}

  /** A variant more: accepted exactly for a reserved enum. */
  lemma VariantAdded(base: Record, name: string, variant: Json)
    requires OfKind(base, "enum") && HasTable(base, "variants") && name !in base["variants"].fields
    ensures ItemKept(base, Grown(base, "variants", name, variant)) <==> NonExhaustive(base)
  {}

  /** A trait item more: accepted exactly if implementors need not write it. */
  lemma MemberAdded(base: Record, name: string, member: Record)
    requires OfKind(base, "trait") && HasTable(base, "items") && name !in base["items"].fields
    requires Switch(member, "has_default")
    ensures ItemKept(base, Grown(base, "items", name, Obj(member)))
       <==> (OfKind(member, "function") || OfKind(member, "assoc_const")) && On(member, "has_default")
  {}

  /** An implementation more is always accepted. */
  lemma ImplementationAdded(base: Record, name: string, implementation: Json)
    requires HasTable(base, "implementations") && name !in base["implementations"].fields
    ensures ItemKept(base, Grown(base, "implementations", name, implementation))
  {}

  /** Nothing that a client of its kind can name may go. */
  lemma ChildRemoved(base: Record, key: string, name: string)
    requires HasTable(base, key) && name in base[key].fields
    requires (OfKind(base, "struct") && key == "fields") || (OfKind(base, "union") && key == "fields")
             || (OfKind(base, "enum") && key == "variants") || (OfKind(base, "trait") && key == "items")
             || key == "implementations"
    ensures !ItemKept(base, Shrunk(base, key, name))
  {}

  /** A trait may become usable behind `dyn`, and may not cease to be. */
  lemma DynChanged(base: Record, now: bool)
    requires OfKind(base, "trait") && Switch(base, "is_dyn_compatible")
    ensures ItemKept(base, base["is_dyn_compatible" := Bool(now)]) <==> (On(base, "is_dyn_compatible") ==> now)
  {}

  /** A default of a trait item may be gained, and not lost. */
  lemma DefaultChanged(base: Record, name: string, member: Record, now: bool)
    requires OfKind(base, "trait") && HasTable(base, "items")
    requires name in base["items"].fields && base["items"].fields[name] == Obj(member) && Switch(member, "has_default")
    ensures ItemKept(base, Grown(base, "items", name, Obj(member["has_default" := Bool(now)])))
       <==> (On(member, "has_default") ==> now)
  {}

  /** A field more of a tuple variant: accepted exactly if the variant itself is reserved. */
  lemma VariantFieldAdded(base: Record, name: string, variant: Record, fields: seq<Json>, ty: Json)
    requires OfKind(base, "enum") && HasTable(base, "variants")
    requires name in base["variants"].fields && base["variants"].fields[name] == Obj(variant)
    requires "kind" in variant && variant["kind"] == Obj(map["tuple" := Arr(fields)])
    ensures ItemKept(base, Grown(base, "variants", name, Obj(variant["kind" := Obj(map["tuple" := Arr(fields + [ty])])])))
       <==> NonExhaustive(variant)
  {
    var more := variant["kind" := Obj(map["tuple" := Arr(fields + [ty])])];
    var cand := Grown(base, "variants", name, Obj(more));
    CommonOnlyRuled(base, cand);
    assert Children(cand, "variants")[name] == Obj(more);
    assert |more["kind"].fields["tuple"].elements| == |variant["kind"].fields["tuple"].elements| + 1;
    assert more["kind"] != variant["kind"];
    assert fields <= fields + [ty];
    assert KindKept(KindOf(variant), KindOf(more));
  }
}
