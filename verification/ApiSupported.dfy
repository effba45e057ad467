/** The Supported part of an API, said of documents alone: what refers to what, what lies beneath an
    Experimental root, and what is left of an item without it. */
module ApiSupported {
  import opened Wrappers
  import opened Json

  /** The root itself or something in it. */
  ghost predicate Beneath(path: string, root: string) {
    path == root || exists rest :: path == root + "::" + rest
  }

  ghost predicate Experimental(path: string, roots: seq<string>) {
    exists root :: root in roots && Beneath(path, root)
  }

  /** The value at a position. */
  function ValueAt(value: Json, at: Path): Option<Json>
    decreases |at|
  {
    if at == [] then Some(value)
    else
      match at[0]
      case Key(k) => if value.Obj? && k in value.fields then ValueAt(value.fields[k], at[1..]) else None
      case At(i) => if value.Arr? && i < |value.elements| then ValueAt(value.elements[i], at[1..]) else None
  }

  predicate Resolves(value: Json, path: string) {
    value.Obj? && "resolved" in value.fields && value.fields["resolved"] == Str(path)
  }

  /** `part` stands somewhere in the value. */
  ghost predicate Occurs(value: Json, part: Json) { exists at: Path :: ValueAt(value, at) == Some(part) }

  /** Somewhere in the value stands an object that resolves to this path. */
  ghost predicate Refers(value: Json, path: string) {
    exists part :: Occurs(value, part) && Resolves(part, path)
  }

  ghost predicate Unidentified(value: Json, marker: string) {
    "unresolved::" <= marker && Occurs(value, Str(marker))
  }

  /** The paths a record goes by: its own and that of its definition. */
  predicate GoesBy(path: string, record: Record, id: string) {
    id == path || ("definition" in record && record["definition"] == Str(id))
  }

  /** None of them lies beneath a root. */
  ghost predicate Supported(path: string, record: Record, roots: seq<string>) {
    forall id :: GoesBy(path, record, id) ==> !Experimental(id, roots)
  }

  ghost predicate ChildSupported(path: string, record: Record, name: string, roots: seq<string>) {
    forall id :: GoesBy(path, record, id) ==> !Experimental(id + "::" + name, roots)
  }

  /** The header of an implementation refers to this path. */
  ghost predicate HeaderRefers(implementation: Json, path: string) {
    implementation.Obj? && exists key :: key in {"trait", "for", "generics"} && key in implementation.fields
                                      && Refers(implementation.fields[key], path)
  }

  ghost predicate HeaderSupported(implementation: Json, roots: seq<string>) {
    forall p :: HeaderRefers(implementation, p) ==> !Experimental(p, roots)
  }

  /** Which entry of a child table stays. */
  ghost predicate EntryStays(
    path: string, record: Record, key: string, name: string, entry: Json, roots: seq<string>)
  {
    if key == "implementations" then HeaderSupported(entry, roots)
    else ChildSupported(path, record, name, roots)
  }

  const CHILD_TABLES: set<string> := {"variants", "items", "implementations"}

  /** `left` is the record without its Experimental children: every supported variant, item and
      implementation is there unchanged, no other is, and everything else is as it was. */
  ghost predicate Left(path: string, record: Record, roots: seq<string>, left: Record) {
    && left.Keys == record.Keys
    && forall key :: key in record ==> ValueLeft(path, record, key, roots, left[key])
  }

  ghost predicate ValueLeft(path: string, record: Record, key: string, roots: seq<string>, now: Json)
    requires key in record
  {
    if key in CHILD_TABLES && record[key].Obj? then
      && now.Obj? && now.fields.Keys <= record[key].fields.Keys
      && forall name :: name in record[key].fields ==>
           var entry := record[key].fields[name];
           if EntryStays(path, record, key, name, entry, roots) then name in now.fields && now.fields[name] == entry
           else name !in now.fields
    else now == record[key]
  }

  /** What is left still holds an unresolved identity, or refers to something Experimental elsewhere
      than as its definition. */
  ghost predicate Faulty(left: Record, roots: seq<string>) {
    || (exists marker :: Unidentified(Obj(left), marker))
    || exists p :: Refers(Obj(left - {"definition"}), p) && Experimental(p, roots)
  }

  /** The filter has to refuse this path. */
  ghost predicate Refused(path: string, record: Record, roots: seq<string>) {
    Supported(path, record, roots) && exists left :: Left(path, record, roots, left) && Faulty(left, roots)
  }

  /** What occurs in a value is the value, or occurs in one of its elements or fields. */
  lemma OccursInside(value: Json, part: Json)
    ensures Occurs(value, part)
       <==> || part == value
            || (value.Arr? && exists k :: 0 <= k < |value.elements| && Occurs(value.elements[k], part))
            || (value.Obj? && exists k :: k in value.fields && Occurs(value.fields[k], part))
  {
    if part == value { assert ValueAt(value, []) == Some(value); }
    if Occurs(value, part) && part != value {
      var at: Path :| ValueAt(value, at) == Some(part);
      assert at != [];
      match at[0]
      case Key(k) => assert ValueAt(value.fields[k], at[1..]) == Some(part);
      case At(i) => assert ValueAt(value.elements[i], at[1..]) == Some(part);
    }
    if value.Arr? {
      if k :| 0 <= k < |value.elements| && Occurs(value.elements[k], part) {
        var at: Path :| ValueAt(value.elements[k], at) == Some(part);
        assert ([At(k)] + at)[1..] == at;
        assert ValueAt(value, [At(k)] + at) == Some(part);
      }
    }
    if value.Obj? {
      if k :| k in value.fields && Occurs(value.fields[k], part) {
        var at: Path :| ValueAt(value.fields[k], at) == Some(part);
        assert ([Key(k)] + at)[1..] == at;
        assert ValueAt(value, [Key(k)] + at) == Some(part);
      }
    }
  }

  lemma LeftUnique(path: string, record: Record, roots: seq<string>, a: Record, b: Record)
    requires Left(path, record, roots, a) && Left(path, record, roots, b)
    ensures a == b
  {
    forall key | key in record ensures a[key] == b[key] {
      assert ValueLeft(path, record, key, roots, a[key]) && ValueLeft(path, record, key, roots, b[key]);
      if key in CHILD_TABLES && record[key].Obj? { assert a[key].fields == b[key].fields; }
    }
  }

  /** Without roots nothing is taken away. */
  lemma LeftWhole(path: string, record: Record)
    ensures Left(path, record, [], record) && Supported(path, record, [])
  {}
}
