/** `cfg` predicates: reading them from tokens, and the atoms they require. */
module CfgPredicates {
  import opened Wrappers

  datatype Node =
    | Atom(text: string)
    | All(children: seq<Node>)
    | Any(children: seq<Node>)
    | Not(child: Node)

  // ---- parsing ---------------------------------------------------------------------------------

  /** What the lexer yields: an operator, or a word or quoted string as written. */
  datatype Token = Open | Close | Comma | Equals | Text(text: string)

  function Spelling(t: Token): string {
    match t
    case Open => "("
    case Close => ")"
    case Comma => ","
    case Equals => "="
    case Text(s) => s
  }

  const ALL := Text("all")
  const ANY := Text("any")
  const NOT := Text("not")

  datatype ParseError = EndedEarly | Unclosed | NotTakesOne

  /** One predicate from `tokens`, and where it ended. */
  function Parse(tokens: seq<Token>, at: nat): (r: Result<(Node, nat), ParseError>)
    ensures r.Ok? ==> at < r.value.1 <= |tokens|
    decreases |tokens| - at, 0
  {
    if at >= |tokens| then Err(EndedEarly)
    else
      var head, next := tokens[at], at + 1;
      if (head == ALL || head == ANY || head == NOT) && next < |tokens| && tokens[next] == Open then
        match ParseChildren(tokens, next + 1)
        case Err(e) => Err(e)
        case Ok((children, end)) =>
          if head == NOT then
            if |children| != 1 then Err(NotTakesOne) else Ok((Not(children[0]), end))
          else Ok((if head == ALL then All(children) else Any(children), end))
      else if next + 1 < |tokens| && tokens[next] == Equals then
        Ok((Atom(Spelling(head) + " = " + Spelling(tokens[next + 1])), next + 2))
      else Ok((Atom(Spelling(head)), next))
  }

  function SkipComma(tokens: seq<Token>, at: nat): nat {
    if at < |tokens| && tokens[at] == Comma then at + 1 else at
  }

  /** The predicates up to the closing parenthesis, which is consumed. */
  function ParseChildren(tokens: seq<Token>, at: nat): (r: Result<(seq<Node>, nat), ParseError>)
    ensures r.Ok? ==> at < r.value.1 <= |tokens|
    decreases |tokens| - at, 1
  {
    if at >= |tokens| then Err(Unclosed)
    else if tokens[at] == Close then Ok(([], at + 1))
    else
      match Parse(tokens, at)
      case Err(e) => Err(e)
      case Ok((child, end)) =>
        match ParseChildren(tokens, SkipComma(tokens, end))
        case Err(e) => Err(e)
        case Ok((rest, close)) => Ok(([child] + rest, close))
  }

  // ---- printing --------------------------------------------------------------------------------

  /** A predicate as written: an atom is a word or `key = value`, and a list may end in a comma. */
  datatype Tree =
    | Word(word: string)
    | Pair(key: string, value: string)
    | AllOf(children: seq<Tree>, trailing: bool)
    | AnyOf(children: seq<Tree>, trailing: bool)
    | NotOf(child: Tree, trailing: bool)

  function Meaning(t: Tree): Node {
    match t
    case Word(w) => Atom(w)
    case Pair(k, v) => Atom(k + " = " + v)
    case AllOf(ts, _) => All(Meanings(ts))
    case AnyOf(ts, _) => Any(Meanings(ts))
    case NotOf(u, _) => Not(Meaning(u))
  }

  function Meanings(ts: seq<Tree>): seq<Node> {
    if ts == [] then [] else [Meaning(ts[0])] + Meanings(ts[1..])
  }

  function Print(t: Tree): seq<Token>
    decreases t, 0
  {
    match t
    case Word(w) => [Text(w)]
    case Pair(k, v) => [Text(k), Equals, Text(v)]
    case AllOf(ts, trailing) => [ALL, Open] + PrintList(ts, trailing) + [Close]
    case AnyOf(ts, trailing) => [ANY, Open] + PrintList(ts, trailing) + [Close]
    case NotOf(u, trailing) => [NOT, Open] + Print(u) + (if trailing then [Comma] else []) + [Close]
  }

  function PrintList(ts: seq<Tree>, trailing: bool): seq<Token>
    decreases ts, 1
  {
    if ts == [] then []
    else Print(ts[0]) + (if |ts| > 1 || trailing then [Comma] else []) + PrintList(ts[1..], trailing)
  }

  /** What may follow a predicate: nothing, a comma or the end of its list. */
  predicate Closes(tokens: seq<Token>, at: nat) {
    at == |tokens| || (at < |tokens| && (tokens[at] == Comma || tokens[at] == Close))
  }

  /** `part` stands in `tokens` at `at`. */
  predicate Stands(tokens: seq<Token>, at: nat, part: seq<Token>) {
    at + |part| <= |tokens| && tokens[at..at + |part|] == part
  }

  lemma StandsSplit(tokens: seq<Token>, at: nat, a: seq<Token>, b: seq<Token>)
    requires Stands(tokens, at, a + b)
    ensures Stands(tokens, at, a) && Stands(tokens, at + |a|, b)
  {
    assert tokens[at..at + |a + b|][..|a|] == a;
    assert tokens[at..at + |a + b|][|a|..] == b;
  }

  lemma StandsAt(tokens: seq<Token>, at: nat, part: seq<Token>, k: nat)
    requires Stands(tokens, at, part) && k < |part|
    ensures tokens[at + k] == part[k]
  {
    assert tokens[at..at + |part|][k] == part[k];
  }

  lemma PrintStart(t: Tree)
    ensures |Print(t)| > 0 && Print(t)[0] != Close
  {}

  /** Wherever a printed predicate stands, the parser reads exactly it and stops right behind it. */
  lemma {:induction false} ParsePrinted(t: Tree, tokens: seq<Token>, at: nat)
    requires Stands(tokens, at, Print(t)) && Closes(tokens, at + |Print(t)|)
    ensures Parse(tokens, at) == Ok((Meaning(t), at + |Print(t)|))
    decreases t, 0
  {
    match t
    case Word(_) => ParseAtom(t, tokens, at);
    case Pair(_, _) => ParseAtom(t, tokens, at);
    case AllOf(ts, trailing) => ParseListed(ALL, ts, trailing, tokens, at, t);
    case AnyOf(ts, trailing) => ParseListed(ANY, ts, trailing, tokens, at, t);
    case NotOf(u, trailing) => ParseNegated(u, trailing, tokens, at);
  }

  lemma ParseAtom(t: Tree, tokens: seq<Token>, at: nat)
    requires (t.Word? || t.Pair?) && Stands(tokens, at, Print(t)) && Closes(tokens, at + |Print(t)|)
    ensures Parse(tokens, at) == Ok((Meaning(t), at + |Print(t)|))
  {
    StandsAt(tokens, at, Print(t), 0);
    if t.Pair? {
      StandsAt(tokens, at, Print(t), 1);
      StandsAt(tokens, at, Print(t), 2);
    }
  }

  lemma {:induction false} ParseNegated(u: Tree, trailing: bool, tokens: seq<Token>, at: nat)
    requires Stands(tokens, at, Print(NotOf(u, trailing)))
    ensures Parse(tokens, at) == Ok((Not(Meaning(u)), at + |Print(NotOf(u, trailing))|))
    decreases u, 3
  {
    var printed := Print(NotOf(u, trailing));
    var comma := if trailing then [Comma] else [];
    assert printed == [NOT, Open] + (Print(u) + (comma + [Close]));
    HeadStands(NOT, Print(u) + (comma + [Close]), tokens, at);
    ParseOnly(u, comma, tokens, at + 2);
  }

  /** One child, its comma if any, and what stands behind them. */
  lemma ChildStands(u: Tree, comma: seq<Token>, rest: seq<Token>, tokens: seq<Token>, at: nat)
    requires Stands(tokens, at, Print(u) + (comma + rest))
    requires comma == [Comma] || (comma == [] && rest != [] && rest[0] == Close)
    ensures at < |tokens| && tokens[at] != Close
    ensures Stands(tokens, at, Print(u)) && Closes(tokens, at + |Print(u)|)
    ensures SkipComma(tokens, at + |Print(u)|) == at + |Print(u)| + |comma|
    ensures Stands(tokens, at + |Print(u)| + |comma|, rest)
  {
    PrintStart(u);
    PartsStand(Print(u), comma, rest, tokens, at);
  }

  lemma PartsStand(first: seq<Token>, comma: seq<Token>, rest: seq<Token>, tokens: seq<Token>, at: nat)
    requires first != [] && first[0] != Close && Stands(tokens, at, first + (comma + rest))
    requires comma == [Comma] || (comma == [] && rest != [] && rest[0] == Close)
    ensures at < |tokens| && tokens[at] != Close
    ensures Stands(tokens, at, first) && Closes(tokens, at + |first|)
    ensures SkipComma(tokens, at + |first|) == at + |first| + |comma|
    ensures Stands(tokens, at + |first| + |comma|, rest)
  {
    StandsSplit(tokens, at, first, comma + rest);
    StandsSplit(tokens, at + |first|, comma, rest);
    StandsAt(tokens, at + |first|, comma + rest, 0);
    StandsAt(tokens, at, first, 0);
  }

  lemma {:induction false} ParseChild(u: Tree, comma: seq<Token>, rest: seq<Token>, tokens: seq<Token>, at: nat)
    requires Stands(tokens, at, Print(u) + (comma + rest))
    requires comma == [Comma] || (comma == [] && rest != [] && rest[0] == Close)
    ensures at < |tokens| && tokens[at] != Close
    ensures Parse(tokens, at) == Ok((Meaning(u), at + |Print(u)|))
    ensures SkipComma(tokens, at + |Print(u)|) == at + |Print(u)| + |comma|
    ensures Stands(tokens, at + |Print(u)| + |comma|, rest)
    decreases u, 1
  {
    ChildStands(u, comma, rest, tokens, at);
    ParsePrinted(u, tokens, at);
  }

  /** The loop's step, once its child and the rest are known. */
  lemma ChildrenStep(tokens: seq<Token>, at: nat, child: Node, end: nat, rest: seq<Node>, close: nat)
    requires at < |tokens| && tokens[at] != Close && Parse(tokens, at) == Ok((child, end))
    requires ParseChildren(tokens, SkipComma(tokens, end)) == Ok((rest, close))
    ensures ParseChildren(tokens, at) == Ok(([child] + rest, close))
  {}

  function CommaAfter(ts: seq<Tree>, trailing: bool): seq<Token> { if |ts| > 1 || trailing then [Comma] else [] }

  lemma PrintListStep(ts: seq<Tree>, trailing: bool)
    requires ts != []
    ensures PrintList(ts, trailing) + [Close]
         == Print(ts[0]) + (CommaAfter(ts, trailing) + (PrintList(ts[1..], trailing) + [Close]))
    ensures CommaAfter(ts, trailing) == [] ==> PrintList(ts[1..], trailing) + [Close] == [Close]
  {}

  lemma PrintListLength(ts: seq<Tree>, trailing: bool)
    requires ts != []
    ensures |PrintList(ts, trailing)|
         == |Print(ts[0])| + |CommaAfter(ts, trailing)| + |PrintList(ts[1..], trailing)|
  {}

  lemma FirstStands(ts: seq<Tree>, trailing: bool, tokens: seq<Token>, at: nat)
    requires ts != [] && Stands(tokens, at, PrintList(ts, trailing) + [Close])
    ensures Stands(tokens, at, Print(ts[0]) + (CommaAfter(ts, trailing) + (PrintList(ts[1..], trailing) + [Close])))
  {
    PrintListStep(ts, trailing);
  }

  /** The first listed predicate is read up to `end`, and its comma, if any, up to `next`. */
  lemma {:induction false} ParseFirst(ts: seq<Tree>, trailing: bool, tokens: seq<Token>, at: nat)
    returns (end: nat, next: nat)
    requires ts != [] && Stands(tokens, at, PrintList(ts, trailing) + [Close])
    ensures at < |tokens| && tokens[at] != Close && Parse(tokens, at) == Ok((Meaning(ts[0]), end))
    ensures end == at + |Print(ts[0])| && next == SkipComma(tokens, end) == end + |CommaAfter(ts, trailing)|
    ensures Stands(tokens, next, PrintList(ts[1..], trailing) + [Close])
    decreases ts, 0
  {
    PrintListStep(ts, trailing);
    FirstStands(ts, trailing, tokens, at);
    ParseChild(ts[0], CommaAfter(ts, trailing), PrintList(ts[1..], trailing) + [Close], tokens, at);
    end := at + |Print(ts[0])|;
    next := SkipComma(tokens, end);
  }

  lemma {:induction false} ParseOnly(u: Tree, comma: seq<Token>, tokens: seq<Token>, at: nat)
    requires Stands(tokens, at, Print(u) + (comma + [Close])) && (comma == [Comma] || comma == [])
    ensures ParseChildren(tokens, at) == Ok(([Meaning(u)], at + |Print(u)| + |comma| + 1))
    decreases u, 2
  {
    ParseChild(u, comma, [Close], tokens, at);
    var close := at + |Print(u)| + |comma|;
    StandsAt(tokens, close, [Close], 0);
    ChildrenStep(tokens, at, Meaning(u), at + |Print(u)|, [], close + 1);
    assert [Meaning(u)] + [] == [Meaning(u)];
  }

  lemma HeadStands(head: Token, body: seq<Token>, tokens: seq<Token>, at: nat)
    requires Stands(tokens, at, [head, Open] + body)
    ensures tokens[at] == head && tokens[at + 1] == Open && Stands(tokens, at + 2, body)
  {
    StandsAt(tokens, at, [head, Open] + body, 0);
    StandsAt(tokens, at, [head, Open] + body, 1);
    StandsSplit(tokens, at, [head, Open], body);
  }

  lemma ParseHead(head: Token, tokens: seq<Token>, at: nat, children: seq<Node>, end: nat)
    requires (head == ALL || head == ANY) && at + 1 < |tokens| && tokens[at] == head && tokens[at + 1] == Open
    requires ParseChildren(tokens, at + 2) == Ok((children, end))
    ensures Parse(tokens, at) == Ok((if head == ALL then All(children) else Any(children), end))
  {}

  lemma HeadPrinted(head: Token, ts: seq<Tree>, trailing: bool, t: Tree)
    requires (head == ALL && t == AllOf(ts, trailing)) || (head == ANY && t == AnyOf(ts, trailing))
    ensures Print(t) == [head, Open] + (PrintList(ts, trailing) + [Close])
    ensures |Print(t)| == |PrintList(ts, trailing)| + 3
  {}

  lemma ListedParsed(head: Token, ts: seq<Tree>, trailing: bool, tokens: seq<Token>, at: nat, t: Tree)
    requires (head == ALL && t == AllOf(ts, trailing)) || (head == ANY && t == AnyOf(ts, trailing))
    requires at + 1 < |tokens| && tokens[at] == head && tokens[at + 1] == Open
    requires ParseChildren(tokens, at + 2) == Ok((Meanings(ts), at + 2 + |PrintList(ts, trailing)| + 1))
    ensures Parse(tokens, at) == Ok((Meaning(t), at + |Print(t)|))
  {
    HeadPrinted(head, ts, trailing, t);
    ParseHead(head, tokens, at, Meanings(ts), at + |Print(t)|);
  }

  lemma {:induction false} ParseListed(
    head: Token, ts: seq<Tree>, trailing: bool, tokens: seq<Token>, at: nat, t: Tree)
    requires (head == ALL && t == AllOf(ts, trailing)) || (head == ANY && t == AnyOf(ts, trailing))
    requires Stands(tokens, at, Print(t))
    ensures Parse(tokens, at) == Ok((Meaning(t), at + |Print(t)|))
    decreases ts, 2
  {
    HeadPrinted(head, ts, trailing, t);
    HeadStands(head, PrintList(ts, trailing) + [Close], tokens, at);
    ParseList(ts, trailing, tokens, at + 2);
    ListedParsed(head, ts, trailing, tokens, at, t);
  }

  lemma ParseNone(tokens: seq<Token>, at: nat)
    requires Stands(tokens, at, [Close])
    ensures var close: nat := at + 1; ParseChildren(tokens, at) == Ok(([], close))
  {
    StandsAt(tokens, at, [Close], 0);
  }

  /** A list is read once its first predicate and the others are. */
  lemma ListStep(ts: seq<Tree>, trailing: bool, tokens: seq<Token>, at: nat, end: nat, next: nat)
    requires ts != [] && at < |tokens| && tokens[at] != Close && Parse(tokens, at) == Ok((Meaning(ts[0]), end))
    requires end == at + |Print(ts[0])| && next == SkipComma(tokens, end) == end + |CommaAfter(ts, trailing)|
    requires ParseChildren(tokens, next) == Ok((Meanings(ts[1..]), next + |PrintList(ts[1..], trailing)| + 1))
    ensures ParseChildren(tokens, at) == Ok((Meanings(ts), at + |PrintList(ts, trailing)| + 1))
  {
    ChildrenStep(tokens, at, Meaning(ts[0]), end, Meanings(ts[1..]), next + |PrintList(ts[1..], trailing)| + 1);
    PrintListLength(ts, trailing);
  }

  lemma {:induction false} ParseList(ts: seq<Tree>, trailing: bool, tokens: seq<Token>, at: nat)
    requires Stands(tokens, at, PrintList(ts, trailing) + [Close])
    ensures ParseChildren(tokens, at) == Ok((Meanings(ts), at + |PrintList(ts, trailing)| + 1))
    decreases ts, 1
  {
    if ts == [] {
      assert PrintList(ts, trailing) + [Close] == [Close];
      ParseNone(tokens, at);
    } else {
      var end, next := ParseFirst(ts, trailing, tokens, at);
      ParseList(ts[1..], trailing, tokens, next);
      ListStep(ts, trailing, tokens, at, end, next);
    }
  }

  // ---- required atoms --------------------------------------------------------------------------

  /** A configuration: the atoms that hold in it. */
  type Config = iset<string>

  ghost predicate Satisfies(n: Node, c: Config) {
    match n
    case Atom(a) => a in c
    case All(ns) => forall k :: 0 <= k < |ns| ==> Satisfies(ns[k], c)
    case Any(ns) => exists k :: 0 <= k < |ns| && Satisfies(ns[k], c)
    case Not(m) => !Satisfies(m, c)
  }

  function Negation(a: string): string { "not(" + a + ")" }

  /** A required text holds: the atom itself, or the absence of a negated one. */
  ghost predicate Holds(text: string, c: Config) {
    if exists a :: text == Negation(a) then forall a :: text == Negation(a) ==> a !in c else text in c
  }

  /** The atoms that hold in every configuration satisfying the predicate. */
  function Required(n: Node): set<string> {
    match n
    case Atom(a) => {a}
    case All(ns) => set k, a | 0 <= k < |ns| && a in Required(ns[k]) :: a
    case Any(ns) => if ns == [] then {} else set a | a in Required(ns[0]) && forall k :: 0 <= k < |ns| ==> a in Required(ns[k])
    case Not(m) => if m.Atom? then {Negation(m.text)} else {}
  }

  /** The predicate the tokens spell, if they spell exactly one. */
  function ReadNode(tokens: seq<Token>): Option<Node> {
    match Parse(tokens, 0)
    case Ok((n, end)) => if end == |tokens| then Some(n) else None
    case Err(_) => None
  }

  /** The required atoms of a predicate that could be read to its end. */
  function AtomsOf(tokens: seq<Token>): Option<set<string>> {
    match ReadNode(tokens)
    case Some(n) => Some(Required(n))
    case None => None
  }

  /** No atom is spelled like a negation; the lexer cannot produce one. */
  ghost predicate Plain(n: Node) {
    match n
    case Atom(a) => forall b :: a != Negation(b)
    case All(ns) => forall k :: 0 <= k < |ns| ==> Plain(ns[k])
    case Any(ns) => forall k :: 0 <= k < |ns| ==> Plain(ns[k])
    case Not(m) => Plain(m)
  }

  lemma NegationInjective(a: string, b: string)
    requires Negation(a) == Negation(b)
    ensures a == b
  {
    assert Negation(a)[4..|Negation(a)| - 1] == a;
    assert Negation(b)[4..|Negation(b)| - 1] == b;
  }

  /** Every configuration that satisfies the predicate satisfies each required atom. */
  lemma {:induction false} RequiredSound(n: Node, c: Config)
    requires Plain(n) && Satisfies(n, c)
    ensures forall a :: a in Required(n) ==> Holds(a, c)
  {
    match n
    case Atom(a) =>
    case All(ns) => forall k | 0 <= k < |ns| ensures forall a :: a in Required(ns[k]) ==> Holds(a, c) { RequiredSound(ns[k], c); }
    case Any(ns) =>
      var k :| 0 <= k < |ns| && Satisfies(ns[k], c);
      RequiredSound(ns[k], c);
    case Not(m) =>
      if m.Atom? {
        forall b | Negation(m.text) == Negation(b) ensures b !in c { NegationInjective(m.text, b); }
      }
  }

  /** Built from atoms and negated atoms, without an empty `any()`: the atoms of `neg` occur negated
      only, the others plain only. */
  predicate Tame(n: Node, neg: set<string>) {
    match n
    case Atom(a) => a !in neg
    case All(ns) => forall k :: 0 <= k < |ns| ==> Tame(ns[k], neg)
    case Any(ns) => ns != [] && forall k :: 0 <= k < |ns| ==> Tame(ns[k], neg)
    case Not(m) => m.Atom? && m.text in neg
  }

  /** The atoms that occur directly under a `not`. */
  function Negated(n: Node): set<string> {
    match n
    case Atom(_) => {}
    case All(ns) => set k, a | 0 <= k < |ns| && a in Negated(ns[k]) :: a
    case Any(ns) => set k, a | 0 <= k < |ns| && a in Negated(ns[k]) :: a
    case Not(m) => if m.Atom? then {m.text} else Negated(m)
  }

  predicate Chosen(neg: set<string>, text: string, b: string) {
    text == Negation(b) || (b !in neg && b != text)
  }

  /** Every atom as `neg` has it, except that the required text `text` is made false. */
  ghost function Dodging(neg: set<string>, text: string): Config { iset b: string | Chosen(neg, text, b) }

  lemma DodgingFails(neg: set<string>, text: string)
    ensures !Holds(text, Dodging(neg, text))
  {
    if a :| text == Negation(a) {
      assert a in Dodging(neg, text);
    } else {
      assert text !in Dodging(neg, text);
    }
  }

  /** What is not required can be avoided. */
  lemma {:induction false} UnrequiredAvoidable(n: Node, neg: set<string>, text: string)
    requires Tame(n, neg) && text !in Required(n)
    ensures Satisfies(n, Dodging(neg, text))
  {
    match n
    case Atom(_) =>
    case All(ns) => forall k | 0 <= k < |ns| ensures Satisfies(ns[k], Dodging(neg, text)) {
      assert text !in Required(ns[k]);
      UnrequiredAvoidable(ns[k], neg, text);
    }
    case Any(ns) =>
      var k :| 0 <= k < |ns| && text !in Required(ns[k]);
      UnrequiredAvoidable(ns[k], neg, text);
    case Not(m) =>
      assert Negation(m.text) in Required(n);
  }

  /** Where every atom keeps one polarity the analysis is exact: an atom or negated atom is required
      exactly when it holds in every satisfying configuration. */
  lemma RequiredExact(n: Node, text: string)
    requires Plain(n) && Tame(n, Negated(n))
    ensures text in Required(n) <==> forall c: Config :: Satisfies(n, c) ==> Holds(text, c)
  {
    if text in Required(n) {
      forall c: Config | Satisfies(n, c) ensures Holds(text, c) { RequiredSound(n, c); }
    } else {
      UnrequiredAvoidable(n, Negated(n), text);
      DodgingFails(Negated(n), text);
    }
  }

  /** What the condition shuts out: an empty `any`, a `not` over anything but an atom, and an atom
      in both polarities. */
  lemma RequiredGaps(a: string, b: string)
    ensures Required(Any([])) == {} && forall c: Config :: !Satisfies(Any([]), c)
    ensures Required(Not(Not(Atom(a)))) == {} && forall c: Config :: Satisfies(Not(Not(Atom(a))), c) ==> a in c
    ensures var n := All([Any([Atom(a), Atom(b)]), Not(Atom(a))]);
            Required(n) <= {a, Negation(a)} && forall c: Config :: Satisfies(n, c) ==> b in c
  {
    forall c: Config ensures Satisfies(Not(Not(Atom(a))), c) ==> a in c {
      assert Satisfies(Not(Not(Atom(a))), c) == !Satisfies(Not(Atom(a)), c) == Satisfies(Atom(a), c);
    }
    EitherGap(a, b);
  }

  lemma EitherGap(a: string, b: string)
    ensures var n := All([Any([Atom(a), Atom(b)]), Not(Atom(a))]);
            Required(n) <= {a, Negation(a)} && forall c: Config :: Satisfies(n, c) ==> b in c
  {
    var either, neither := Any([Atom(a), Atom(b)]), Not(Atom(a));
    var n := All([either, neither]);
    assert Required(either.children[0]) == {a};
    assert Required(neither) == {Negation(a)};
    forall c: Config | Satisfies(n, c) ensures b in c {
      assert Satisfies(n.children[0], c) && Satisfies(n.children[1], c);
      assert !Satisfies(Atom(a), c);
      assert Satisfies(either.children[0], c) || Satisfies(either.children[1], c);
    }
  }

  // ---- what the lexer yields -------------------------------------------------------------------

  predicate WordChar(c: char) { 'a' <= c <= 'z' || 'A' <= c <= 'Z' || '0' <= c <= '9' || c == '_' }

  /** A token as the lexer cuts it: an operator, a quoted string or a word. */
  predicate Lexed(t: Token) {
    t.Text? ==> t.text != "" && (t.text[0] == '"' || forall c :: c in t.text ==> WordChar(c))
  }

  lemma SpellingPlain(head: Token, b: string)
    requires Lexed(head)
    ensures Spelling(head) != Negation(b)
    ensures forall tail :: Spelling(head) + " = " + tail != Negation(b)
  {
    var s := Spelling(head);
    assert Negation(b)[0] == 'n' && Negation(b)[3] == '(';
    if |s| > 3 && head.Text? { assert s[3] in s; }
    forall tail ensures s + " = " + tail != Negation(b) {
      var whole := s + " = " + tail;
      assert whole[0] == s[0];
      if |s| > 3 { assert whole[3] == s[3]; }
      else if |s| == 3 { assert whole[3] == ' '; }
      else if |s| == 2 { assert whole[3] == '='; }
      else { assert whole[1] == ' ' && Negation(b)[1] == 'o'; }
    }
  }

  /** Whatever parses from lexed tokens has no atom spelled like a negation. */
  lemma {:induction false} ParsePlain(tokens: seq<Token>, at: nat)
    requires forall t :: t in tokens ==> Lexed(t)
    ensures Parse(tokens, at).Ok? ==> Plain(Parse(tokens, at).value.0)
    decreases |tokens| - at, 0
  {
    if at < |tokens| {
      assert tokens[at] in tokens;
      forall b ensures Spelling(tokens[at]) != Negation(b)
               ensures forall tail :: Spelling(tokens[at]) + " = " + tail != Negation(b)
      {
        SpellingPlain(tokens[at], b);
      }
      if at + 2 <= |tokens| { ParseChildrenPlain(tokens, at + 2); }
    }
  }

  lemma {:induction false} ParseChildrenPlain(tokens: seq<Token>, at: nat)
    requires forall t :: t in tokens ==> Lexed(t)
    ensures ParseChildren(tokens, at).Ok? ==>
              forall k :: 0 <= k < |ParseChildren(tokens, at).value.0| ==> Plain(ParseChildren(tokens, at).value.0[k])
    decreases |tokens| - at, 1
  {
    if at < |tokens| && tokens[at] != Close {
      ParsePlain(tokens, at);
      if Parse(tokens, at).Ok? { ParseChildrenPlain(tokens, SkipComma(tokens, Parse(tokens, at).value.1)); }
    }
  }

  /** A printed predicate is read to its end, and yields the atoms of what was meant. */
  lemma AtomsOfPrinted(t: Tree)
    ensures AtomsOf(Print(t)) == Some(Required(Meaning(t)))
  {
    assert Print(t)[0..|Print(t)|] == Print(t);
    ParsePrinted(t, Print(t), 0);
  }
}
