/** The version text of a document, read and printed. */
module ApiVersions {
  import opened Wrappers

  predicate IsDigit(c: char) { '0' <= c <= '9' }

  /** How many digits the text starts with. */
  function DigitRun(s: string): (n: nat)
    ensures n <= |s|
  {
    if s == "" || !IsDigit(s[0]) then 0 else 1 + DigitRun(s[1..])
  }

  function DigitValue(c: char): nat
    requires IsDigit(c)
  {
    c as int - '0' as int
  }

  function Value(digits: string): nat
    requires forall c :: c in digits ==> IsDigit(c)
  {
    if digits == "" then 0
    else
      var last := |digits| - 1;
      assert digits[last] in digits;
      10 * Value(digits[..last]) + DigitValue(digits[last])
  }

  lemma {:induction false} DigitRunDigits(s: string)
    ensures forall c :: c in s[..DigitRun(s)] ==> IsDigit(c)
    ensures DigitRun(s) < |s| ==> !IsDigit(s[DigitRun(s)])
  {
    if s != "" && IsDigit(s[0]) {
      DigitRunDigits(s[1..]);
      assert s[..DigitRun(s)] == [s[0]] + s[1..][..DigitRun(s[1..])];
    }
  }

  /** A number without leading zeros at the start of the text, and where it ends. */
  function Numeral(s: string): Option<(nat, nat)> {
    if s == "" || !IsDigit(s[0]) then None
    else if s[0] == '0' then Some((0, 1))
    else DigitRunDigits(s); Some((Value(s[..DigitRun(s)]), DigitRun(s)))
  }

  /** A numeral followed by a dot: its value and the rest. */
  function Dotted(s: string): Option<(nat, string)> {
    match Numeral(s)
    case None => None
    case Some((value, n)) => if n < |s| && s[n] == '.' then Some((value, s[n + 1..])) else None
  }

  /** The major number of a text that starts as `major.minor.patch`. */
  function Major(version: string): Option<nat> {
    match Dotted(version)
    case None => None
    case Some((major, rest)) =>
      match Dotted(rest)
      case None => None
      case Some((_, rest')) => if Numeral(rest').Some? then Some(major) else None
  }

  // ---- against a printer -----------------------------------------------------------------------

  /** A number in decimal, without leading zeros. */
  function Show(n: nat): string {
    if n < 10 then [('0' as int + n) as char] else Show(n / 10) + [('0' as int + n % 10) as char]
  }

  predicate Digits(s: string) { forall c :: c in s ==> IsDigit(c) }

  lemma {:induction false} ShowValue(n: nat)
    ensures Show(n) != "" && Digits(Show(n)) && Value(Show(n)) == n
    ensures Show(n)[0] == '0' <==> n == 0
  {
    if n >= 10 {
      ShowValue(n / 10);
      assert Show(n)[..|Show(n)| - 1] == Show(n / 10);
    } else {
      assert Show(n)[..0] == "";
    }
  }

  lemma ShowMore(v: nat, d: nat)
    requires v > 0 && d < 10
    ensures Show(10 * v + d) == Show(v) + [('0' as int + d) as char]
  {}

  /** Digits without a leading zero are the decimal of their value. */
  lemma {:induction false} ValueShown(s: string)
    requires s != "" && Digits(s) && s[0] != '0'
    ensures Value(s) > 0 && Show(Value(s)) == s
    decreases |s|
  {
    var last := |s| - 1;
    assert s[last] in s && s[0] in s;
    assert s == s[..last] + [s[last]];
    if last > 0 {
      assert s[..last][0] == s[0];
      assert forall c :: c in s[..last] ==> c in s;
      ValueShown(s[..last]);
      ShowMore(Value(s[..last]), DigitValue(s[last]));
    }
  }

  lemma {:induction false} RunEnds(s: string, rest: string)
    requires Digits(s) && (rest == "" || !IsDigit(rest[0]))
    ensures DigitRun(s + rest) == |s|
  {
    if s == "" { assert s + rest == rest; }
    else {
      assert s[0] in s && forall c :: c in s[1..] ==> c in s;
      assert (s + rest)[1..] == s[1..] + rest;
      RunEnds(s[1..], rest);
    }
  }

  /** What `Numeral` reads is printed where it stands. */
  lemma NumeralPrinted(s: string)
    ensures Numeral(s).Some? <==> s != "" && IsDigit(s[0])
    ensures Numeral(s).Some? ==> Numeral(s).value.1 <= |s| && s[..Numeral(s).value.1] == Show(Numeral(s).value.0)
  {
    if s != "" && IsDigit(s[0]) && s[0] != '0' {
      DigitRunDigits(s);
      assert s[..DigitRun(s)][0] == s[0];
      ValueShown(s[..DigitRun(s)]);
    }
  }

  lemma PrintedNumeral(n: nat, rest: string)
    ensures Numeral(Show(n) + "." + rest) == Some((n, |Show(n)|))
  {
    var s := Show(n) + "." + rest;
    ShowValue(n);
    if n == 0 { assert Show(n) == "0"; }
    else {
      assert s == Show(n) + ("." + rest);
      RunEnds(Show(n), "." + rest);
      assert s[0] == Show(n)[0] && s[0] in Show(n);
      assert s[..|Show(n)|] == Show(n);
    }
  }

  lemma DottedPrinted(s: string, n: nat, rest: string)
    ensures Dotted(s) == Some((n, rest)) <==> s == Show(n) + "." + rest
  {
    if s == Show(n) + "." + rest {
      PrintedNumeral(n, rest);
      assert s[|Show(n)| + 1..] == rest;
    }
    if Dotted(s) == Some((n, rest)) {
      NumeralPrinted(s);
      var k := |Show(n)|;
      assert s == s[..k] + [s[k]] + s[k + 1..];
    }
  }

  /** The text starts with three printed numbers and their dots, the first being `major`. */
  ghost predicate Versioned(version: string, major: nat) {
    exists minor: nat, patch: nat, suffix :: Prints(version, major, minor, patch, suffix)
  }

  predicate Prints(version: string, major: nat, minor: nat, patch: nat, suffix: string) {
    version == Show(major) + "." + Show(minor) + "." + Show(patch) + suffix
  }

  lemma PrintedStarts(n: nat, suffix: string)
    ensures Numeral(Show(n) + suffix).Some?
  {
    ShowValue(n);
    assert (Show(n) + suffix)[0] == Show(n)[0] && Show(n)[0] in Show(n);
  }

  lemma Rejoin(a: string, b: string, c: string, suffix: string)
    ensures a + "." + b + "." + c + suffix == a + "." + (b + "." + (c + suffix))
  {}

  lemma PrintedMajor(version: string, major: nat, minor: nat, patch: nat, suffix: string)
    requires Prints(version, major, minor, patch, suffix)
    ensures Major(version) == Some(major)
  {
    var rest' := Show(patch) + suffix;
    var rest := Show(minor) + "." + rest';
    Rejoin(Show(major), Show(minor), Show(patch), suffix);
    DottedPrinted(version, major, rest);
    DottedPrinted(rest, minor, rest');
    PrintedStarts(patch, suffix);
  }

  /** A dotted text begins with its number, printed. */
  lemma TakeDotted(s: string) returns (n: nat, rest: string)
    requires Dotted(s).Some?
    ensures Dotted(s) == Some((n, rest)) && s == Show(n) + "." + rest
  {
    n, rest := Dotted(s).value.0, Dotted(s).value.1;
    DottedPrinted(s, n, rest);
  }

  lemma TakeNumeral(s: string) returns (n: nat, rest: string)
    requires Numeral(s).Some?
    ensures s == Show(n) + rest
  {
    NumeralPrinted(s);
    n, rest := Numeral(s).value.0, s[Numeral(s).value.1..];
  }

  lemma Joined(version: string, a: string, rest: string, b: string, rest': string, c: string, suffix: string)
    requires version == a + "." + rest && rest == b + "." + rest' && rest' == c + suffix
    ensures version == a + "." + b + "." + c + suffix
  {}

  lemma MajorPrinted(version: string, major: nat) returns (minor: nat, patch: nat, suffix: string)
    requires Major(version) == Some(major)
    ensures Prints(version, major, minor, patch, suffix)
  {
    var first, rest := TakeDotted(version);
    assert first == major;
    var rest';
    minor, rest' := TakeDotted(rest);
    patch, suffix := TakeNumeral(rest');
    Joined(version, Show(major), rest, Show(minor), rest', Show(patch), suffix);
  }

  /** `Major` reads exactly the first of three printed numbers. */
  lemma MajorExact(version: string, major: nat)
    ensures Major(version) == Some(major) <==> Versioned(version, major)
  {
    if Versioned(version, major) {
      var minor: nat, patch: nat, suffix :| Prints(version, major, minor, patch, suffix);
      PrintedMajor(version, major, minor, patch, suffix);
    }
    if Major(version) == Some(major) { var minor, patch, suffix := MajorPrinted(version, major); }
  }
}
