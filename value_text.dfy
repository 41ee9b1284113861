/**
 * The value text of one pet: commas are removed and the rest is converted with
 * Python's `int()`; text `int()` rejects is recorded as 0.
 *
 * `ParseInt` follows CPython's conversion of a `str` in base 10, one character
 * at a time: whitespace before and after the number is skipped, one optional
 * sign, then ASCII digits in which a single underscore may separate two
 * digits, and at most 4300 digits in all (the default of
 * `sys.get_int_max_str_digits()`). `Literal` describes the same texts as a
 * grammar, and `ParseInt`'s contract says the two agree.
 */
module ValueText {
  import opened Wrappers

  /** Default digit limit of CPython's int/str conversion. */
  const MaxStrDigits: nat := 4300

  /**
   * The characters `int()` skips around the number: the ASCII space, tab,
   * line feed, vertical tab, form feed and carriage return, and the
   * non-ASCII characters `str.isspace()` accepts (CPython turns those into
   * an ASCII space first). The ASCII separators U+001C to U+001F are not
   * among them.
   */
  predicate IsSpace(c: char) {
    c == ' ' || ('\t' <= c <= '\r')
    || c == '\U{85}' || c == '\U{A0}' || c == '\U{1680}'
    || ('\U{2000}' <= c <= '\U{200A}') || c == '\U{2028}' || c == '\U{2029}'
    || c == '\U{202F}' || c == '\U{205F}' || c == '\U{3000}'
  }

  predicate IsSpaces(s: string) {
    forall i :: 0 <= i < |s| ==> IsSpace(s[i])
  }

  predicate IsDigit(c: char) {
    '0' <= c <= '9'
  }

  function DigitValue(c: char): int {
    c as int - '0' as int
  }

  /** `text.replace(",", "")` */
  function RemoveCommas(s: string): (r: string)
    ensures ',' !in r
    ensures ',' !in s ==> r == s
  {
    if s == [] then []
    else (if s[0] == ',' then [] else [s[0]]) + RemoveCommas(s[1..])
  }

  /**
   * With `RemoveCommasOneChar` this fixes `RemoveCommas` for every text: it
   * works piece by piece, deletes a comma and keeps any other character.
   */
  lemma {:induction false} RemoveCommasAppend(a: string, b: string)
    ensures RemoveCommas(a + b) == RemoveCommas(a) + RemoveCommas(b)
    decreases |a|
  {
    if a == [] {
      assert a + b == b;
    } else {
      var head := if a[0] == ',' then [] else [a[0]];
      var rest := a[1..];
      assert (a + b)[0] == a[0] && (a + b)[1..] == rest + b;
      calc {
        RemoveCommas(a + b);
        head + RemoveCommas(rest + b);
        { RemoveCommasAppend(rest, b); }
        head + (RemoveCommas(rest) + RemoveCommas(b));
        (head + RemoveCommas(rest)) + RemoveCommas(b);
        RemoveCommas(a) + RemoveCommas(b);
      }
    }
  }

  lemma {:induction false} RemoveCommasOneChar(c: char)
    ensures RemoveCommas([c]) == if c == ',' then [] else [c]
  {
    assert [c][1..] == [];
  }

  lemma {:induction false} RemoveCommasKeeps(s: string, i: nat)
    requires i < |s| && s[i] != ','
    ensures s[i] in RemoveCommas(s)
    decreases |s|
  {
    if i > 0 {
      RemoveCommasKeeps(s[1..], i - 1);
    }
  }

  // ---------------------------------------------------------------------------
  // The texts `int()` accepts, as a grammar.

  predicate IsSign(s: string) {
    s == "" || s == "+" || s == "-"
  }

  /** What may follow the first digit: digits, each optionally preceded by one underscore. */
  predicate GroupsTail(t: string)
    decreases |t|
  {
    || t == []
    || (IsDigit(t[0]) && GroupsTail(t[1..]))
    || (|t| >= 2 && t[0] == '_' && IsDigit(t[1]) && GroupsTail(t[2..]))
  }

  /** Digits in which single underscores may separate two digits, such as `1_000_000`. */
  predicate IsDigitGroups(b: string) {
    |b| > 0 && IsDigit(b[0]) && GroupsTail(b[1..])
  }

  function DropUnderscores(b: string): string
    decreases |b|
  {
    if b == [] then []
    else (if b[0] == '_' then [] else [b[0]]) + DropUnderscores(b[1..])
  }

  /** The value of the digits `ds` appended, most significant first, to a number worth `acc`. */
  function Accumulate(acc: int, ds: string): int
    decreases |ds|
  {
    if ds == [] then acc else Accumulate(acc * 10 + DigitValue(ds[0]), ds[1..])
  }

  /** The number a string of digits denotes. */
  function DigitsValue(ds: string): int
  {
    Accumulate(0, ds)
  }

  /** A text split into whitespace, sign, digit groups and whitespace. */
  datatype Literal = Literal(lead: string, sign: string, body: string, trail: string)

  predicate WellFormed(l: Literal) {
    IsSpaces(l.lead) && IsSign(l.sign) && IsDigitGroups(l.body) && IsSpaces(l.trail)
  }

  function Text(l: Literal): string {
    l.lead + l.sign + l.body + l.trail
  }

  function DigitCount(l: Literal): nat {
    |DropUnderscores(l.body)|
  }

  function LiteralValue(l: Literal): int {
    var m := DigitsValue(DropUnderscores(l.body));
    if l.sign == "-" then -m else m
  }

  /** `s` is an integer literal within the digit limit that denotes `n`. */
  ghost predicate IsLiteralOf(s: string, n: int) {
    exists l :: WellFormed(l) && DigitCount(l) <= MaxStrDigits && Text(l) == s && LiteralValue(l) == n
  }

  // ---------------------------------------------------------------------------
  // The conversion, one character at a time.

  /**
   * Where the conversion stands: before the number, just after its sign,
   * inside its digits, just after an underscore, or after the number.
   */
  datatype Phase = Leading | Signed | InDigits | AfterUnderscore | Trailing

  /**
   * The rest `s` of the text read in phase `phase`, where `negative` says
   * whether a minus sign was read, `acc` is the value of the digits read so far
   * and `count` their number.
   */
  function Scan(s: string, phase: Phase, negative: bool, acc: int, count: nat): Option<int>
    decreases |s|
  {
    if s == [] then
      if (phase == InDigits || phase == Trailing) && count <= MaxStrDigits then
        Some(if negative then -acc else acc)
      else
        None
    else
      var c := s[0];
      match phase
      case Leading =>
        if IsSpace(c) then Scan(s[1..], Leading, negative, acc, count)
        else if c == '-' || c == '+' then Scan(s[1..], Signed, c == '-', acc, count)
        else if IsDigit(c) then Scan(s[1..], InDigits, negative, DigitValue(c), 1)
        else None
      case Signed =>
        if IsDigit(c) then Scan(s[1..], InDigits, negative, DigitValue(c), 1) else None
      case InDigits =>
        if IsDigit(c) then Scan(s[1..], InDigits, negative, acc * 10 + DigitValue(c), count + 1)
        else if c == '_' then Scan(s[1..], AfterUnderscore, negative, acc, count)
        else if IsSpace(c) then Scan(s[1..], Trailing, negative, acc, count)
        else None
      case AfterUnderscore =>
        if IsDigit(c) then Scan(s[1..], InDigits, negative, acc * 10 + DigitValue(c), count + 1) else None
      case Trailing =>
        if IsSpace(c) then Scan(s[1..], Trailing, negative, acc, count) else None
  }

  /**
   * `int(s)`: `Some(n)` exactly when `s` is a literal of `n` within the digit
   * limit, and `None` (Python raises `ValueError`) for every other text.
   */
  function ParseInt(s: string): (r: Option<int>)
    ensures r.Some? ==> IsLiteralOf(s, r.value)
    ensures forall n :: IsLiteralOf(s, n) ==> r == Some(n)
  {
    ScanAgreesWithGrammar(s);
    Scan(s, Leading, false, 0, 0)
  }

  /**
   * The value recorded for one pet: the number its comma-free text is a
   * literal of, and 0 when that text is no literal at all.
   */
  function ValueOf(text: string): (r: int)
    ensures forall n :: IsLiteralOf(RemoveCommas(text), n) ==> r == n
    ensures (forall n :: !IsLiteralOf(RemoveCommas(text), n)) ==> r == 0
  {
    match ParseInt(RemoveCommas(text))
    case Some(n) => n
    case None => 0
  }

  // ---------------------------------------------------------------------------
  // A literal is accepted with its value.

  lemma {:induction false} AllSpaces(post: string, negative: bool, acc: int, count: nat)
    requires IsSpaces(post)
    ensures Scan(post, Trailing, negative, acc, count) == Scan([], InDigits, negative, acc, count)
    decreases |post|
  {
    if post != [] {
      AllSpaces(post[1..], negative, acc, count);
    }
  }

  lemma {:induction false} SkipLeading(pre: string, rest: string)
    requires IsSpaces(pre)
    ensures Scan(pre + rest, Leading, false, 0, 0) == Scan(rest, Leading, false, 0, 0)
    decreases |pre|
  {
    if pre == [] {
      assert pre + rest == rest;
    } else {
      assert (pre + rest)[1..] == pre[1..] + rest;
      SkipLeading(pre[1..], rest);
    }
  }

  /** An underscore and the digit after it, read inside the number. */
  lemma {:induction false} ScanUnderscore(t: string, post: string, negative: bool, acc: int, count: nat)
    requires |t| >= 2 && t[0] == '_' && IsDigit(t[1])
    ensures Scan(t + post, InDigits, negative, acc, count)
         == Scan(t[2..] + post, InDigits, negative, acc * 10 + DigitValue(t[1]), count + 1)
    ensures DropUnderscores(t) == [t[1]] + DropUnderscores(t[2..])
  {
    var rest := t[2..];
    assert (t + post)[0] == '_' && (t + post)[1..] == [t[1]] + (rest + post);
    assert ([t[1]] + (rest + post))[1..] == rest + post;
    assert DropUnderscores(t) == DropUnderscores(t[1..]);
    assert t[1..][1..] == rest;
  }

  /** Digit groups, then only whitespace, read inside the number. */
  lemma {:induction false} ScanTail(t: string, post: string, negative: bool, acc: int, count: nat)
    requires GroupsTail(t) && IsSpaces(post)
    ensures Scan(t + post, InDigits, negative, acc, count)
         == if count + |DropUnderscores(t)| <= MaxStrDigits
            then Some(var v := Accumulate(acc, DropUnderscores(t)); if negative then -v else v)
            else None
    decreases |t|
  {
    if t == [] {
      assert t + post == post;
      if post != [] {
        AllSpaces(post[1..], negative, acc, count);
      }
    } else if t[0] == '_' {
      ScanUnderscore(t, post, negative, acc, count);
      ScanTail(t[2..], post, negative, acc * 10 + DigitValue(t[1]), count + 1);
    } else {
      assert (t + post)[0] == t[0] && (t + post)[1..] == t[1..] + post;
      ScanTail(t[1..], post, negative, acc * 10 + DigitValue(t[0]), count + 1);
    }
  }

  /** The first digit splits off the value of digit groups. */
  lemma {:induction false} GroupsValue(b: string)
    requires IsDigitGroups(b)
    ensures DropUnderscores(b) == [b[0]] + DropUnderscores(b[1..])
    ensures DigitsValue(DropUnderscores(b)) == Accumulate(DigitValue(b[0]), DropUnderscores(b[1..]))
  {
    assert ([b[0]] + DropUnderscores(b[1..]))[1..] == DropUnderscores(b[1..]);
  }

  /** The sign and the first digit, read before the number. */
  lemma {:induction false} ScanNumber(sign: string, b: string, trail: string)
    requires IsSign(sign) && IsDigitGroups(b)
    ensures Scan(sign + b + trail, Leading, false, 0, 0)
         == Scan(b[1..] + trail, InDigits, sign == "-", DigitValue(b[0]), 1)
  {
    var number := sign + b + trail;
    if sign == "" {
      assert number == b + trail;
      assert number[0] == b[0] && number[1..] == b[1..] + trail;
    } else {
      assert number[0] == sign[0] && number[1..] == b + trail;
      assert (b + trail)[0] == b[0] && (b + trail)[1..] == b[1..] + trail;
    }
  }

  /** `int()` of any literal: its value within the digit limit, an error beyond it. */
  lemma {:induction false} ScanLiteral(l: Literal)
    requires WellFormed(l)
    ensures Scan(Text(l), Leading, false, 0, 0)
         == if DigitCount(l) <= MaxStrDigits then Some(LiteralValue(l)) else None
  {
    var b := l.body;
    assert Text(l) == l.lead + (l.sign + b + l.trail);
    SkipLeading(l.lead, l.sign + b + l.trail);
    ScanNumber(l.sign, b, l.trail);
    ScanTail(b[1..], l.trail, l.sign == "-", DigitValue(b[0]), 1);
    GroupsValue(b);
  }

  // ---------------------------------------------------------------------------
  // Whatever is accepted is a literal.

  lemma {:induction false} TrailingIsSpaces(s: string, negative: bool, acc: int, count: nat)
    requires Scan(s, Trailing, negative, acc, count).Some?
    ensures IsSpaces(s)
    decreases |s|
  {
    if s != [] {
      TrailingIsSpaces(s[1..], negative, acc, count);
    }
  }

  /** What the conversion accepts from inside the number: digit groups, then whitespace. */
  lemma {:induction false} SplitTail(s: string, negative: bool, acc: int, count: nat) returns (t: string, post: string)
    requires Scan(s, InDigits, negative, acc, count).Some?
    ensures s == t + post && GroupsTail(t) && IsSpaces(post)
    decreases |s|
  {
    if s == [] {
      t, post := [], [];
    } else if IsDigit(s[0]) {
      var t', post' := SplitTail(s[1..], negative, acc * 10 + DigitValue(s[0]), count + 1);
      t, post := [s[0]] + t', post';
      assert t[1..] == t';
    } else if s[0] == '_' {
      var u := s[1..];
      assert u != [] && IsDigit(u[0]);
      assert u[1..] == s[2..];
      var t', post' := SplitTail(s[2..], negative, acc * 10 + DigitValue(u[0]), count + 1);
      t, post := [s[0], s[1]] + t', post';
      assert t[2..] == t';
    } else {
      TrailingIsSpaces(s[1..], negative, acc, count);
      t, post := [], s;
    }
  }

  /** What the conversion skips before the number. */
  lemma {:induction false} SplitLead(s: string) returns (lead: string, rest: string)
    requires Scan(s, Leading, false, 0, 0).Some?
    ensures s == lead + rest && IsSpaces(lead)
    ensures rest != [] && !IsSpace(rest[0])
    ensures Scan(rest, Leading, false, 0, 0) == Scan(s, Leading, false, 0, 0)
    decreases |s|
  {
    if IsSpace(s[0]) {
      var lead', rest' := SplitLead(s[1..]);
      lead, rest := [s[0]] + lead', rest';
      assert lead[1..] == lead';
    } else {
      lead, rest := [], s;
    }
  }

  /** What the conversion accepts after the leading whitespace: a sign, digit groups, whitespace. */
  lemma {:induction false} SplitNumber(rest: string) returns (sign: string, body: string, trail: string)
    requires rest != [] && !IsSpace(rest[0])
    requires Scan(rest, Leading, false, 0, 0).Some?
    ensures rest == sign + body + trail
    ensures IsSign(sign) && IsDigitGroups(body) && IsSpaces(trail)
  {
    if rest[0] == '-' || rest[0] == '+' {
      var after := rest[1..];
      assert after != [] && IsDigit(after[0]);
      assert after[1..] == rest[2..];
      var t, post := SplitTail(rest[2..], rest[0] == '-', DigitValue(after[0]), 1);
      sign, body, trail := [rest[0]], [after[0]] + t, post;
      assert body[1..] == t;
    } else {
      var t, post := SplitTail(rest[1..], false, DigitValue(rest[0]), 1);
      sign, body, trail := "", [rest[0]] + t, post;
      assert body[1..] == t;
    }
  }

  /** Every text the conversion accepts is a literal. */
  lemma {:induction false} AcceptedIsLiteral(s: string) returns (l: Literal)
    requires Scan(s, Leading, false, 0, 0).Some?
    ensures WellFormed(l) && Text(l) == s
  {
    var lead, rest := SplitLead(s);
    var sign, body, trail := SplitNumber(rest);
    l := Literal(lead, sign, body, trail);
    assert Text(l) == lead + (sign + body + trail);
  }

  /** The conversion accepts exactly the literals within the digit limit, each with its value. */
  lemma {:induction false} ScanAgreesWithGrammar(s: string)
    ensures Scan(s, Leading, false, 0, 0).Some? ==> IsLiteralOf(s, Scan(s, Leading, false, 0, 0).value)
    ensures forall n :: IsLiteralOf(s, n) ==> Scan(s, Leading, false, 0, 0) == Some(n)
  {
    if Scan(s, Leading, false, 0, 0).Some? {
      var l := AcceptedIsLiteral(s);
      ScanLiteral(l);
    }
    forall n | IsLiteralOf(s, n) ensures Scan(s, Leading, false, 0, 0) == Some(n) {
      var l :| WellFormed(l) && DigitCount(l) <= MaxStrDigits && Text(l) == s && LiteralValue(l) == n;
      ScanLiteral(l);
    }
  }

  // ---------------------------------------------------------------------------
  // Texts that are recorded as 0.

  /** A character that is neither digit, sign, underscore nor whitespace stops the conversion. */
  lemma {:induction false} ScanRejects(s: string, j: nat, phase: Phase, negative: bool, acc: int, count: nat)
    requires j < |s|
    requires !IsDigit(s[j]) && !IsSpace(s[j]) && s[j] !in {'+', '-', '_'}
    ensures Scan(s, phase, negative, acc, count) == None
    decreases |s|
  {
    if j > 0 {
      forall next: Phase, neg: bool, a: int, k: nat
        ensures Scan(s[1..], next, neg, a, k) == None
      {
        ScanRejects(s[1..], j - 1, next, neg, a, k);
      }
    }
  }

  /**
   * Text holding a character that can be neither digit, sign, underscore,
   * comma nor whitespace (a letter, `/`, `.`, ...) is recorded as 0.
   */
  lemma {:induction false} NonNumericIsZero(text: string, i: nat)
    requires i < |text|
    requires !IsDigit(text[i]) && !IsSpace(text[i])
    requires text[i] !in {'+', '-', '_', ','}
    ensures ValueOf(text) == 0
  {
    var s := RemoveCommas(text);
    RemoveCommasKeeps(text, i);
    var j :| 0 <= j < |s| && s[j] == text[i];
    ScanRejects(s, j, Leading, false, 0, 0);
  }

  /** A literal of more than 4300 digits makes `int()` raise, so it is recorded as 0. */
  lemma {:induction false} TooManyDigitsIsZero(l: Literal)
    requires WellFormed(l) && ',' !in Text(l)
    requires DigitCount(l) > MaxStrDigits
    ensures ValueOf(Text(l)) == 0
  {
    ScanLiteral(l);
  }
}
