/** Integers as Python prints and parses them. */
module PyInt {
  import opened Basics

  const LF: Byte := 10
  const CR: Byte := 13
  const CRLF: Bytes := [CR, LF]

  // ---- int(text, base) on ASCII bytes ----

  predicate Space(b: Byte) {
    b == 32 || 9 <= b <= 13
  }

  function StripLeft(s: Bytes): (r: Bytes)
    ensures |r| <= |s|
  {
    if s != [] && Space(s[0]) then StripLeft(s[1..]) else s
  }

  function StripRight(s: Bytes): (r: Bytes)
    ensures |r| <= |s|
  {
    if s != [] && Space(Last(s)) then StripRight(Front(s)) else s
  }

  function Strip(s: Bytes): Bytes {
    StripRight(StripLeft(s))
  }

  /** The value of a digit, or 99 for what is not one. */
  function DigitValue(b: Byte): nat {
    if 48 <= b <= 57 then b - 48
    else if 97 <= b <= 122 then b - 87
    else if 65 <= b <= 90 then b - 55
    else 99
  }

  function Shift(acc: nat, base: nat, digit: nat): nat {
    acc * base + digit
  }

  /** digit ("_"? digit)* */
  function ParseDigits(s: Bytes, base: nat, acc: nat): Option<nat> {
    if s == [] || DigitValue(s[0]) >= base then None
    else
      var value := Shift(acc, base, DigitValue(s[0]));
      if |s| == 1 then Some(value)
      else if s[1] == 95 then ParseDigits(s[2..], base, value)
      else ParseDigits(s[1..], base, value)
  }

  /** The optional `0x` of base 16, and the underscore that may follow it. */
  function SkipPrefix(s: Bytes, base: nat): Bytes {
    if base == 16 && |s| >= 2 && s[0] == 48 && (s[1] == 120 || s[1] == 88) then
      if |s| >= 3 && s[2] == 95 then s[3..] else s[2..]
    else s
  }

  function ParseInt(text: Bytes, base: nat): Option<int> {
    var s := Strip(text);
    if s != [] && s[0] == 45 then
      var n := ParseDigits(SkipPrefix(s[1..], base), base, 0);
      if n.Some? then Some(0 - n.value as int) else None
    else
      var unsigned := if s != [] && s[0] == 43 then s[1..] else s;
      ParseDigits(SkipPrefix(unsigned, base), base, 0)
  }

  // ---- f"{n:x}" and str(n) ----

  function DigitOf(d: nat): Byte
    requires d < 16
  {
    if d < 10 then 48 + d else 87 + d
  }

  function HighDigits(n: nat, base: nat): (high: nat)
    requires base >= 2
    ensures n >= base ==> 0 < high < n
  {
    n / base
  }

  function LowDigit(n: nat, base: nat): (low: nat)
    requires base >= 2
    ensures low < base
  {
    n % base
  }

  function Print(n: nat, base: nat): (r: Bytes)
    requires 2 <= base <= 16
    ensures r != []
  {
    if n < base then [DigitOf(n)] else Print(HighDigits(n, base), base) + [DigitOf(LowDigit(n, base))]
  }

  predicate PrintedDigit(b: Byte) {
    48 <= b <= 57 || 97 <= b <= 102
  }

  lemma {:induction false} PrintsDigits(n: nat, base: nat)
    requires 2 <= base <= 16
    ensures forall i :: 0 <= i < |Print(n, base)| ==> PrintedDigit(Print(n, base)[i]) && DigitValue(Print(n, base)[i]) < base
    ensures n > 0 ==> DigitValue(Print(n, base)[0]) > 0
  {
    hide HighDigits, LowDigit;
    if n >= base {
      var high, low := HighDigits(n, base), LowDigit(n, base);
      PrintsDigits(high, base);
      DigitsSnoc(Print(high, base), low, base);
    }
  }

  lemma {:induction false} DigitsSnoc(s: Bytes, low: nat, base: nat)
    requires low < base <= 16 && forall i :: 0 <= i < |s| ==> PrintedDigit(s[i]) && DigitValue(s[i]) < base
    ensures var all := s + [DigitOf(low)]; forall i :: 0 <= i < |all| ==> PrintedDigit(all[i]) && DigitValue(all[i]) < base
  {
  }

  /** One more digit at the end. */
  lemma {:induction false} ParseSnoc(s: Bytes, d: Byte, base: nat, acc: nat)
    requires s != [] && forall i :: 0 <= i < |s| ==> PrintedDigit(s[i]) && DigitValue(s[i]) < base
    requires PrintedDigit(d) && DigitValue(d) < base && ParseDigits(s, base, acc).Some?
    ensures ParseDigits(s + [d], base, acc) == Some(Shift(ParseDigits(s, base, acc).value, base, DigitValue(d)))
  {
    hide Shift;
    var value := Shift(acc, base, DigitValue(s[0]));
    assert (s + [d])[1..] == s[1..] + [d];
    if |s| == 1 {
      assert (s + [d])[1..] == [d];
    } else {
      ParseSnoc(s[1..], d, base, value);
    }
  }

  lemma {:induction false} ParsesPrinted(n: nat, base: nat)
    requires 2 <= base <= 16
    ensures ParseDigits(Print(n, base), base, 0) == Some(n)
  {
    if n < base {
      assert Shift(0, base, n) == n;
    } else {
      LastDigit(n, base);
      hide ParseDigits, Shift, HighDigits, LowDigit;
      ParsesPrinted(HighDigits(n, base), base);
      PrintsDigits(HighDigits(n, base), base);
      PrintsDigits(LowDigit(n, base), base);
      ParseSnoc(Print(HighDigits(n, base), base), DigitOf(LowDigit(n, base)), base, 0);
    }
  }

  lemma {:induction false} LastDigit(n: nat, base: nat)
    requires 2 <= base <= 16
    ensures var low := LowDigit(n, base);
      low < 16 && DigitValue(DigitOf(low)) == low && Shift(HighDigits(n, base), base, low) == n
  {
  }

  lemma {:induction false} StripBetween(before: Bytes, s: Bytes, after: Bytes)
    requires s != [] && !Space(s[0]) && !Space(Last(s))
    requires (forall i :: 0 <= i < |before| ==> Space(before[i])) && (forall i :: 0 <= i < |after| ==> Space(after[i]))
    ensures Strip(before + s + after) == s
  {
    hide StripLeft, StripRight, Space;
    Associates(before, s, after);
    assert (s + after)[0] == s[0];
    StripLeftOf(before, s + after);
    StripRightOf(s, after);
  }

  /** Behind the sign. */
  lemma {:induction false} SignIsRead(text: Bytes, base: nat, sign: Bytes, core: Bytes)
    requires Strip(text) == sign + core && sign in {[], [43], [45]} && core != [] && core[0] != 43 && core[0] != 45
    ensures var n := ParseDigits(SkipPrefix(core, base), base, 0);
      ParseInt(text, base) == if n.None? then None else Some(if sign == [45] then 0 - n.value as int else n.value)
  {
    hide Strip, ParseDigits, SkipPrefix;
    var s := sign + core;
    assert if sign == [] then s == core else s[0] == sign[0] && s[1..] == core;
  }

  lemma {:induction false} StripKeepsDigits(s: Bytes, before: Bytes, after: Bytes)
    requires s != [] && PrintedDigit(s[0]) && PrintedDigit(Last(s))
    requires (forall i :: 0 <= i < |before| ==> Space(before[i])) && (forall i :: 0 <= i < |after| ==> Space(after[i]))
    ensures Strip(before + s + after) == s
  {
    StripBetween(before, s, after);
  }

  lemma {:induction false} StripLeftOf(before: Bytes, s: Bytes)
    requires s != [] && !Space(s[0]) && forall i :: 0 <= i < |before| ==> Space(before[i])
    ensures StripLeft(before + s) == s
  {
    if before == [] {
      assert before + s == s;
    } else {
      StripLeftOf(before[1..], s);
      assert (before + s)[1..] == before[1..] + s;
    }
  }

  lemma {:induction false} StripRightOf(s: Bytes, after: Bytes)
    requires s != [] && !Space(Last(s)) && forall i :: 0 <= i < |after| ==> Space(after[i])
    ensures StripRight(s + after) == s
  {
    if after == [] {
      assert s + after == s;
    } else {
      StripRightOf(s, Front(after));
      assert Front(s + after) == s + Front(after);
    }
  }

  /** Parsing inverts printing, in base 10 and in base 16, for every number, with any white
      space around it. */
  lemma {:induction false} ParseIntInverts(n: nat, base: nat, before: Bytes, after: Bytes)
    requires 2 <= base <= 16
    requires (forall i :: 0 <= i < |before| ==> Space(before[i])) && (forall i :: 0 <= i < |after| ==> Space(after[i]))
    ensures ParseInt(before + Print(n, base) + after, base) == Some(n)
  {
    var s := Print(n, base);
    PrintsDigits(n, base);
    StripKeepsDigits(s, before, after);
    assert |s| >= 2 ==> PrintedDigit(s[1]);
    ParsesPrinted(n, base);
  }

  /** The digits of a positive number, cut short, never spell zero. */
  lemma {:induction false} CutDigitsArePositive(s: Bytes, base: nat, acc: nat)
    requires base > 0 && s != [] && (acc > 0 || DigitValue(s[0]) > 0)
    ensures ParseDigits(s, base, acc).Some? ==> ParseDigits(s, base, acc).value > 0
  {
    if DigitValue(s[0]) < base && |s| > 1 {
      var value := Shift(acc, base, DigitValue(s[0]));
      assert acc * base >= acc;
      var rest := if s[1] == 95 then s[2..] else s[1..];
      if rest != [] {
        CutDigitsArePositive(rest, base, value);
      }
    }
  }

  lemma {:induction false} CutPrintIsPositive(n: nat, base: nat, cut: nat)
    requires 2 <= base <= 16 && n > 0 && cut <= |Print(n, base)|
    ensures ParseInt(Print(n, base)[..cut], base).Some? ==> ParseInt(Print(n, base)[..cut], base).value > 0
  {
    var s := Print(n, base)[..cut];
    PrintsDigits(n, base);
    if s != [] {
      StripKeepsDigits(s, [], []);
      assert [] + s + [] == s;
      assert |s| >= 2 ==> PrintedDigit(s[1]);
      CutDigitsArePositive(s, base, 0);
    }
  }

  // ---- Numerals, read off their characters ----

  const DIGITS := "0123456789abcdef"
  const CAPITAL_DIGITS := "0123456789ABCDEF"

  ghost predicate IsDigit(b: Byte, d: nat) {
    d < 16 && (b == DIGITS[d] as int || b == CAPITAL_DIGITS[d] as int)
  }

  ghost function Positional(acc: nat, digits: seq<nat>, base: nat): nat
    decreases |digits|
  {
    if digits == [] then acc else Positional(acc * base + digits[0], digits[1..], base)
  }

  ghost predicate SpellsAs(s: Bytes, digits: seq<nat>, base: nat, n: nat) {
    && s != [] && |digits| == |s| && n == Positional(0, digits, base)
    && forall i :: 0 <= i < |s| ==> digits[i] < base && IsDigit(s[i], digits[i])
  }

  /** A numeral for `n`: one or more digits, in either case, that have that value in the base. */
  ghost predicate Spells(s: Bytes, base: nat, n: nat) {
    exists digits :: SpellsAs(s, digits, base, n)
  }

  /** The numeral that is printed: no superfluous zero in front, no capital letter. */
  ghost predicate SpellsPlainly(s: Bytes, base: nat, n: nat) {
    && Spells(s, base, n) && (|s| > 1 ==> s[0] != 48)
    && forall i :: 0 <= i < |s| ==> 48 <= s[i] <= 57 || 97 <= s[i] <= 102
  }

  lemma {:induction false} PositionalSnoc(acc: nat, digits: seq<nat>, d: nat, base: nat)
    ensures Positional(acc, digits + [d], base) == Positional(acc, digits, base) * base + d
    decreases |digits|
  {
    var all := digits + [d];
    if digits == [] {
      assert all[1..] == [] && all[0] == d;
      assert Positional(acc * base + d, all[1..], base) == acc * base + d;
    } else {
      assert all[1..] == digits[1..] + [d] && all[0] == digits[0];
      PositionalSnoc(acc * base + digits[0], digits[1..], d, base);
    }
  }

  lemma {:induction false} DigitsExactly(d: nat)
    requires d < 16
    ensures IsDigit(DigitOf(d), d)
    ensures forall b: Byte :: IsDigit(b, d) ==> DigitValue(b) == d && !Space(b) && b != 95 && b != 45 && b != 43 && b != 120 && b != 88
  {
  }

  lemma {:induction false} PrintSpellsAs(n: nat, base: nat) returns (digits: seq<nat>)
    requires 2 <= base <= 16
    ensures SpellsAs(Print(n, base), digits, base, n)
  {
    if n < base {
      digits := [n];
      DigitsExactly(n);
      assert digits[1..] == [];
      assert Positional(0, digits, base) == Positional(n, [], base);
    } else {
      var high, low := HighDigits(n, base), LowDigit(n, base);
      LastDigit(n, base);
      DigitsExactly(low);
      var before := PrintSpellsAs(high, base);
      digits := before + [low];
      PositionalSnoc(0, before, low, base);
    }
  }

  /** What is printed is the plain numeral. */
  lemma {:induction false} PrintSpells(n: nat, base: nat)
    requires 2 <= base <= 16
    ensures SpellsPlainly(Print(n, base), base, n)
  {
    var digits := PrintSpellsAs(n, base);
    PrintsDigits(n, base);
    if |Print(n, base)| > 1 {
      assert n >= base;
      assert DigitValue(Print(n, base)[0]) > 0;
    }
  }

  lemma {:induction false} ParseSpelled(s: Bytes, digits: seq<nat>, base: nat, acc: nat)
    requires s != [] && |digits| == |s| && base <= 16
    requires forall i :: 0 <= i < |s| ==> digits[i] < base && IsDigit(s[i], digits[i])
    ensures ParseDigits(s, base, acc) == Some(Positional(acc, digits, base))
  {
    hide IsDigit;
    DigitsExactly(digits[0]);
    var value := acc * base + digits[0];
    assert Shift(acc, base, digits[0]) == value;
    if |s| == 1 {
      assert digits[1..] == [];
    } else {
      DigitsExactly(digits[1]);
      ParseSpelled(s[1..], digits[1..], base, value);
    }
  }

  lemma {:induction false} NumeralIsPlain(s: Bytes, base: nat, n: nat)
    requires base <= 16 && Spells(s, base, n)
    ensures s != [] && forall i :: 0 <= i < |s| ==> !Space(s[i]) && s[i] != 58 && s[i] != 59
  {
    var digits :| SpellsAs(s, digits, base, n);
    forall i | 0 <= i < |s| ensures !Space(s[i]) && s[i] != 58 && s[i] != 59 {
      assert IsDigit(s[i], digits[i]);
      NoDigitIsPunctuation(s[i], digits[i]);
    }
  }

  lemma {:induction false} NoDigitIsPunctuation(b: Byte, d: nat)
    requires IsDigit(b, d)
    ensures !Space(b) && b != 58 && b != 59
  {
  }

  /** Every numeral is parsed to its value: in any case, with zeros in front and white space around. */
  lemma {:induction false} NumeralIsParsed(before: Bytes, s: Bytes, after: Bytes, base: nat, n: nat)
    requires 2 <= base <= 16 && Spells(s, base, n)
    requires forall i :: 0 <= i < |before| ==> before[i] in {9, 10, 11, 12, 13, 32}
    requires forall i :: 0 <= i < |after| ==> after[i] in {9, 10, 11, 12, 13, 32}
    ensures ParseInt(before + s + after, base) == Some(n)
  {
    hide Strip, ParseInt, ParseDigits, Positional, IsDigit, DigitOf;
    var digits :| SpellsAs(s, digits, base, n);
    DigitsExactly(digits[0]);
    DigitsExactly(digits[|s| - 1]);
    if |s| > 1 { DigitsExactly(digits[1]); }
    StripBetween(before, s, after);
    AddNothing(s);
    SignIsRead(before + s + after, base, [], s);
    ParseSpelled(s, digits, base, 0);
  }

  // ---- Exactly what is stripped and parsed ----

  ghost predicate Blank(s: Bytes) {
    forall i :: 0 <= i < |s| ==> s[i] in {9, 10, 11, 12, 13, 32}
  }

  /** The word with any white space around it. */
  ghost predicate Trims(part: Bytes, left: Bytes, word: Bytes, right: Bytes) {
    && part == left + word + right && Blank(left) && Blank(right)
    && word != [] && !Blank([word[0]]) && !Blank([Last(word)])
  }

  lemma {:induction false} StrippedLeft(s: Bytes) returns (left: Bytes)
    ensures s == left + StripLeft(s) && Blank(left)
    ensures StripLeft(s) != [] ==> !Blank([StripLeft(s)[0]])
  {
    if s != [] && Space(s[0]) {
      var behind := StrippedLeft(s[1..]);
      left := [s[0]] + behind;
      assert StripLeft(s) == StripLeft(s[1..]);
      hide StripLeft;
      Associates([s[0]], behind, StripLeft(s[1..]));
      assert s == [s[0]] + s[1..];
    } else {
      left := [];
      AddNothing(s);
      assert s != [] ==> [s[0]][0] == s[0];
    }
  }

  lemma {:induction false} StrippedRight(s: Bytes) returns (right: Bytes)
    ensures s == StripRight(s) + right && Blank(right) && StripRight(s) <= s
    ensures StripRight(s) != [] ==> !Blank([Last(StripRight(s))])
  {
    if s != [] && Space(Last(s)) {
      var before := StrippedRight(Front(s));
      right := before + [Last(s)];
      assert StripRight(s) == StripRight(Front(s));
      hide StripRight;
      Associates(StripRight(Front(s)), before, [Last(s)]);
      assert s == Front(s) + [Last(s)];
    } else {
      right := [];
      AddNothing(s);
      assert s != [] ==> [Last(s)][0] == Last(s);
    }
  }

  lemma {:induction false} StripExactly(part: Bytes) returns (left: Bytes, right: Bytes)
    ensures part == left + Strip(part) + right
    ensures Strip(part) != [] ==> Trims(part, left, Strip(part), right)
  {
    hide StripLeft, StripRight, Blank;
    left := StrippedLeft(part);
    right := StrippedRight(StripLeft(part));
    Associates(left, Strip(part), right);
    assert Strip(part) != [] ==> Strip(part)[0] == StripLeft(part)[0];
  }

  lemma {:induction false} TrimmedIsStripped(part: Bytes, left: Bytes, word: Bytes, right: Bytes)
    requires Trims(part, left, word, right)
    ensures Strip(part) == word
  {
    assert [word[0]][0] == word[0] && [Last(word)][0] == Last(word);
    StripBetween(left, word, right);
  }

  /** Digits, with at most one underscore between two of them. */
  ghost predicate Grouped(s: Bytes, digits: seq<nat>, base: nat)
    decreases |s|
  {
    && s != [] && digits != [] && digits[0] < base && IsDigit(s[0], digits[0])
    && if |s| == 1 then |digits| == 1
       else Grouped(if s[1] == 95 then s[2..] else s[1..], digits[1..], base)
  }

  lemma {:induction false} NotADigit(b: Byte, base: nat)
    requires base <= 16
    ensures DigitValue(b) < base ==> IsDigit(b, DigitValue(b))
  {
  }

  lemma {:induction false} ParsedIsGrouped(s: Bytes, base: nat, acc: nat) returns (digits: seq<nat>)
    requires base <= 16 && ParseDigits(s, base, acc).Some?
    ensures Grouped(s, digits, base) && ParseDigits(s, base, acc).value == Positional(acc, digits, base)
    decreases |s|
  {
    NotADigit(s[0], base);
    var d := DigitValue(s[0]);
    var value := acc * base + d;
    assert Shift(acc, base, d) == value;
    hide IsDigit, DigitValue;
    if |s| == 1 {
      digits := [d];
      assert digits[1..] == [];
      assert Positional(acc, digits, base) == Positional(value, [], base);
    } else {
      var rest := ParsedIsGrouped(if s[1] == 95 then s[2..] else s[1..], base, value);
      digits := [d] + rest;
      assert digits[1..] == rest;
    }
  }

  lemma {:induction false} GroupedIsParsed(s: Bytes, digits: seq<nat>, base: nat, acc: nat)
    requires base <= 16 && Grouped(s, digits, base)
    ensures ParseDigits(s, base, acc) == Some(Positional(acc, digits, base))
    decreases |s|
  {
    DigitsExactly(digits[0]);
    hide IsDigit;
    var value := acc * base + digits[0];
    assert Shift(acc, base, digits[0]) == value;
    if |s| == 1 {
      assert digits[1..] == [];
      assert Positional(acc, digits, base) == Positional(value, [], base);
    } else {
      GroupedIsParsed(if s[1] == 95 then s[2..] else s[1..], digits[1..], base, value);
    }
  }

  /** `0x` or `0X`, with or without an underscore, in base 16; otherwise nothing. */
  predicate Prefix(s: Bytes, base: nat) {
    s == [] || (base == 16 && s in {[48, 120], [48, 88], [48, 120, 95], [48, 88, 95]})
  }

  ghost predicate NumberParts(
    text: Bytes, base: nat, v: int, left: Bytes, sign: Bytes, prefix: Bytes, numeral: Bytes, right: Bytes, digits: seq<nat>)
  {
    && text == left + (sign + (prefix + numeral)) + right && Blank(left) && Blank(right)
    && sign in {[], [43], [45]} && Prefix(prefix, base) && Grouped(numeral, digits, base)
    && v == if sign == [45] then 0 - Positional(0, digits, base) as int else Positional(0, digits, base)
  }

  /** What Python takes for an integer: white space around an optional sign, an optional prefix and
      grouped digits. */
  ghost predicate IsNumber(text: Bytes, base: nat, v: int) {
    exists left, sign, prefix, numeral, right, digits :: NumberParts(text, base, v, left, sign, prefix, numeral, right, digits)
  }

  lemma {:induction false} GroupedEnds(s: Bytes, digits: seq<nat>, base: nat)
    requires base <= 16 && Grouped(s, digits, base)
    ensures !Space(s[0]) && s[0] != 95 && s[0] != 43 && s[0] != 45 && !Space(Last(s))
    ensures |s| > 1 ==> s[1] != 120 && s[1] != 88
    decreases |s|
  {
    DigitsExactly(digits[0]);
    hide IsDigit;
    if |s| > 1 {
      var rest := if s[1] == 95 then s[2..] else s[1..];
      GroupedEnds(rest, digits[1..], base);
      DigitsExactly(digits[1..][0]);
      assert Last(rest) == Last(s);
    }
  }

  lemma {:induction false} PrefixIsSkipped(prefix: Bytes, numeral: Bytes, digits: seq<nat>, base: nat)
    requires base <= 16 && Prefix(prefix, base) && Grouped(numeral, digits, base)
    ensures SkipPrefix(prefix + numeral, base) == numeral
    ensures var s := prefix + numeral; s != [] && !Space(s[0]) && s[0] != 43 && s[0] != 45 && !Space(Last(s))
  {
    GroupedEnds(numeral, digits, base);
    var s := prefix + numeral;
    hide Grouped;
    assert s[|prefix|..] == numeral && s[|prefix|] == numeral[0] && Last(s) == Last(numeral);
    if prefix == [] {
      assert s == numeral;
    }
  }

  lemma {:induction false} SkippedIsPrefix(s: Bytes, base: nat) returns (prefix: Bytes)
    ensures Prefix(prefix, base) && s == prefix + SkipPrefix(s, base)
  {
    prefix := s[..|s| - |SkipPrefix(s, base)|];
    if prefix != [] {
      assert prefix == if |prefix| == 3 then [48, s[1], 95] else [48, s[1]];
    }
  }

  lemma {:induction false} NumberIsParsed(
    text: Bytes, base: nat, v: int, left: Bytes, sign: Bytes, prefix: Bytes, numeral: Bytes, right: Bytes, digits: seq<nat>)
    requires 2 <= base <= 16 && NumberParts(text, base, v, left, sign, prefix, numeral, right, digits)
    ensures ParseInt(text, base) == Some(v)
  {
    hide Grouped, Positional, ParseInt, ParseDigits, SkipPrefix, Strip, Prefix;
    var core := prefix + numeral;
    var s := sign + core;
    PrefixIsSkipped(prefix, numeral, digits, base);
    GroupedIsParsed(numeral, digits, base, 0);
    assert Last(s) == Last(core) && s[0] == if sign == [] then core[0] else sign[0];
    StripBetween(left, s, right);
    SignIsRead(text, base, sign, core);
  }

  lemma {:induction false} ParsedIsNumber(text: Bytes, base: nat)
    requires 2 <= base <= 16 && ParseInt(text, base).Some?
    ensures IsNumber(text, base, ParseInt(text, base).value)
  {
    var s := Strip(text);
    var left, right := StripExactly(text);
    var sign: Bytes := if s != [] && (s[0] == 43 || s[0] == 45) then [s[0]] else [];
    var core := s[|sign|..];
    assert s == sign + core;
    var prefix := SkippedIsPrefix(core, base);
    var numeral := SkipPrefix(core, base);
    hide SkipPrefix, Strip;
    var digits := ParsedIsGrouped(numeral, base, 0);
    StripIsTrimmed(text, left, right);
    hide Grouped, Positional, ParseDigits;
    assert NumberParts(text, base, ParseInt(text, base).value, left, sign, prefix, numeral, right, digits);
  }

  lemma {:induction false} StripIsTrimmed(text: Bytes, left: Bytes, right: Bytes)
    requires text == left + Strip(text) + right && (Strip(text) != [] ==> Trims(text, left, Strip(text), right))
    ensures Strip(text) != [] ==> Blank(left) && Blank(right)
  {
  }

  /** `int(text, base)` succeeds exactly on what Python takes for an integer, with its value. */
  lemma {:induction false} ParsesExactly(text: Bytes, base: nat, v: int)
    requires 2 <= base <= 16
    ensures ParseInt(text, base) == Some(v) <==> IsNumber(text, base, v)
  {
    hide ParseInt, NumberParts;
    if ParseInt(text, base) == Some(v) {
      ParsedIsNumber(text, base);
    }
    if IsNumber(text, base, v) {
      var left, sign, prefix, numeral, right, digits :| NumberParts(text, base, v, left, sign, prefix, numeral, right, digits);
      NumberIsParsed(text, base, v, left, sign, prefix, numeral, right, digits);
    }
  }
}
