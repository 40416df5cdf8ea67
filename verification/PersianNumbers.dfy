/** Printing money in Persian digits, and the importer's reading of numbers in any digits. */
module PersianNumbers {
  import opened Wrappers
  import opened JsNumber

  /** The Arabic thousands separator. */
  const SEPARATOR: char := '\U{066C}'

  predicate IsDigit(c: char) { '0' <= c <= '9' }

  /** `\w` of a regular expression. */
  predicate IsWord(c: char) {
    IsDigit(c) || 'a' <= c <= 'z' || 'A' <= c <= 'Z' || c == '_'
  }

  function Ascii(d: nat): (c: char)
    requires d < 10
    ensures IsDigit(c) && c as int == 0x30 + d
  {
    (0x30 + d) as char
  }

  function Digits(n: nat): string {
    if n < 10 then [Ascii(n)] else Digits(n / 10) + [Ascii(n % 10)]
  }

  /** `n.toString()`. */
  function ToText(n: int): string {
    if n < 0 then "-" + Digits(-n) else Digits(n)
  }

  /** How many digits in a row start at position `i`. */
  function DigitRun(s: string, i: nat): nat
    requires i <= |s|
    decreases |s| - i
  {
    if i == |s| || !IsDigit(s[i]) then 0 else 1 + DigitRun(s, i + 1)
  }

  /** `\B`: no word boundary before position `i`. */
  predicate Inside(s: string, i: nat)
    requires i < |s|
  {
    (i > 0 && IsWord(s[i - 1])) == IsWord(s[i])
  }

  /** A match of the separator pattern: a multiple of three digits follows, and no more. */
  predicate SeparatorAt(s: string, i: nat)
    requires i < |s|
  {
    Inside(s, i) && DigitRun(s, i) > 0 && DigitRun(s, i) % 3 == 0
  }

  function GroupFrom(s: string, i: nat): string
    requires i <= |s|
    decreases |s| - i
  {
    if i == |s| then ""
    else (if SeparatorAt(s, i) then [SEPARATOR] else "") + [s[i]] + GroupFrom(s, i + 1)
  }

  function Persian(c: char): char {
    if IsDigit(c) then (0x6F0 + (c as int - 0x30)) as char else c
  }

  function ToPersian(s: string): string {
    if s == "" then "" else [Persian(s[0])] + ToPersian(s[1..])
  }

  /** Rounded, grouped by thousands, in Persian digits. */
  function FaMoney(x: real): string {
    ToPersian(GroupFrom(ToText(Round(x)), 0))
  }

  // ---- Reading ----

  /** Persian and Arabic digits to ASCII. */
  function Latin(c: char): char {
    if 0x6F0 <= c as int <= 0x6F9 then (c as int - 0x6F0 + 0x30) as char
    else if 0x660 <= c as int <= 0x669 then (c as int - 0x660 + 0x30) as char
    else c
  }

  function DigitsOnly(s: string): string {
    if s == "" then ""
    else (if IsDigit(Latin(s[0])) then [Latin(s[0])] else "") + DigitsOnly(s[1..])
  }

  function Value(s: string): nat {
    if s == "" then 0
    else 10 * Value(s[..|s| - 1]) + if IsDigit(s[|s| - 1]) then s[|s| - 1] as int - 0x30 else 0
  }

  function ToIntOrNull(s: string): Option<nat> {
    var d := DigitsOnly(s);
    if d == "" || Value(d) == 0 then None else Some(Value(d))
  }

  // ---- The round trip ----

  lemma {:induction false} DigitsAre(n: nat)
    ensures |Digits(n)| > 0 && forall i | 0 <= i < |Digits(n)| :: IsDigit(Digits(n)[i])
  {
    if n >= 10 {
      DigitsAre(n / 10);
    }
  }

  lemma {:induction false} ValueOfDigits(n: nat)
    ensures Value(Digits(n)) == n
  {
    if n < 10 {
      assert [Ascii(n)][..0] == "";
    } else {
      ValueOfDigits(n / 10);
      assert Digits(n)[..|Digits(n)| - 1] == Digits(n / 10);
    }
  }

  lemma {:induction false} KeepsDigits(s: string)
    requires forall i | 0 <= i < |s| :: IsDigit(s[i])
    ensures DigitsOnly(s) == s
  {
    if s != "" {
      KeepsDigits(s[1..]);
    }
  }

  lemma SeparatorDropped(tail: string)
    ensures DigitsOnly(ToPersian([SEPARATOR] + tail)) == DigitsOnly(ToPersian(tail))
  {
    PrintedHead(SEPARATOR, tail);
    assert !IsDigit(Latin(Persian(SEPARATOR)));
  }

  lemma DigitsOfDrop(s: string, i: nat)
    requires i < |s| && (s[i] == '-' || IsDigit(s[i]))
    ensures DigitsOnly(s[i..]) == (if IsDigit(s[i]) then [s[i]] else "") + DigitsOnly(s[i + 1..])
  {
    assert s[i..][0] == s[i] && s[i..][1..] == s[i + 1..];
  }

  /** Persian and Arabic digits are read at their value, like plain ones. */
  lemma ReadDigits(d: nat)
    requires d < 10
    ensures Latin('0' + d as char) == Latin('\U{06F0}' + d as char) == Latin('\U{0660}' + d as char) == '0' + d as char
  {
  }

  /** Whatever separators go in, the digits come out: reading undoes grouping and translation. */
  lemma {:induction false} ReadsBack(s: string, i: nat)
    requires i <= |s|
    requires forall k | 0 <= k < |s| :: s[k] == '-' || IsDigit(s[k])
    ensures DigitsOnly(ToPersian(GroupFrom(s, i))) == DigitsOnly(s[i..])
    decreases |s| - i
  {
    if i < |s| {
      ReadsBack(s, i + 1);
      var tail := [s[i]] + GroupFrom(s, i + 1);
      PrintedHead(s[i], GroupFrom(s, i + 1));
      SeparatorDropped(tail);
      ReadPrinted(s[i]);
      DigitsOfDrop(s, i);
      assert GroupFrom(s, i) == if SeparatorAt(s, i) then [SEPARATOR] + tail else tail;
    }
  }

  lemma PrintedHead(c: char, rest: string)
    ensures var l := Latin(Persian(c));
            DigitsOnly(ToPersian([c] + rest)) == (if IsDigit(l) then [l] else "") + DigitsOnly(ToPersian(rest))
  {
    assert ([c] + rest)[1..] == rest;
    var printed := ToPersian([c] + rest);
    assert printed[0] == Persian(c) && printed[1..] == ToPersian(rest);
  }

  lemma ReadPrinted(c: char)
    requires c == '-' || IsDigit(c)
    ensures Latin(Persian(c)) == c
  {
  }

  /** Reading back a printed amount gives its absolute value, and nothing at all for zero. */
  lemma PrintThenRead(x: real)
    ensures ToIntOrNull(FaMoney(x)) ==
            if Round(x) == 0 then None else Some(if Round(x) < 0 then -Round(x) else Round(x))
  {
    var n := Round(x);
    var m: nat := if n < 0 then -n else n;
    DigitsAre(m);
    ValueOfDigits(m);
    KeepsDigits(Digits(m));
    ReadsBack(ToText(n), 0);
    assert ToText(n)[0..] == ToText(n);
    if n < 0 {
      assert ToText(n)[0] == '-' && ToText(n)[1..] == Digits(m);
      assert DigitsOnly(ToText(n)) == "" + DigitsOnly(Digits(m));
    }
    assert DigitsOnly(FaMoney(x)) == Digits(m);
  }

  /** Printing and parsing undo each other exactly for positive amounts. */
  lemma RoundTripIff(n: int)
    ensures ToIntOrNull(FaMoney(n as real)) == (if n >= 0 then Some(n) else None) <==> n > 0
  {
    RoundOfInt(n);
    PrintThenRead(n as real);
  }

  lemma {:induction false} RunOfDigits(s: string, i: nat)
    requires i <= |s| && forall k | i <= k < |s| :: IsDigit(s[k])
    ensures DigitRun(s, i) == |s| - i
    decreases |s| - i
  {
    if i < |s| {
      RunOfDigits(s, i + 1);
    }
  }

  /** The pattern finds the thousands: every third position from the right, never the front. */
  lemma SeparatorsByThrees(n: nat, i: nat)
    requires i < |Digits(n)|
    ensures SeparatorAt(Digits(n), i) <==> i > 0 && (|Digits(n)| - i) % 3 == 0
  {
    DigitsAre(n);
    RunOfDigits(Digits(n), i);
  }

  predicate AllDigits(s: string) { forall k | 0 <= k < |s| :: '0' <= s[k] <= '9' }

  /** Persian digits from place `i` on, with a separator before every third place from the right, but not in front. */
  function Grouped(digits: string, i: nat): string
    requires i <= |digits| && AllDigits(digits)
    decreases |digits| - i
  {
    if i == |digits| then ""
    else (if i > 0 && (|digits| - i) % 3 == 0 then ['\U{066C}'] else "") + ['\U{06F0}' + (digits[i] - '0')] + Grouped(digits, i + 1)
  }

  lemma {:induction false} ToPersianConcat(a: string, b: string)
    ensures ToPersian(a + b) == ToPersian(a) + ToPersian(b)
    decreases |a|
  {
    if a == "" {
      assert a + b == b;
    } else {
      ToPersianConcat(a[1..], b);
      assert (a + b)[0] == a[0] && (a + b)[1..] == a[1..] + b;
    }
  }

  /** Behind a sign or not, the digits are grouped from the right. */
  lemma {:induction false} GroupsDigits(sign: string, digits: string, i: nat)
    requires sign == "" || sign == "-"
    requires i <= |digits| && AllDigits(digits)
    ensures ToPersian(GroupFrom(sign + digits, |sign| + i)) == Grouped(digits, i)
    decreases |digits| - i
  {
    var s, k := sign + digits, |sign| + i;
    if i < |digits| {
      GroupsDigits(sign, digits, i + 1);
      RunOfDigits(s, k);
      assert s[k] == digits[i] && (k > 0 ==> s[k - 1] == if i > 0 then digits[i - 1] else sign[0]);
      assert SeparatorAt(s, k) <==> i > 0 && (|digits| - i) % 3 == 0;
      var front := if SeparatorAt(s, k) then [SEPARATOR] else "";
      ToPersianConcat(front + [s[k]], GroupFrom(s, k + 1));
      ToPersianConcat(front, [s[k]]);
      assert GroupFrom(s, k) == front + [s[k]] + GroupFrom(s, k + 1);
      assert ToPersian([s[k]]) == ['\U{06F0}' + (digits[i] - '0')];
      assert ToPersian(front) == front;
    }
  }

  lemma {:induction false} NoLeadingZero(n: nat)
    ensures |Digits(n)| > 0 && (if n == 0 then Digits(n) == "0" else Digits(n)[0] != '0')
  {
    if n >= 10 {
      NoLeadingZero(n / 10);
    }
  }

  /** The whole print of an amount: its sign, if it is negative, and its grouped Persian digits. */
  lemma PrintIs(x: real)
    ensures var n := Round(x);
            var m: nat := if n < 0 then -n else n;
            && AllDigits(Digits(m)) && Value(Digits(m)) == m && |Digits(m)| > 0 && (Digits(m)[0] == '0' ==> Digits(m) == "0")
            && FaMoney(x) == (if n < 0 then "-" else "") + Grouped(Digits(m), 0)
  {
    var n := Round(x);
    var m: nat := if n < 0 then -n else n;
    DigitsAre(m);
    ValueOfDigits(m);
    NoLeadingZero(m);
    if n < 0 {
      PrintsSign(Digits(m));
    } else {
      GroupsDigits("", Digits(m), 0);
      assert "" + Digits(m) == Digits(m) && "" + Grouped(Digits(m), 0) == Grouped(Digits(m), 0);
    }
  }

  lemma PrintsSign(digits: string)
    requires AllDigits(digits) && digits != ""
    ensures ToPersian(GroupFrom("-" + digits, 0)) == "-" + Grouped(digits, 0)
  {
    var s := "-" + digits;
    GroupsDigits("-", digits, 0);
    assert GroupFrom(s, 0) == "-" + GroupFrom(s, 1);
    ToPersianConcat("-", GroupFrom(s, 1));
    assert ToPersian("-") == "-";
  }
}
