/** GLM amounts as text: the configuration's parser and the log's printer. */
module Glm {
  import opened Basics

  const DECIMALS: nat := 18
  const GLM_WEI: nat := 1_000_000_000_000_000_000
  const U256: nat := TWO_TO_256

  datatype AmountError = NotAnAmount | AmountTooLarge

  predicate IsDigit(c: char) {
    '0' <= c <= '9'
  }

  predicate Digits(s: string) {
    forall i :: 0 <= i < |s| ==> IsDigit(s[i])
  }

  function DigitOf(n: nat): char
    requires n < 10
  {
    '0' + n as char
  }

  function ValueOf(c: char): nat {
    if IsDigit(c) then (c - '0') as nat else 0
  }

  function Pow10(n: nat): nat {
    if n == 0 then 1 else 10 * Pow10(n - 1)
  }

  /** The number a string of digits spells. */
  function FromDigits(s: string): nat {
    if s == "" then 0 else 10 * FromDigits(s[..|s| - 1]) + ValueOf(s[|s| - 1])
  }

  /** A number in decimal, without leading zeros. */
  function ToDigits(n: nat): string {
    if n < 10 then [DigitOf(n)] else ToDigits(n / 10) + [DigitOf(n % 10)]
  }

  /** The last `width` decimals of a number, leading zeros kept. */
  function Fixed(n: nat, width: nat): string {
    if width == 0 then "" else Fixed(n / 10, width - 1) + [DigitOf(n % 10)]
  }

  function Zeros(n: nat): string {
    seq(n, _ => '0')
  }

  /** Before the first dot, and after it; everything when there is none. */
  function SplitOnce(text: string): (string, string) {
    if text == "" then ("", "")
    else if text[0] == '.' then ("", text[1..])
    else
      var rest := SplitOnce(text[1..]);
      ([text[0]] + rest.0, rest.1)
  }

  /** A GLM amount written the human way, to wei. */
  function Parse(text: string): Result<nat, AmountError> {
    var (whole, fraction) := SplitOnce(text);
    if whole == "" || |fraction| > DECIMALS || !Digits(whole + fraction) then Err(NotAnAmount)
    else
      var wei := FromDigits(whole + fraction + Zeros(DECIMALS - |fraction|));
      if wei >= U256 then Err(AmountTooLarge) else Ok(wei)
  }

  function TrimEnd(s: string, c: char): string {
    if s != "" && s[|s| - 1] == c then TrimEnd(s[..|s| - 1], c) else s
  }

  /** An amount of wei as GLM, the trailing zeros cut. */
  function Print(wei: nat): string {
    TrimEnd(TrimEnd(ToDigits(wei / GLM_WEI) + "." + Fixed(wei % GLM_WEI, DECIMALS), '0'), '.')
  }

  function TrimStart(s: string): string {
    if |s| > 1 && s[0] == '0' then TrimStart(s[1..]) else s
  }

  /** Whole part and decimals put together, a dot only before decimals. */
  function Joined(whole: string, fraction: string): string {
    if fraction == "" then whole else whole + "." + fraction
  }

  /** An accepted text without what does not count: leading zeros, trailing zeros, a bare dot. */
  function Canonical(text: string): string {
    var (whole, fraction) := SplitOnce(text);
    Joined(TrimStart(whole), TrimEnd(fraction, '0'))
  }

  /* ---------- digits ---------- */

  lemma {:induction false} FromDigitsBoth(a: string, b: string)
    ensures FromDigits(a + b) == FromDigits(a) * Pow10(|b|) + FromDigits(b)
  {
    if b == "" {
      assert a + b == a;
    } else {
      var b' := b[..|b| - 1];
      assert (a + b)[..|a + b| - 1] == a + b';
      FromDigitsBoth(a, b');
      Tenfold(FromDigits(a), Pow10(|b'|), FromDigits(b'));
    }
  }

  lemma Tenfold(x: nat, p: nat, y: nat)
    ensures 10 * (x * p + y) == x * (10 * p) + 10 * y
  {
  }

  lemma {:induction false} FixedIs(n: nat, width: nat)
    requires n < Pow10(width)
    ensures |Fixed(n, width)| == width && Digits(Fixed(n, width)) && FromDigits(Fixed(n, width)) == n
  {
    if width > 0 {
      FixedIs(n / 10, width - 1);
      var before := Fixed(n / 10, width - 1);
      assert Fixed(n, width)[..width - 1] == before;
    }
  }

  lemma {:induction false} DigitsBounded(s: string)
    ensures FromDigits(s) < Pow10(|s|)
  {
    if s != "" { DigitsBounded(s[..|s| - 1]); }
  }

  lemma {:induction false} FixedOf(s: string)
    requires Digits(s)
    ensures Fixed(FromDigits(s), |s|) == s
  {
    if s != "" {
      var before, last := s[..|s| - 1], s[|s| - 1];
      FixedOf(before);
      assert FromDigits(s) / 10 == FromDigits(before) && FromDigits(s) % 10 == ValueOf(last);
      assert DigitOf(ValueOf(last)) == last;
    }
  }

  lemma {:induction false} ToDigitsIs(n: nat)
    ensures Digits(ToDigits(n)) && ToDigits(n) != "" && FromDigits(ToDigits(n)) == n
  {
    if n >= 10 {
      ToDigitsIs(n / 10);
      assert ToDigits(n)[..|ToDigits(n)| - 1] == ToDigits(n / 10);
    } else {
      assert ToDigits(n)[..0] == "";
    }
  }

  lemma {:induction false} TrimStartSame(s: string)
    ensures FromDigits(TrimStart(s)) == FromDigits(s) && (s != "" ==> TrimStart(s) != "") && (Digits(s) ==> Digits(TrimStart(s)))
  {
    if |s| > 1 && s[0] == '0' {
      TrimStartSame(s[1..]);
      FromDigitsBoth([s[0]], s[1..]);
      assert [s[0]] + s[1..] == s && FromDigits([s[0]]) == 0;
    }
  }

  /** A number has one spelling without leading zeros. */
  lemma {:induction false} ToDigitsOf(s: string)
    requires Digits(s) && s != "" && (|s| > 1 ==> s[0] != '0')
    ensures ToDigits(FromDigits(s)) == s
  {
    var before, last := s[..|s| - 1], s[|s| - 1];
    assert DigitOf(ValueOf(last)) == last;
    if |s| == 1 {
      assert before == "";
    } else {
      ToDigitsOf(before);
      Leading(before);
      assert FromDigits(s) / 10 == FromDigits(before) && FromDigits(s) % 10 == ValueOf(last);
    }
  }

  lemma {:induction false} Leading(s: string)
    requires Digits(s) && s != "" && s[0] != '0'
    ensures FromDigits(s) > 0
  {
    if |s| > 1 { Leading(s[..|s| - 1]); } else { assert s[..0] == ""; }
  }

  lemma {:induction false} TrimmedStart(s: string)
    ensures |TrimStart(s)| > 1 ==> TrimStart(s)[0] != '0'
  {
    if |s| > 1 && s[0] == '0' { TrimmedStart(s[1..]); }
  }

  /* ---------- trimming and splitting ---------- */

  lemma {:induction false} TrimIs(s: string, c: char)
    ensures var t := TrimEnd(s, c);
            && |t| <= |s| && s == t + seq(|s| - |t|, _ => c) && (t != "" ==> t[|t| - 1] != c)
  {
    if s != "" && s[|s| - 1] == c {
      TrimIs(s[..|s| - 1], c);
      assert s == s[..|s| - 1] + [c];
    }
  }

  lemma {:induction false} TrimMore(s: string, c: char, n: nat)
    ensures TrimEnd(s + seq(n, _ => c), c) == TrimEnd(s, c)
  {
    var t := s + seq(n, _ => c);
    if n == 0 {
      assert t == s;
    } else {
      assert t[..|t| - 1] == s + seq(n - 1, _ => c);
      TrimMore(s, c, n - 1);
    }
  }

  /** Behind something that does not end in `c`, only the rest is trimmed. */
  lemma {:induction false} TrimBehind(a: string, b: string, c: char)
    requires a != "" && a[|a| - 1] != c
    ensures TrimEnd(a + b, c) == a + TrimEnd(b, c)
  {
    if b == "" {
      assert a + b == a;
    } else {
      assert (a + b)[|a + b| - 1] == b[|b| - 1];
      if b[|b| - 1] == c {
        assert (a + b)[..|a + b| - 1] == a + b[..|b| - 1];
        TrimBehind(a, b[..|b| - 1], c);
      }
    }
  }

  lemma {:induction false} SplitJoined(whole: string, fraction: string)
    requires Digits(whole)
    ensures SplitOnce(whole + "." + fraction) == (whole, fraction) && SplitOnce(whole) == (whole, "")
  {
    var text := whole + "." + fraction;
    if whole == "" {
      assert text[0] == '.' && text[1..] == fraction;
    } else {
      assert text[0] == whole[0] && text[1..] == whole[1..] + "." + fraction;
      SplitJoined(whole[1..], fraction);
      assert whole == [whole[0]] + whole[1..];
    }
  }

  lemma PowDecimals()
    ensures Pow10(DECIMALS) == GLM_WEI
  {
    assert Pow10(6) == 1_000_000;
    assert Pow10(12) == 1_000_000 * Pow10(6);
    assert Pow10(18) == 1_000_000 * Pow10(12);
  }

  /** What the printer makes of a whole part and eighteen decimals. */
  lemma PrintedAs(whole: string, decimals: string)
    requires Digits(whole) && whole != "" && Digits(decimals)
    ensures TrimEnd(TrimEnd(whole + "." + decimals, '0'), '.') == Joined(whole, TrimEnd(decimals, '0'))
  {
    TrimBehind(whole + ".", decimals, '0');
    var kept := TrimEnd(decimals, '0');
    TrimIs(decimals, '0');
    if kept == "" {
      assert whole + "." + kept == whole + ".";
      assert (whole + ".")[..|whole|] == whole;
      assert whole[|whole| - 1] != '.';
    } else {
      var text := whole + "." + kept;
      assert text[|text| - 1] == kept[|kept| - 1] == decimals[|kept| - 1];
    }
  }

  lemma Parts(whole: nat, decimals: nat)
    requires decimals < GLM_WEI
    ensures (whole * GLM_WEI + decimals) / GLM_WEI == whole && (whole * GLM_WEI + decimals) % GLM_WEI == decimals
  {
  }

  /** Parsing the printed amount gives it back, for every amount that fits. */
  lemma PrintParses(wei: nat)
    requires wei < U256
    ensures Parse(Print(wei)) == Ok(wei)
  {
    hide ToDigits, Fixed, FromDigits, TrimEnd, SplitOnce, Pow10, Zeros, Digits;
    var whole, decimals := ToDigits(wei / GLM_WEI), Fixed(wei % GLM_WEI, DECIMALS);
    PowDecimals();
    ToDigitsIs(wei / GLM_WEI);
    FixedIs(wei % GLM_WEI, DECIMALS);
    PrintedAs(whole, decimals);
    var fraction := TrimEnd(decimals, '0');
    TrimmedDecimals(decimals, fraction);
    SplitJoined(whole, fraction);
    BothDigits(whole, fraction);
    assert whole + fraction + Zeros(DECIMALS - |fraction|) == whole + (fraction + Zeros(DECIMALS - |fraction|));
    FromDigitsBoth(whole, decimals);
    Whole(wei);
    assert whole + "" == whole;
  }

  lemma Whole(wei: nat)
    ensures (wei / GLM_WEI) * GLM_WEI + wei % GLM_WEI == wei
  {
  }

  lemma TrimmedDecimals(decimals: string, fraction: string)
    requires Digits(decimals) && |decimals| == DECIMALS && fraction == TrimEnd(decimals, '0')
    ensures |fraction| <= DECIMALS && Digits(fraction) && decimals == fraction + Zeros(DECIMALS - |fraction|)
  {
    TrimIs(decimals, '0');
    hide TrimEnd;
    assert forall i :: 0 <= i < |fraction| ==> fraction[i] == decimals[i];
  }

  lemma BothDigits(whole: string, fraction: string)
    ensures Digits(whole) && Digits(fraction) <==> Digits(whole + fraction)
  {
    forall i | 0 <= i < |whole| ensures (whole + fraction)[i] == whole[i] {}
    forall i | 0 <= i < |fraction| ensures (whole + fraction)[|whole| + i] == fraction[i] {}
  }

  /** Printing what a text parses to gives the text's canonical form. */
  lemma ParsePrints(text: string)
    requires Parse(text).Ok?
    ensures Print(Parse(text).value) == Canonical(text)
  {
    hide ToDigits, Fixed, FromDigits, TrimEnd, TrimStart, SplitOnce, Pow10, Zeros, Digits;
    var (whole, fraction) := SplitOnce(text);
    var decimals := fraction + Zeros(DECIMALS - |fraction|);
    DigitParts(whole, fraction, decimals);
    assert whole + fraction + Zeros(DECIMALS - |fraction|) == whole + decimals;
    FromDigitsBoth(whole, decimals);
    PowDecimals();
    DigitsBounded(decimals);
    Parts(FromDigits(whole), FromDigits(decimals));
    FixedOf(decimals);
    BothDigits(whole, fraction);
    TrimStartSame(whole);
    TrimmedStart(whole);
    ToDigitsOf(TrimStart(whole));
    PrintedAs(TrimStart(whole), decimals);
    TrimMore(fraction, '0', DECIMALS - |fraction|);
    ZerosAt(DECIMALS - |fraction|);
  }

  lemma ZerosAt(n: nat)
    ensures Zeros(n) == seq(n, _ => '0')
  {
  }

  lemma DigitParts(whole: string, fraction: string, decimals: string)
    requires |fraction| <= DECIMALS && Digits(whole + fraction) && decimals == fraction + Zeros(DECIMALS - |fraction|)
    ensures Digits(whole) && Digits(fraction) && Digits(decimals) && |decimals| == DECIMALS
  {
    BothDigits(whole, fraction);
  }

  /** Two accepted texts mean the same amount exactly when they have the same canonical form. */
  lemma SameAmount(left: string, right: string)
    requires Parse(left).Ok? && Parse(right).Ok?
    ensures Parse(left) == Parse(right) <==> Canonical(left) == Canonical(right)
  {
    ParsePrints(left);
    ParsePrints(right);
    ParsedFits(left);
    ParsedFits(right);
    PrintParses(Parse(left).value);
    PrintParses(Parse(right).value);
  }

  lemma ParsedFits(text: string)
    requires Parse(text).Ok?
    ensures Parse(text).value < U256
  {
  }

  /** A text spells an amount of GLM: digits, and behind one dot, if there is one, at most eighteen more. */
  predicate Spells(text: string, whole: string, fraction: string) {
    && (text == whole + "." + fraction || (text == whole && fraction == ""))
    && whole != "" && Digits(whole) && Digits(fraction) && |fraction| <= DECIMALS
  }

  function Amount(whole: string, fraction: string): nat
    requires |fraction| <= DECIMALS
  {
    FromDigits(whole) * GLM_WEI + FromDigits(fraction) * Pow10(DECIMALS - |fraction|)
  }

  /** Of all texts, exactly those are accepted that spell an amount which fits, and each parses to that amount. */
  lemma AcceptsExactly(text: string, wei: nat)
    ensures Parse(text) == Ok(wei) <==>
              exists whole, fraction :: Spells(text, whole, fraction) && Amount(whole, fraction) == wei < U256
  {
    hide FromDigits, SplitOnce, Pow10, Zeros, Digits;
    var (whole, fraction) := SplitOnce(text);
    SplitRejoins(text);
    BothDigits(whole, fraction);
    if |fraction| <= DECIMALS { AmountIs(whole, fraction); }
    if Parse(text) == Ok(wei) { assert Spells(text, whole, fraction) && Amount(whole, fraction) == wei; }
    forall w, f | Spells(text, w, f) ensures w == whole && f == fraction {
      SplitSpelled(text, w, f);
    }
  }

  lemma {:induction false} SplitRejoins(text: string)
    ensures var (whole, fraction) := SplitOnce(text);
            text == whole + "." + fraction || (text == whole && fraction == "")
  {
    if text != "" && text[0] != '.' {
      SplitRejoins(text[1..]);
      assert text == [text[0]] + text[1..];
    } else if text != "" {
      assert text == "" + "." + text[1..];
    }
  }

  lemma SplitSpelled(text: string, whole: string, fraction: string)
    requires Spells(text, whole, fraction)
    ensures SplitOnce(text) == (whole, fraction)
  {
    hide SplitOnce;
    SplitJoined(whole, fraction);
  }

  lemma AmountIs(whole: string, fraction: string)
    requires |fraction| <= DECIMALS
    ensures FromDigits(whole + fraction + Zeros(DECIMALS - |fraction|))
         == FromDigits(whole) * GLM_WEI + FromDigits(fraction) * Pow10(DECIMALS - |fraction|)
  {
    var zeros := Zeros(DECIMALS - |fraction|);
    PowDecimals();
    FromDigitsBoth(fraction, zeros);
    ZerosAre(DECIMALS - |fraction|);
    FromDigitsBoth(whole, fraction + zeros);
    assert whole + fraction + zeros == whole + (fraction + zeros);
  }

  lemma {:induction false} ZerosAre(n: nat)
    ensures FromDigits(Zeros(n)) == 0
  {
    if n > 0 { ZerosAre(n - 1); assert Zeros(n)[..n - 1] == Zeros(n - 1); }
  }
}
