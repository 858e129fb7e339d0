/** Bandwidth limits: the rate grammar, its parser and the token-bucket burst size
    (`common/qdisc.go`). */
module Rate {
  import opened Decimal
  import opened Options

  // ---- text ----

  /** `unicode.ToLower`, exact for every character whose lower-case form is ASCII. */
  function LowerChar(c: char): char {
    if 'A' <= c <= 'Z' then (c as int + 32) as char
    else if c == '\U{212A}' then 'k'   // KELVIN SIGN
    else if c == '\U{130}' then 'i'    // LATIN CAPITAL LETTER I WITH DOT ABOVE
    else c
  }

  function Lower(s: string): (r: string)
    ensures |r| == |s|
  {
    seq(|s|, i requires 0 <= i < |s| => LowerChar(s[i]))
  }

  /** `unicode.IsSpace`. */
  predicate IsSpace(c: char) {
    || '\t' <= c <= '\r' || c == ' ' || c == '\U{85}' || c == '\U{A0}' || c == '\U{1680}'
    || '\U{2000}' <= c <= '\U{200A}' || c == '\U{2028}' || c == '\U{2029}'
    || c == '\U{202F}' || c == '\U{205F}' || c == '\U{3000}'
  }

  function TrimSpace(s: string): string {
    if s == "" then s
    else if IsSpace(s[0]) then TrimSpace(s[1..])
    else if IsSpace(s[|s| - 1]) then TrimSpace(s[..|s| - 1])
    else s
  }

  /** What is left of a rate string once case and surrounding white space are dropped. */
  function Clean(s: string): string { TrimSpace(Lower(s)) }

  predicate HasSuffix(s: string, suffix: string) {
    |suffix| <= |s| && s[|s| - |suffix|..] == suffix
  }

  function TrimSuffix(s: string, suffix: string): (r: string)
    ensures HasSuffix(s, suffix) ==> s == r + suffix
  {
    if HasSuffix(s, suffix) then s[..|s| - |suffix|] else s
  }

  // ---- the grammar: digits, then an SI or IEC prefix, then a unit ----

  datatype Unit = NoUnit | Bit | Bps

  /** `prefix` counts thousands: 0 for none, then kilo, mega, giga, tera. */
  datatype Scale = Scale(prefix: nat, iec: bool, unit: Unit)

  /** The prefix letters in the order the parser tries them. */
  function Letter(i: nat): string { if i == 0 then "k" else if i == 1 then "m" else if i == 2 then "g" else "t" }

  predicate ValidScale(c: Scale) { c.prefix <= 4 }

  function PrefixText(prefix: nat): string
    requires prefix <= 4
  {
    if prefix == 0 then "" else Letter(prefix - 1)
  }

  function UnitText(u: Unit): string {
    match u case NoUnit => "" case Bit => "bit" case Bps => "bps"
  }

  function Render(digits: string, c: Scale): string
    requires ValidScale(c)
  {
    digits + PrefixText(c.prefix) + (if c.iec then "i" else "") + UnitText(c.unit)
  }

  function Power(base: nat, n: nat): nat
  {
    if n == 0 then 1 else base * Power(base, n - 1)
  }

  /** Bits per second in one unit of the scale. */
  function Multiplier(c: Scale): nat {
    (if c.unit.Bps? then 8 else 1) * Power(if c.iec then 1024 else 1000, c.prefix)
  }

  /** `n` units of the scale as a 64-bit number of bits per second. */
  function Amount(n: nat, c: Scale): (bps: nat)
    ensures n * Multiplier(c) < TWO_64 ==> bps == n * Multiplier(c)
  {
    Word64(n * Multiplier(c))
  }

  /** Truncation to the 64-bit word. */
  function Word64(x: nat): (r: nat)
    ensures x < TWO_64 ==> r == x
  {
    x % TWO_64
  }

  /** `digits` in scale `c` is a reading of the rate string `s`. */
  predicate Reads(s: string, digits: string, c: Scale) {
    ValidScale(c) && digits != "" && AllDigits(digits) && Clean(s) == Render(digits, c)
  }

  /** The rate string `s` denotes `v` bits per second, modulo the 64-bit word. */
  ghost predicate Denotes(s: string, v: nat) {
    exists digits, c ::
      Reads(s, digits, c) && Value(digits) < TWO_64 && v == Amount(Value(digits), c)
  }

  /** The limit that a rate string asks for, 0 meaning none. */
  ghost function Meaning(s: string): Option<nat> {
    if Clean(s) == "" then Some(0)
    else if exists v: nat :: Denotes(s, v) then var v: nat :| Denotes(s, v); Some(v)
    else None
  }

  // ---- the parser ----

  /** `ParseRate`.  The empty string means "no limit"; every other string is accepted exactly
      when the grammar gives it a meaning, and then the result is that meaning. */
  method ParseRate(s: string) returns (r: Option<nat>)
    ensures r == Meaning(s)
    ensures Clean(s) == "" ==> r == Some(0)
    ensures Clean(s) != "" ==> forall v: nat :: r == Some(v) <==> Denotes(s, v)
  {
    var rate := Clean(s);
    if rate == "" { return Some(0); }

    ghost var unit := NoUnit;
    var multiplier := 1;
    if HasSuffix(rate, "bit") {
      rate := TrimSuffix(rate, "bit");
      unit := Bit;
    } else if HasSuffix(rate, "bps") {
      rate := TrimSuffix(rate, "bps");
      multiplier := 8;
      unit := Bps;
    }
    ghost var beforeIec := rate;

    var base := 1000;
    if HasSuffix(rate, "i") {
      rate := TrimSuffix(rate, "i");
      base := 1024;
    }
    ghost var beforePrefix := rate;

    ghost var prefix;
    rate, multiplier, prefix := StripPrefix(rate, multiplier, base);
    ghost var c := Scale(prefix, base == 1024, unit);
    OnlyReading(s, beforeIec, beforePrefix, rate, c);
    r := Scaled(rate, multiplier);
  }

  /** The last two lines of the parser: the remaining digits, scaled in 64 bits. */
  function Scaled(rest: string, multiplier: nat): Option<nat> {
    var value := ParseUint(rest);
    if value.None? then None else Some(Word64(value.value * multiplier))
  }

  /** The loop over the prefixes: strips at most one and scales the 64-bit multiplier by it. */
  method StripPrefix(text: string, unit: nat, base: nat)
    returns (rest: string, multiplier: nat, ghost prefix: nat)
    requires (base == 1000 || base == 1024) && (unit == 1 || unit == 8)
    ensures prefix <= 4 && text == rest + PrefixText(prefix)
    ensures prefix == 0 ==> forall k :: 0 <= k < 4 ==> !HasSuffix(text, Letter(k))
    ensures multiplier == unit * Power(base, prefix)
  {
    rest, multiplier, prefix := text, unit, 0;
    for i := 0 to 4
      invariant rest == text && prefix == 0 && multiplier == unit
      invariant forall k :: 0 <= k < i ==> !HasSuffix(text, Letter(k))
    {
      if HasSuffix(text, Letter(i)) {
        rest := TrimSuffix(text, Letter(i));
        prefix := i + 1;
        multiplier := Multiplied(unit, base, i + 1);
        break;
      }
    }
  }

  /** Multiplies by the base, in 64 bits, as often as the prefix asks for. */
  method Multiplied(unit: nat, base: nat, times: nat) returns (multiplier: nat)
    requires (base == 1000 || base == 1024) && (unit == 1 || unit == 8) && times <= 4
    ensures multiplier == unit * Power(base, times)
  {
    multiplier := unit;
    for j := 0 to times
      invariant multiplier == unit * Power(base, j)
    {
      PowerBound(base, j + 1);
      multiplier := Word64(multiplier * base);
    }
  }

  lemma PowerBound(base: nat, n: nat)
    requires (base == 1000 || base == 1024) && 1 <= n <= 4
    ensures Power(base, n) == Power(base, n - 1) * base
    ensures 8 * Power(base, n) < TWO_64
  {
  }

  /** The longest-suffix choices that the parser makes, as facts about its three remainders. */
  predicate Greedy(text: string, beforeIec: string, beforePrefix: string, rest: string, c: Scale) {
    && ValidScale(c)
    && text == beforeIec + UnitText(c.unit)
    && beforeIec == beforePrefix + (if c.iec then "i" else "")
    && beforePrefix == rest + PrefixText(c.prefix)
    && (c.unit.NoUnit? ==> !HasSuffix(text, "bit") && !HasSuffix(text, "bps"))
    && (!c.iec ==> !HasSuffix(beforeIec, "i"))
    && (c.prefix == 0 ==> forall k :: 0 <= k < 4 ==> !HasSuffix(beforePrefix, Letter(k)))
  }

  /** What the parser is left with decides the meaning of the string. */
  lemma OnlyReading(s: string, beforeIec: string, beforePrefix: string, rest: string, c: Scale)
    requires Greedy(Clean(s), beforeIec, beforePrefix, rest, c)
    requires Clean(s) != ""
    ensures Scaled(rest, Multiplier(c)) == Meaning(s)
    ensures forall v: nat :: Scaled(rest, Multiplier(c)) == Some(v) <==> Denotes(s, v)
  {
    assert Clean(s) == Render(rest, c);
    forall digits, d | Reads(s, digits, d)
      ensures digits == rest && d == c
    {
      GreedyIsForced(Clean(s), beforeIec, beforePrefix, rest, c, digits, d);
    }
    if ParseUint(rest).Some? {
      ReadingDenotes(s, rest, c);
    }
  }

  /** No letter of a unit occurs before the unit. */
  lemma BodyCharacters(digits: string, d: Scale)
    requires ValidScale(d) && digits != "" && AllDigits(digits)
    ensures var body := digits + PrefixText(d.prefix) + (if d.iec then "i" else "");
            forall i :: 0 <= i < |body| ==> body[i] !in "bps"
  {
  }

  lemma UnitIsForced(text: string, rest: string, c: Scale, digits: string, d: Scale)
    requires ValidScale(d) && digits != "" && AllDigits(digits)
    requires text == Render(digits, d) == rest + UnitText(c.unit)
    requires c.unit.NoUnit? ==> !HasSuffix(text, "bit") && !HasSuffix(text, "bps")
    ensures c.unit == d.unit
    ensures rest == digits + PrefixText(d.prefix) + (if d.iec then "i" else "")
  {
    var body := digits + PrefixText(d.prefix) + (if d.iec then "i" else "");
    BodyCharacters(digits, d);
    assert text == body + UnitText(d.unit);
    if d.unit != NoUnit {
      assert text[|text| - 3..] == UnitText(d.unit);
      assert text[|text| - 1] == UnitText(d.unit)[2];
    }
    if c.unit != NoUnit {
      assert text[|text| - 3] == 'b';
      assert text[|text| - 1] == UnitText(c.unit)[2];
    }
    assert c.unit == d.unit;
    assert rest == text[..|text| - |UnitText(d.unit)|] == body;
  }

  lemma IecIsForced(text: string, rest: string, iec: bool, prefixed: string, marked: bool)
    requires prefixed != "" && prefixed[|prefixed| - 1] != 'i'
    requires text == prefixed + (if marked then "i" else "") == rest + (if iec then "i" else "")
    requires !iec ==> !HasSuffix(text, "i")
    ensures iec == marked && rest == prefixed
  {
    assert marked ==> text[|text| - 1..] == "i";
    assert rest == text[..|text| - (if iec then 1 else 0)];
    assert prefixed == text[..|text| - (if marked then 1 else 0)];
  }

  lemma PrefixIsForced(text: string, rest: string, prefix: nat, digits: string, given: nat)
    requires prefix <= 4 && given <= 4 && digits != "" && AllDigits(digits)
    requires text == digits + PrefixText(given) == rest + PrefixText(prefix)
    requires prefix == 0 ==> forall k :: 0 <= k < 4 ==> !HasSuffix(text, Letter(k))
    ensures prefix == given && rest == digits
  {
    var last := text[|text| - 1];
    LastCharacter(text, digits, given);
    if prefix != 0 { LastCharacter(text, rest, prefix); }
    if given != 0 { EndsWith(text, last, given - 1); }
    assert given == 0 ==> IsDigit(last);
    assert prefix == given;
    CancelSuffix(rest, digits, PrefixText(given));
  }

  lemma EndsWith(text: string, last: char, k: nat)
    requires k < 4 && text != "" && last == text[|text| - 1] == Letter(k)[0]
    ensures HasSuffix(text, Letter(k))
  {
    assert text[|text| - 1..] == [last] == Letter(k);
  }

  lemma CancelSuffix(a: string, b: string, suffix: string)
    requires a + suffix == b + suffix
    ensures a == b
  {
    assert a == (a + suffix)[..|a|] && |a| == |b|;
  }

  lemma LastCharacter(text: string, rest: string, prefix: nat)
    requires prefix <= 4 && text == rest + PrefixText(prefix) && text != ""
    ensures text[|text| - 1] == if prefix == 0 then rest[|rest| - 1] else Letter(prefix - 1)[0]
  {
  }

  /** The parser has no choice: any reading of the text is the one it finds. */
  lemma GreedyIsForced(text: string, beforeIec: string, beforePrefix: string, rest: string, c: Scale,
                       digits: string, d: Scale)
    requires Greedy(text, beforeIec, beforePrefix, rest, c)
    requires ValidScale(d) && digits != "" && AllDigits(digits) && text == Render(digits, d)
    ensures rest == digits && c == d
  {
    UnitIsForced(text, beforeIec, c, digits, d);
    IecIsForced(beforeIec, beforePrefix, c.iec, digits + PrefixText(d.prefix), d.iec);
    PrefixIsForced(beforePrefix, rest, c.prefix, digits, d.prefix);
  }

  // ---- consequences ----

  lemma TrimSpaceKeeps(s: string)
    requires forall i :: 0 <= i < |s| ==> !IsSpace(s[i])
    ensures TrimSpace(s) == s
  {
  }

  /** A rendering contains no white space, so cleaning only lowers its case. */
  lemma CleanRendering(shown: string, digits: string, c: Scale)
    requires ValidScale(c) && digits != "" && AllDigits(digits) && Lower(shown) == Render(digits, c)
    ensures Clean(shown) != "" && Reads(shown, digits, c)
  {
  }

  /** A rendered rate means its number in its scale, in any letter case; `shown` may differ from the
      rendering only by case. */
  lemma RenderingIsRead(n: nat, c: Scale, shown: string)
    requires ValidScale(c) && n < TWO_64 && Lower(shown) == Render(Digits(n), c)
    ensures Meaning(shown) == Some(Amount(n, c))
  {
    ValueOfDigits(n);
    RenderingMeans(Digits(n), c, shown);
  }

  /** What a rendering of any digits means: nothing if they do not fit 64 bits. */
  lemma RenderingMeans(digits: string, c: Scale, shown: string)
    requires ValidScale(c) && digits != "" && AllDigits(digits) && Lower(shown) == Render(digits, c)
    ensures Meaning(shown) == if Value(digits) < TWO_64 then Some(Amount(Value(digits), c)) else None
  {
    CleanRendering(shown, digits, c);
    RenderingIsGreedy(digits, c);
    var beforePrefix := digits + PrefixText(c.prefix);
    OnlyReading(shown, beforePrefix + (if c.iec then "i" else ""), beforePrefix, digits, c);
  }

  lemma ReadingDenotes(s: string, digits: string, c: Scale)
    requires Reads(s, digits, c) && Value(digits) < TWO_64
    ensures Denotes(s, Amount(Value(digits), c))
  {
  }

  /** The `Rate` pattern of the custom resource: digits, an optional fraction, an optional prefix that may be marked as
      IEC, an optional unit.  An empty `fraction` is an absent one. */
  predicate CrdRate(s: string, digits: string, fraction: string, prefix: string, iec: bool, unit: Unit) {
    && digits != "" && AllDigits(digits) && AllDigits(fraction)
    && prefix in ["", "K", "k", "M", "m", "G", "g"] && (iec ==> prefix != "")
    && s == Number(digits, fraction) + prefix + (if iec then "i" else "") + UnitText(unit)
  }

  function Number(digits: string, fraction: string): string {
    if fraction == "" then digits else digits + "." + fraction
  }

  lemma LowerOfPieces(digits: string, prefix: string, iec: string, unit: string)
    ensures Lower(digits + prefix + iec + unit) == Lower(digits) + Lower(prefix) + Lower(iec) + Lower(unit)
  {
  }

  /** How many thousands a prefix of the pattern stands for. */
  function Thousands(prefix: string): nat {
    if prefix in ["K", "k"] then 1 else if prefix in ["M", "m"] then 2 else if prefix in ["G", "g"] then 3 else 0
  }

  lemma LowerPrefix(prefix: string)
    requires prefix in ["", "K", "k", "M", "m", "G", "g"]
    ensures Thousands(prefix) <= 4 && Lower(prefix) == PrefixText(Thousands(prefix))
  {
  }

  /** The parser's choices on a rendering lead back to what was rendered. */
  lemma RenderingIsGreedy(digits: string, c: Scale)
    requires ValidScale(c) && digits != "" && AllDigits(digits)
    ensures var beforePrefix := digits + PrefixText(c.prefix);
            Greedy(Render(digits, c), beforePrefix + (if c.iec then "i" else ""), beforePrefix, digits, c)
  {
    var beforePrefix := digits + PrefixText(c.prefix);
    var beforeIec := beforePrefix + (if c.iec then "i" else "");
    assert c.unit.NoUnit? ==> Render(digits, c) == beforeIec;
    NoUnitBefore(digits, c);
    NoMarkBefore(digits, c.prefix);
    assert c.prefix == 0 ==> beforePrefix == digits;
    NoLetterBefore(digits);
  }

  lemma NoUnitBefore(digits: string, c: Scale)
    requires ValidScale(c) && digits != "" && AllDigits(digits)
    ensures var body := digits + PrefixText(c.prefix) + (if c.iec then "i" else "");
            !HasSuffix(body, "bit") && !HasSuffix(body, "bps")
  {
    BodyCharacters(digits, c);
    var body := digits + PrefixText(c.prefix) + (if c.iec then "i" else "");
    NotSuffix(body, "bit");
    NotSuffix(body, "bps");
  }

  lemma NoMarkBefore(digits: string, prefix: nat)
    requires prefix <= 4 && digits != "" && AllDigits(digits)
    ensures !HasSuffix(digits + PrefixText(prefix), "i")
  {
    LastCharacter(digits + PrefixText(prefix), digits, prefix);
    NotSuffix(digits + PrefixText(prefix), "i");
  }

  lemma NoLetterBefore(digits: string)
    requires digits != "" && AllDigits(digits)
    ensures forall k :: 0 <= k < 4 ==> !HasSuffix(digits, Letter(k))
  {
    forall k | 0 <= k < 4 ensures !HasSuffix(digits, Letter(k)) { NotSuffix(digits, Letter(k)); }
  }

  lemma NotSuffix(s: string, suffix: string)
    requires suffix != "" && (|suffix| <= |s| ==> s[|s| - |suffix|] != suffix[0])
    ensures !HasSuffix(s, suffix)
  {
  }

  lemma LoweredPattern(number: string, prefix: string, iec: bool, unit: Unit)
    requires Lower(number) == number && prefix in ["", "K", "k", "M", "m", "G", "g"]
    ensures Thousands(prefix) <= 4
    ensures Lower(number + prefix + (if iec then "i" else "") + UnitText(unit)) ==
            Render(number, Scale(Thousands(prefix), iec, unit))
  {
    LowerPrefix(prefix);
    var mark := if iec then "i" else "";
    LowerOfPieces(number, prefix, mark, UnitText(unit));
    assert Lower(mark) == mark && Lower(UnitText(unit)) == UnitText(unit);
  }

  /** Two characters that are the same but for the case of an ASCII letter. */
  predicate SameButCase(c: char, d: char) {
    || c == d
    || ('a' <= c <= 'z' && d as int == c as int - 32)
    || ('a' <= d <= 'z' && c as int == d as int - 32)
  }

  /** Letter case is ignored. */
  lemma CaseIsIgnored(s: string, t: string)
    requires |s| == |t| && forall i :: 0 <= i < |s| ==> SameButCase(s[i], t[i])
    ensures Clean(s) == Clean(t)
  {
    forall i | 0 <= i < |s| ensures LowerChar(s[i]) == LowerChar(t[i]) { assert SameButCase(s[i], t[i]); }
    assert Lower(s) == Lower(t);
  }

  /** White space around a rate is ignored. */
  lemma SpaceIsIgnored(s: string, c: char)
    requires IsSpace(c)
    ensures Clean([c] + s) == Clean(s) == Clean(s + [c])
  {
    assert Lower([c] + s) == [c] + Lower(s) && Lower(s + [c]) == Lower(s) + [c];
    assert ([c] + Lower(s))[1..] == Lower(s);
    TrimmedAtEnd(Lower(s), c);
  }

  lemma {:induction false} TrimmedAtEnd(s: string, c: char)
    requires IsSpace(c)
    ensures TrimSpace(s + [c]) == TrimSpace(s)
  {
    if s == "" {
      assert TrimSpace([c]) == TrimSpace([c][1..]);
    } else if IsSpace(s[0]) {
      TrimmedAtEnd(s[1..], c);
      assert (s + [c])[1..] == s[1..] + [c];
    } else {
      assert (s + [c])[..|s|] == s;
    }
  }

  lemma EmptyMeansNoLimit()
    ensures Meaning("") == Some(0)
  {
    assert Lower("") == "";
  }

  // ---- the units, written out ----

  /** How many bits per second a unit of the text stands for: "bps" are bytes. */
  predicate UnitMeans(unit: string, bits: nat) {
    (unit == "" && bits == 1) || (unit == "bit" && bits == 1) || (unit == "bps" && bits == 8)
  }

  /** What a prefix of the text multiplies by: powers of 1000, and with "i" of 1024. */
  predicate PrefixMeans(prefix: string, factor: nat) {
    || (prefix == "" && factor == 1) || (prefix == "i" && factor == 1)
    || (prefix == "k" && factor == 1000) || (prefix == "ki" && factor == 1024)
    || (prefix == "m" && factor == 1000000) || (prefix == "mi" && factor == 1048576)
    || (prefix == "g" && factor == 1000000000) || (prefix == "gi" && factor == 1073741824)
    || (prefix == "t" && factor == 1000000000000) || (prefix == "ti" && factor == 1099511627776)
  }

  /** What every rate means, with its units written out: the number times the unit times the prefix, modulo 2^64. */
  lemma RatesSpelledOut(n: nat, prefix: string, factor: nat, unit: string, bits: nat, shown: string)
    requires n < 18446744073709551616 && PrefixMeans(prefix, factor) && UnitMeans(unit, bits)
    requires Lower(shown) == Digits(n) + prefix + unit
    ensures Meaning(shown) == Some(n * (bits * factor) % 18446744073709551616)
    ensures n * (bits * factor) < 18446744073709551616 ==> Meaning(shown) == Some(n * (bits * factor))
  {
    var c := ScaleOf(prefix, factor, unit, bits);
    assert Render(Digits(n), c) == Digits(n) + (PrefixText(c.prefix) + if c.iec then "i" else "") + UnitText(c.unit);
    RenderingIsRead(n, c, shown);
  }

  lemma ScaleOf(prefix: string, factor: nat, unit: string, bits: nat) returns (c: Scale)
    requires PrefixMeans(prefix, factor) && UnitMeans(unit, bits)
    ensures ValidScale(c) && PrefixText(c.prefix) + (if c.iec then "i" else "") == prefix && UnitText(c.unit) == unit
    ensures Multiplier(c) == bits * factor
  {
    var u := if unit == "" then NoUnit else if unit == "bit" then Bit else Bps;
    var iec := prefix in ["i", "ki", "mi", "gi", "ti"];
    var p := if prefix in ["", "i"] then 0 else if prefix in ["k", "ki"] then 1 else if prefix in ["m", "mi"] then 2
             else if prefix in ["g", "gi"] then 3 else 4;
    c := Scale(p, iec, u);
    PowersSpelledOut(iec, p);
    assert factor == Thousand(iec, p);
  }

  /** The powers, written out. */
  function Thousand(iec: bool, prefix: nat): nat
    requires prefix <= 4
  {
    match prefix
    case 0 => 1
    case 1 => if iec then 1024 else 1000
    case 2 => if iec then 1048576 else 1000000
    case 3 => if iec then 1073741824 else 1000000000
    case _ => if iec then 1099511627776 else 1000000000000
  }

  lemma PowersSpelledOut(iec: bool, prefix: nat)
    requires prefix <= 4
    ensures Power(if iec then 1024 else 1000, prefix) == Thousand(iec, prefix)
  {
    var base := if iec then 1024 else 1000;
    assert Power(base, 0) == 1;
    assert Power(base, 1) == base * Power(base, 0);
    assert Power(base, 2) == base * Power(base, 1);
    assert Power(base, 3) == base * Power(base, 2);
    assert Power(base, 4) == base * Power(base, 3);
  }

  /** A dot occurs in no reading. */
  lemma FractionsAreRefused(s: string, digits: string, fraction: string, c: Scale)
    requires AllDigits(digits) && fraction != "" && AllDigits(fraction) && ValidScale(c)
    requires Lower(s) == Render(Number(digits, fraction), c)
    ensures Clean(s) != "" && Meaning(s) == None
  {
    var text := Render(Number(digits, fraction), c);
    assert forall i :: 0 <= i < |text| ==> !IsSpace(text[i]);
    TrimSpaceKeeps(text);
    assert text[|digits|] == '.';
    forall other, d
      ensures !Reads(s, other, d)
    {
      if ValidScale(d) && AllDigits(other) { assert '.' !in Render(other, d); }
    }
  }

  /** Exactly which rates that the API server admits the parser accepts, and as what: those without a fraction whose
      number fits 64 bits. */
  lemma CrdRateIsAcceptedExactlyWhen(s: string, digits: string, fraction: string, prefix: string, iec: bool, unit: Unit)
    requires CrdRate(s, digits, fraction, prefix, iec, unit)
    ensures Thousands(prefix) <= 4
    ensures Meaning(s) == if fraction == "" && Value(digits) < TWO_64
                          then Some(Amount(Value(digits), Scale(Thousands(prefix), iec, unit))) else None
  {
    var c := Scale(Thousands(prefix), iec, unit);
    assert Lower(Number(digits, fraction)) == Number(digits, fraction);
    LoweredPattern(Number(digits, fraction), prefix, iec, unit);
    if fraction != "" {
      FractionsAreRefused(s, digits, fraction, c);
    } else {
      RenderingMeans(digits, c, s);
    }
  }

  // ---- burst size ----

  /** `getTbfBurst`: a 32-bit burst of at least 5000 bytes. */
  function TbfBurst(rate: nat): (burst: nat)
    ensures 5000 <= burst < 0x1_0000_0000
    ensures burst >= rate / 250 <==> rate / 250 < 0x1_0000_0000
    ensures rate / 250 <= 5000 ==> burst == 5000
    ensures 5000 <= rate / 250 < 0x1_0000_0000 ==> burst == rate / 250
  {
    var burst := rate / 250 % 0x1_0000_0000;
    if burst < 5000 then 5000 else burst
  }
}
