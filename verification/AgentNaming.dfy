/**
 How agents are named: ids "agent_NNN" printed from a counter and parsed back, and codenames
 taken from a list of twenty-six names with a round suffix.
 */
module AgentNaming {
  import opened Wrappers

  // ----- Decimal numerals -----

  predicate IsDigit(c: char) { '0' <= c <= '9' }

  function Digit(d: nat): (c: char)
    requires d < 10
    ensures IsDigit(c) && DigitValue(c) == d
  {
    '0' + d as char
  }

  function DigitValue(c: char): (d: nat)
    requires IsDigit(c)
    ensures d < 10
  {
    c as int - '0' as int
  }

  predicate AllDigits(s: string) {
    forall i | 0 <= i < |s| :: IsDigit(s[i])
  }

  function Digits(n: nat): (s: string)
    ensures |s| > 0 && AllDigits(s)
  {
    if n < 10 then [Digit(n)] else Digits(n / 10) + [Digit(n % 10)]
  }

  function Value(s: string): nat
    requires AllDigits(s)
  {
    if s == "" then 0 else Value(s[..|s| - 1]) * 10 + DigitValue(s[|s| - 1])
  }

  lemma {:induction false} ValueOfDigits(n: nat)
    ensures Value(Digits(n)) == n
  {
    if n >= 10 {
      ValueOfDigits(n / 10);
      assert Digits(n)[..|Digits(n)| - 1] == Digits(n / 10);
    } else {
      assert Digits(n)[..0] == "";
    }
  }

  function Zeros(k: nat): (s: string)
    ensures |s| == k && AllDigits(s)
  {
    seq(k, _ => '0')
  }

  lemma {:induction false} LeadingZeros(k: nat, s: string)
    requires AllDigits(s)
    ensures AllDigits(Zeros(k) + s) && Value(Zeros(k) + s) == Value(s)
    decreases k + |s|
  {
    var t := Zeros(k) + s;
    if s != "" {
      LeadingZeros(k, s[..|s| - 1]);
      assert t[..|t| - 1] == Zeros(k) + s[..|s| - 1];
    } else if k > 0 {
      LeadingZeros(k - 1, "");
      assert t[..|t| - 1] == Zeros(k - 1) + "";
    }
  }

  /** Zero-padded to three digits; longer numerals are printed in full. */
  function Padded(n: nat): (s: string)
    ensures |s| >= 3 && AllDigits(s)
  {
    var s := Digits(n);
    if |s| >= 3 then s else Zeros(3 - |s|) + s
  }

  /** The largest 64-bit unsigned index. */
  const MAX_INDEX: nat := 0xFFFF_FFFF_FFFF_FFFF

  /** The standard parser of unsigned integers: an optional plus sign, digits only, no overflow. */
  function ParseIndex(s: string): Option<nat> {
    var digits := if s != "" && s[0] == '+' then s[1..] else s;
    if digits != "" && AllDigits(digits) && Value(digits) <= MAX_INDEX then Some(Value(digits)) else None
  }

  lemma ParsePadded(n: nat)
    ensures ParseIndex(Padded(n)) == if n <= MAX_INDEX then Some(n) else None
  {
    ValueOfDigits(n);
    LeadingZeros(if |Digits(n)| >= 3 then 0 else 3 - |Digits(n)|, Digits(n));
    assert IsDigit(Padded(n)[0]);
  }

  // ----- Agent ids -----

  const PREFIX := "agent_"

  function AgentIdOf(n: nat): string { PREFIX + Padded(n) }

  function ParseAgentIndex(id: string): Option<nat> {
    if PREFIX <= id then ParseIndex(id[|PREFIX|..]) else None
  }

  /** Parsing inverts printing for every index the counter can hold, whatever its number of digits. */
  lemma ParseAgentId(n: nat)
    ensures ParseAgentIndex(AgentIdOf(n)) == if n <= MAX_INDEX then Some(n) else None
  {
    assert AgentIdOf(n)[|PREFIX|..] == Padded(n);
    ParsePadded(n);
  }

  lemma AgentIdInjective(m: nat, n: nat)
    requires AgentIdOf(m) == AgentIdOf(n)
    ensures m == n
  {
    assert AgentIdOf(m)[|PREFIX|..] == Padded(m) && AgentIdOf(n)[|PREFIX|..] == Padded(n);
    PaddedValue(m);
    PaddedValue(n);
  }

  lemma PaddedValue(n: nat)
    ensures Value(Padded(n)) == n
  {
    ValueOfDigits(n);
    LeadingZeros(if |Digits(n)| >= 3 then 0 else 3 - |Digits(n)|, Digits(n));
  }

  // ----- Codenames -----

  const NAMES: seq<string> := [
    "alpha", "bravo", "charlie", "delta", "echo", "foxtrot", "golf", "hotel", "india",
    "juliet", "kilo", "lima", "mike", "november", "oscar", "papa", "quebec", "romeo",
    "sierra", "tango", "uniform", "victor", "whiskey", "xray", "yankee", "zulu"]

  function Codename(index: nat): string {
    var zeroBased := if index == 0 then 0 else index - 1;
    var base := NAMES[zeroBased % |NAMES|];
    var round := zeroBased / |NAMES|;
    if round == 0 then base else base + "-" + Digits(round + 1)
  }

  /** Every base name starts with its own letter of the alphabet and has no dash. */
  lemma NamesByLetter(i: nat)
    requires i < 26
    ensures |NAMES| == 26 && |NAMES[i]| > 0 && NAMES[i][0] == 'a' + i as char && '-' !in NAMES[i]
  {
  }

  /** The part before the first dash, and the whole of a string without one. */
  function BeforeDash(s: string): string {
    if s == "" || s[0] == '-' then "" else [s[0]] + BeforeDash(s[1..])
  }

  lemma {:induction false} BeforeDashOf(base: string, rest: string)
    requires '-' !in base && (rest == "" || rest[0] == '-')
    ensures BeforeDash(base + rest) == base
  {
    if base == "" {
      assert base + rest == rest;
    } else {
      assert (base + rest)[1..] == base[1..] + rest;
      BeforeDashOf(base[1..], rest);
    }
  }

  function Suffix(round: nat): string {
    if round == 0 then "" else "-" + Digits(round + 1)
  }

  lemma CodenameParts(index: nat)
    requires index >= 1
    ensures var z := index - 1;
      && Codename(index) == NAMES[z % 26] + Suffix(z / 26)
      && BeforeDash(Codename(index)) == NAMES[z % 26]
  {
    var z := index - 1;
    NamesByLetter(z % 26);
    BeforeDashOf(NAMES[z % 26], Suffix(z / 26));
    assert NAMES[z % 26] + "" == NAMES[z % 26];
    assert NAMES[z % 26] + ("-" + Digits(z / 26 + 1)) == NAMES[z % 26] + "-" + Digits(z / 26 + 1);
  }

  lemma SuffixInjective(p: nat, q: nat)
    requires Suffix(p) == Suffix(q)
    ensures p == q
  {
    if p > 0 && q > 0 {
      assert Suffix(p)[1..] == Digits(p + 1) && Suffix(q)[1..] == Digits(q + 1);
      ValueOfDigits(p + 1);
      ValueOfDigits(q + 1);
    }
  }

  /** No two agents numbered from one share a codename. */
  lemma CodenameInjective(m: nat, n: nat)
    requires m >= 1 && n >= 1 && Codename(m) == Codename(n)
    ensures m == n
  {
    var y, z := m - 1, n - 1;
    CodenameParts(m);
    CodenameParts(n);
    NamesByLetter(y % 26);
    NamesByLetter(z % 26);
    var base := NAMES[y % 26];
    assert y % 26 == z % 26;
    assert Codename(m)[|base|..] == Suffix(y / 26) && Codename(n)[|base|..] == Suffix(z / 26);
    SuffixInjective(y / 26, z / 26);
  }
}
