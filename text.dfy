/** Text helpers standing in for Rust's `u64::to_string`, `str::parse::<u16>` and `str::contains`. */
module Text {
  import opened Wrappers

  predicate IsDigit(c: char) { '0' <= c <= '9' }

  predicate AllDigits(s: string) { forall i :: 0 <= i < |s| ==> IsDigit(s[i]) }

  function DigitChar(d: nat): (c: char)
    requires d < 10
    ensures IsDigit(c) && c as int - '0' as int == d
  {
    (d + '0' as int) as char
  }

  /** Decimal value of a string of ASCII digits, most significant first. */
  function DigitsValue(s: string): nat
    requires AllDigits(s)
  {
    if s == [] then 0 else DigitsValue(s[..|s| - 1]) * 10 + (s[|s| - 1] as int - '0' as int)
  }

  /** Decimal rendering of a natural number, as `to_string` produces it: no sign, no leading zeros. */
  function NatToString(n: nat): (s: string)
    ensures |s| >= 1 && AllDigits(s)
    ensures s[0] == '0' ==> n == 0
  {
    if n < 10 then [DigitChar(n)] else NatToString(n / 10) + [DigitChar(n % 10)]
  }

  lemma {:induction false} NatToStringRoundTrip(n: nat)
    ensures DigitsValue(NatToString(n)) == n
  {
    if n >= 10 {
      var s := NatToString(n);
      assert s[..|s| - 1] == NatToString(n / 10);
      NatToStringRoundTrip(n / 10);
    }
  }

  /**
   * `str::parse::<u16>`: an optional leading '+' (not alone), then one or more
   * ASCII digits whose value is at most 65535; anything else is an error.
   */
  function ParseU16(s: string): (r: Option<nat>)
    ensures r.Some? ==> |s| > 0 && r.value < 0x1_0000
    ensures r.Some? ==> var d := if s[0] == '+' then s[1..] else s;
      |d| > 0 && AllDigits(d) && r.value == DigitsValue(d)
    ensures |s| > 0 && AllDigits(s) ==>
      r == if DigitsValue(s) < 0x1_0000 then Some(DigitsValue(s)) else None
    ensures |s| > 1 && s[0] == '+' && AllDigits(s[1..]) ==>
      r == if DigitsValue(s[1..]) < 0x1_0000 then Some(DigitsValue(s[1..])) else None
  {
    var digits := if |s| > 1 && s[0] == '+' then s[1..] else s;
    if |digits| == 0 || !AllDigits(digits) then None
    else if DigitsValue(digits) < 0x1_0000 then Some(DigitsValue(digits))
    else None
  }

  /** Every port number, written in decimal, parses back to itself. */
  lemma ParseU16OfDisplay(p: nat)
    requires p < 0x1_0000
    ensures ParseU16(NatToString(p)) == Some(p)
  {
    NatToStringRoundTrip(p);
  }

  /** Port texts the parser rejects: empty, a lone sign, a minus sign, a stray letter. */
  lemma ParseU16RejectsMalformed()
    ensures ParseU16("") == None && ParseU16("+") == None
    ensures ParseU16("-1") == None && ParseU16("12a") == None
  {
    assert !IsDigit("-1"[0]);
    assert !IsDigit("12a"[2]);
  }

  /** A port one past the largest `u16` is rejected. */
  lemma ParseU16RejectsOverflow()
    ensures ParseU16("65536") == None
  {
    assert "65536"[..4] == "6553" && "6553"[..3] == "655" && "655"[..2] == "65" && "65"[..1] == "6";
    assert DigitsValue("65536") == 65536;
  }

  /** Port texts accepted although `to_string` would not print them: a plus sign, leading zeros. */
  lemma ParseU16AcceptsNonCanonical()
    ensures ParseU16("+5672") == Some(5672) && ParseU16("05672") == Some(5672)
  {
    assert "+5672"[1..] == "5672";
    assert "5672"[..3] == "567" && "567"[..2] == "56" && "56"[..1] == "5";
    assert DigitsValue("5672") == 5672;
    assert "05672"[..4] == "0567" && "0567"[..3] == "056" && "056"[..2] == "05" && "05"[..1] == "0";
    assert DigitsValue("05672") == 5672;
  }

  /** Index of the first occurrence of `c` in `s`. */
  function FirstIndex(s: string, c: char): (r: Option<nat>)
    ensures r.Some? ==> r.value < |s| && s[r.value] == c
    ensures r.Some? ==> forall j :: 0 <= j < r.value ==> s[j] != c
    ensures r.None? ==> forall j :: 0 <= j < |s| ==> s[j] != c
  {
    if s == [] then None
    else if s[0] == c then Some(0)
    else match FirstIndex(s[1..], c)
      case None => None
      case Some(k) => Some(k + 1)
  }

  /** `s` cut at its first `c`: the text before it and the text after it. */
  function SplitAt(s: string, c: char): Option<(string, string)> {
    match FirstIndex(s, c)
    case None => None
    case Some(i) => Some((s[..i], s[i + 1..]))
  }

  /** Cutting `a`, `c`, `b` at its first `c` gives back `a` and `b` when `a` holds no `c`. */
  lemma SplitAtFirst(a: string, c: char, b: string)
    requires c !in a
    ensures SplitAt(a + [c] + b, c) == Some((a, b))
  {
    var s := a + [c] + b;
    assert s[|a|] == c;
    assert FirstIndex(s, c) == Some(|a|);
    assert s[..|a|] == a;
    assert s[|a| + 1..] == b;
  }

  /** `str::contains`: `sub` occurs as a contiguous piece of `s`. */
  predicate Contains(s: string, sub: string) {
    exists i :: 0 <= i <= |s| - |sub| && OccursAt(s, sub, i)
  }

  predicate OccursAt(s: string, sub: string, i: int) {
    0 <= i <= |s| - |sub| && s[i..i + |sub|] == sub
  }

  /** Index of the first element of `items` that contains `sub` (`Iterator::find`). */
  function FindContaining(items: seq<string>, sub: string): (r: Option<nat>)
    ensures r.Some? ==> r.value < |items| && Contains(items[r.value], sub)
    ensures r.Some? ==> forall j :: 0 <= j < r.value ==> !Contains(items[j], sub)
    ensures r.None? ==> forall j :: 0 <= j < |items| ==> !Contains(items[j], sub)
  {
    if items == [] then None
    else if Contains(items[0], sub) then Some(0)
    else match FindContaining(items[1..], sub)
      case None => None
      case Some(k) => Some(k + 1)
  }
}
