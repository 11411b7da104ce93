/**
 * Display names of parameterized test invocations: the N-th start of a
 * method within a suite is reported as `name[N]`, the first one as the
 * bare name.
 */
module Naming {

  /** Ruby's `Integer#to_s` for a non-negative count. */
  function NatToString(n: nat): (r: string)
    ensures |r| > 0
    ensures forall i :: 0 <= i < |r| ==> '0' <= r[i] <= '9'
    ensures n == 0 ==> r == "0"
    ensures n > 0 ==> r[0] != '0'
    decreases n
  {
    if n < 10 then [DigitChar(n)] else NatToString(n / 10) + [DigitChar(n % 10)]
  }

  function DigitChar(d: nat): (c: char)
    requires d < 10
    ensures '0' <= c <= '9' && c as int - '0' as int == d
  {
    ('0' as int + d) as char
  }

  /** Reads a run of decimal digits back as a number. */
  function ParseDigits(s: string): nat
    requires forall i :: 0 <= i < |s| ==> '0' <= s[i] <= '9'
  {
    if s == [] then 0
    else ParseDigits(s[..|s| - 1]) * 10 + (s[|s| - 1] as int - '0' as int)
  }

  /** The decimal rendering of a count reads back as that count. */
  lemma {:induction false} ParseNatToString(n: nat)
    ensures ParseDigits(NatToString(n)) == n
    decreases n
  {
    var r := NatToString(n);
    if n < 10 {
      assert r[..0] == [];
    } else {
      ParseNatToString(n / 10);
      assert r[..|r| - 1] == NatToString(n / 10);
    }
  }

  lemma NatToStringInjective(a: nat, b: nat)
    requires NatToString(a) == NatToString(b)
    ensures a == b
  {
    ParseNatToString(a);
    ParseNatToString(b);
  }

  /** The name under which the occurrence numbered `count` of `name` is reported. */
  function Decorate(name: string, count: nat): (r: string)
    ensures r == name <==> count == 1
    ensures |r| >= |name| && r[..|name|] == name
  {
    if count == 1 then name else name + "[" + NatToString(count) + "]"
  }

  /** `@test_method_count[name].to_i`: how often `name` was started; 0 when never. */
  function CountOf(counts: map<string, nat>, name: string): nat {
    if name in counts then counts[name] else 0
  }

  /**
   * `get_test_case_method_name`: the display name of the latest start of
   * `name`, without counting a new one. It is the bare name when the count
   * is 1; otherwise the count follows the name in brackets.
   */
  function CurrentName(counts: map<string, nat>, name: string): (r: string)
    ensures r == name <==> CountOf(counts, name) == 1
    ensures CountOf(counts, name) != 1 ==>
      && |r| >= |name| + 3 && r[..|name| + 1] == name + "[" && r[|r| - 1] == ']'
      && r[|name| + 1..|r| - 1] == NatToString(CountOf(counts, name))
  {
    var count := CountOf(counts, name);
    DecorateShape(name, count);
    if count == 1 then name
    else
      DecorateDigits(name, count);
      Decorate(name, count)
  }

  /** The bracketed part of a numbered display name reads back as the occurrence number. */
  lemma DecorateDigits(name: string, count: nat)
    requires count != 1
    ensures var d := Decorate(name, count);
      && |d| >= |name| + 3 && d[|d| - 1] == ']'
      && d[|name| + 1..|d| - 1] == NatToString(count)
      && ParseDigits(d[|name| + 1..|d| - 1]) == count
  {
    var d := Decorate(name, count);
    assert d[|name| + 1..|d| - 1] == NatToString(count);
    ParseNatToString(count);
  }

  /** A method that was never started resolves to `name[0]`, since the missing count is 0 and 0 is not 1. */
  lemma UnseenMethodName(counts: map<string, nat>, name: string)
    requires name !in counts
    ensures CurrentName(counts, name) == name + "[0]"
  {
    assert NatToString(0) == "0";
  }

  /** The first occurrence keeps the bare name; every other one carries its number in brackets. */
  lemma DecorateShape(name: string, count: nat)
    ensures Decorate(name, count) == name <==> count == 1
    ensures count != 1 ==> Decorate(name, count)[..|name| + 1] == name + "["
  {
    if count != 1 {
      var d := Decorate(name, count);
      assert |d| > |name|;
      assert d[..|name| + 1] == name + "[";
    }
  }

  /** Two occurrences of the same method never share a display name. */
  lemma DecorateInjective(name: string, i: nat, j: nat)
    requires Decorate(name, i) == Decorate(name, j)
    ensures i == j
  {
    if i != 1 && j != 1 {
      var d := Decorate(name, i);
      assert NatToString(i) == d[|name| + 1..|d| - 1];
      assert NatToString(j) == d[|name| + 1..|d| - 1];
      NatToStringInjective(i, j);
    }
  }
}
