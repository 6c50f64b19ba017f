/** The decimal text that `snprintf("%d")` and `snprintf("%i")` produce, as used for
    marshal group names, hashmap keys and free-list keys. */
module Decimal {

  const DIGITS: string := "0123456789"

  const TWO_31: nat := 0x8000_0000
  const TWO_32: nat := 0x1_0000_0000

  /** Decimal digits of `n`, most significant first, without leading zeros. */
  function Render(n: nat): (s: string)
    ensures |s| > 0
    ensures forall c :: c in s ==> '0' <= c <= '9'
  {
    if n < 10 then [DIGITS[n]] else Render(n / 10) + [DIGITS[n % 10]]
  }

  /** Reads a digit string back. */
  function Value(s: string): nat {
    if s == [] then 0
    else 10 * Value(s[..|s| - 1]) + DigitValue(s[|s| - 1])
  }

  function DigitValue(c: char): nat {
    if '0' <= c <= '9' then c as int - '0' as int else 0
  }

  lemma {:induction false} ValueOfRender(n: nat)
    ensures Value(Render(n)) == n
  {
    if n < 10 {
      assert Render(n)[..0] == [];
    } else {
      var s := Render(n);
      assert s[..|s| - 1] == Render(n / 10);
      ValueOfRender(n / 10);
    }
  }

  lemma {:induction false} RenderInjective(a: nat, b: nat)
    requires Render(a) == Render(b)
    ensures a == b
  {
    ValueOfRender(a);
    ValueOfRender(b);
  }

  function Pow10(k: nat): (p: nat)
    ensures p > 0
  {
    if k == 0 then 1 else 10 * Pow10(k - 1)
  }

  lemma {:induction false} RenderLength(n: nat, k: nat)
    ensures |Render(n)| > k + 1 <==> n >= Pow10(k + 1)
    decreases n
  {
    if n < 10 {
      assert Pow10(k + 1) >= 10;
    } else if k == 0 {
      assert Pow10(1) == 10;
    } else {
      RenderLength(n / 10, k - 1);
      var p := Pow10(k);
      assert Pow10(k + 1) == 10 * p;
      assert n >= 10 * p <==> n / 10 >= p;
    }
  }

  /** Characters that fit a key buffer of 11 bytes. */
  const KEY_CHARS: nat := 10

  function Truncated(s: string): (r: string)
    ensures |r| <= KEY_CHARS && r <= s
  {
    if |s| <= KEY_CHARS then s else s[..KEY_CHARS]
  }

  /** A value reference has 32 bits. */
  predicate IsVref(vr: nat) {
    vr < TWO_32
  }

  ghost predicate Vrefs(vrs: seq<nat>) {
    forall k :: 0 <= k < |vrs| ==> IsVref(vrs[k])
  }

  /** The key text of a 32-bit value reference: `%i` reads the unsigned bits as a signed int, and the
      buffer holds ten characters. */
  function VrefKey(vref: nat): (key: string)
    requires vref < TWO_32
    ensures |key| > 0 && (key[0] == '-' <==> vref >= TWO_31)
  {
    if vref < TWO_31 then
      assert Render(vref)[0] in Render(vref);
      Truncated(Render(vref))
    else Truncated("-" + Render(TWO_32 - vref))
  }

  lemma {:induction false} SmallKeyIsRendered(vref: nat)
    requires vref < TWO_31
    ensures VrefKey(vref) == Render(vref)
  {
    RenderLength(vref, 9);
    assert Pow10(5) == 100_000;
    assert Pow10(10) == 10_000_000_000;
  }

  /** The index is filled with the text of the valueReference attribute and read with the `%i`
      text, so a lookup finds the variable of that reference exactly below 2^31. */
  lemma {:induction false} VrefKeyMatchesAttribute(vref: nat)
    requires vref < TWO_32
    ensures VrefKey(vref) == Render(vref) <==> vref < TWO_31
  {
    if vref < TWO_31 {
      SmallKeyIsRendered(vref);
    } else {
      assert Render(vref)[0] in Render(vref);
    }
  }

  /** The key of a large reference loses the last digit of its ten-digit distance to 2^32. */
  lemma {:induction false} LargeKey(vref: nat)
    requires TWO_31 <= vref < TWO_32
    ensures var d := TWO_32 - vref;
            VrefKey(vref) == "-" + if d >= 1_000_000_000 then Render(d / 10) else Render(d)
  {
    var d := TWO_32 - vref;
    RenderLength(d, 8);
    RenderLength(d, 9);
    assert Pow10(5) == 100_000;
    assert Pow10(9) == 1_000_000_000;
    assert Pow10(10) == 10_000_000_000;
    var s := "-" + Render(d);
    if d >= 1_000_000_000 {
      assert s == ("-" + Render(d / 10)) + [DIGITS[d % 10]];
      assert s[..KEY_CHARS] == "-" + Render(d / 10);
    }
  }

  /** What the hashmap key keeps of a value reference. */
  function KeyClass(vref: nat): (bool, nat)
    requires vref < TWO_32
  {
    if vref < TWO_31 then (false, vref)
    else
      var d := TWO_32 - vref;
      (true, if d >= 1_000_000_000 then d / 10 else d)
  }

  /** Two references share a key exactly when they agree in what the key keeps. Below 2^31 that is
      the whole reference; above, references share one as soon as dropping the last digit of a
      ten-digit distance to 2^32 makes the distances equal. */
  lemma {:induction false} VrefKeysCollide(a: nat, b: nat)
    requires a < TWO_32 && b < TWO_32
    ensures VrefKey(a) == VrefKey(b) <==> KeyClass(a) == KeyClass(b)
  {
    if a < TWO_31 && b < TWO_31 {
      SmallKeyIsRendered(a);
      SmallKeyIsRendered(b);
      if VrefKey(a) == VrefKey(b) { RenderInjective(a, b); }
    } else if a >= TWO_31 && b >= TWO_31 {
      LargeKey(a);
      LargeKey(b);
      var x, y := KeyClass(a).1, KeyClass(b).1;
      assert VrefKey(a)[1..] == Render(x) && VrefKey(b)[1..] == Render(y);
      if VrefKey(a) == VrefKey(b) { RenderInjective(x, y); }
    }
  }

  /** Two neighbouring references with the same key, which is not the attribute text of the first. */
  lemma {:induction false} NeighboursCollide(a: nat, b: nat)
    requires a == 2147483648 && b == 2147483649
    ensures VrefKey(a) == VrefKey(b) == "-214748364"
    ensures VrefKey(a) != Render(a)
  {
    VrefKeysCollide(a, b);
    VrefKeyMatchesAttribute(a);
    LargeKey(a);
    NineDigits();
  }

  lemma {:induction false} NineDigits()
    ensures Render(214748364) == "214748364"
  {
    FourDigits();
    RenderNext(21474, "2147", "21474");
    RenderNext(214748, "21474", "214748");
    RenderNext(2147483, "214748", "2147483");
    RenderNext(21474836, "2147483", "21474836");
    RenderNext(214748364, "21474836", "214748364");
  }

  lemma {:induction false} FourDigits()
    ensures Render(2147) == "2147"
  {
    RenderNext(21, "2", "21");
    RenderNext(214, "21", "214");
    RenderNext(2147, "214", "2147");
  }

  lemma {:induction false} RenderNext(n: nat, front: string, whole: string)
    requires n >= 10 && Render(n / 10) == front && whole == front + [DIGITS[n % 10]]
    ensures Render(n) == whole
  {
  }

  /** Splitting at the first '-' is unambiguous. */
  lemma {:induction false} SplitAtDash(a: string, x: string, b: string, y: string)
    requires '-' !in a && '-' !in b
    requires a + "-" + x == b + "-" + y
    ensures a == b && x == y
  {
    var s := a + "-" + x;
    assert s[|a|] == '-' && s[|b|] == '-';
    assert forall i :: 0 <= i < |a| ==> s[i] == a[i] && a[i] in a;
    assert forall i :: 0 <= i < |b| ==> s[i] == b[i] && b[i] in b;
    assert a == s[..|a|] && b == s[..|b|];
    assert x == s[|a| + 1..] && y == s[|b| + 1..];
  }
}
