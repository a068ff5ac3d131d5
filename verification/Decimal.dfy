/**
 Decimal text: how Rust prints an integer and how `str::parse::<usize>` reads one back.
 Path elements, plan-version ids and plan-node locations are all built from this text.
 */
module Decimal {
  import opened Wrappers

  /** One past the largest `usize` of a 64-bit build. */
  const USIZE_LIMIT: nat := 0x1_0000_0000_0000_0000

  predicate IsDigit(c: char) {
    '0' <= c <= '9'
  }

  predicate AllDigits(s: string) {
    forall i :: 0 <= i < |s| ==> IsDigit(s[i])
  }

  function DigitValue(c: char): (d: nat)
    requires IsDigit(c)
    ensures d < 10
  {
    c as int - '0' as int
  }

  function DigitChar(d: nat): (c: char)
    requires d < 10
    ensures IsDigit(c) && DigitValue(c) == d
  {
    ('0' as int + d) as char
  }

  function Render(n: nat): (s: string)
    ensures s != [] && AllDigits(s)
  {
    if n < 10 then [DigitChar(n)] else Render(n / 10) + [DigitChar(n % 10)]
  }

  /** `i32::to_string` and `i64::to_string`. */
  function RenderInt(i: int): (s: string) {
    if i < 0 then "-" + Render(-i) else Render(i)
  }

  function Evaluate(s: string): (n: nat)
    requires AllDigits(s)
  {
    if s == [] then 0 else 10 * Evaluate(s[..|s| - 1]) + DigitValue(s[|s| - 1])
  }

  /** `s.parse::<usize>()`: one leading '+' is accepted, a '-' is not, and overflow is an error. */
  function ParseUsize(s: string): (r: Option<nat>)
    ensures r.Some? ==> r.value < USIZE_LIMIT
  {
    var digits := if |s| > 1 && s[0] == '+' then s[1..] else s;
    if digits == [] || !AllDigits(digits) || Evaluate(digits) >= USIZE_LIMIT then None
    else Some(Evaluate(digits))
  }

  lemma {:induction false} EvaluateRender(n: nat)
    ensures Evaluate(Render(n)) == n
  {
    var s := Render(n);
    if n >= 10 {
      EvaluateRender(n / 10);
      assert s[..|s| - 1] == Render(n / 10);
    }
  }

  lemma ParseRender(n: nat)
    requires n < USIZE_LIMIT
    ensures ParseUsize(Render(n)) == Some(n)
  {
    EvaluateRender(n);
    assert IsDigit(Render(n)[0]);
  }

  lemma ParseNegative(i: int)
    requires i < 0
    ensures ParseUsize(RenderInt(i)) == None
  {
    assert RenderInt(i)[0] == '-';
  }

  function Zeros(k: nat): (s: string)
    ensures |s| == k && forall i :: 0 <= i < k ==> s[i] == '0'
  {
    seq(k, _ => '0')
  }

  /** An optional plus sign, any number of zeros, and the printed number. */
  predicate SpelledWith(s: string, n: nat, plus: bool, zeros: nat) {
    s == (if plus then "+" else "") + (Zeros(zeros) + Render(n))
  }

  ghost predicate SpellsIndex(s: string, n: nat) {
    exists plus, zeros :: SpelledWith(s, n, plus, zeros)
  }

  lemma {:induction false} EvaluatePadded(k: nat, n: nat)
    ensures AllDigits(Zeros(k) + Render(n)) && Evaluate(Zeros(k) + Render(n)) == n
    decreases n
  {
    var s := Zeros(k) + Render(n);
    if n < 10 {
      assert s[..|s| - 1] == Zeros(k);
      EvaluateZeros(k);
    } else {
      EvaluatePadded(k, n / 10);
      assert s[..|s| - 1] == Zeros(k) + Render(n / 10);
    }
  }

  lemma {:induction false} EvaluateZeros(k: nat)
    ensures Evaluate(Zeros(k)) == 0
  {
    if k > 0 {
      assert Zeros(k)[..k - 1] == Zeros(k - 1);
      EvaluateZeros(k - 1);
    }
  }

  /** Every digit run is its value, printed behind some zeros. */
  lemma {:induction false} DigitsArePadded(s: string) returns (k: nat)
    requires s != [] && AllDigits(s)
    ensures s == Zeros(k) + Render(Evaluate(s))
  {
    var front, c := s[..|s| - 1], s[|s| - 1];
    assert s == front + [c] && DigitChar(DigitValue(c)) == c;
    if front == [] {
      assert Evaluate(front) == 0;
      k := 0;
    } else {
      k := DigitsArePadded(front);
      if Evaluate(front) == 0 {
        k := k + 1;
        assert front == Zeros(k);
      } else {
        assert Render(Evaluate(s)) == Render(Evaluate(front)) + [c];
      }
    }
  }

  lemma SpelledParses(s: string, n: nat, plus: bool, k: nat)
    requires n < USIZE_LIMIT && SpelledWith(s, n, plus, k)
    ensures ParseUsize(s) == Some(n)
  {
    var digits := Zeros(k) + Render(n);
    EvaluatePadded(k, n);
    if plus {
      assert s[0] == '+' && s[1..] == digits;
    } else {
      assert s == digits && IsDigit(s[0]);
    }
  }

  lemma ParsedIsSpelled(s: string)
    requires ParseUsize(s).Some?
    ensures SpellsIndex(s, ParseUsize(s).value)
  {
    var plus := |s| > 1 && s[0] == '+';
    var digits := if plus then s[1..] else s;
    var k := DigitsArePadded(digits);
    assert plus ==> s == "+" + digits;
    assert !plus ==> s == "" + digits;
    assert SpelledWith(s, ParseUsize(s).value, plus, k);
  }

  /** The texts that read as an index are exactly its spellings. */
  lemma ParseExactly(s: string, n: nat)
    ensures ParseUsize(s) == Some(n) <==> n < USIZE_LIMIT && SpellsIndex(s, n)
  {
    if n < USIZE_LIMIT && SpellsIndex(s, n) {
      var plus, k :| SpelledWith(s, n, plus, k);
      SpelledParses(s, n, plus, k);
    }
    if ParseUsize(s).Some? {
      ParsedIsSpelled(s);
    }
  }

  lemma RenderInjective(m: nat, n: nat)
    requires Render(m) == Render(n)
    ensures m == n
  {
    EvaluateRender(m);
    EvaluateRender(n);
  }

  /** A digit run is determined by where the text stops being digits. */
  lemma DigitSuffixUnique(a: string, x: string, b: string, y: string)
    requires a + x == b + y
    requires AllDigits(x) && AllDigits(y)
    requires a != [] && !IsDigit(a[|a| - 1])
    requires b != [] && !IsDigit(b[|b| - 1])
    ensures a == b && x == y
  {
    var whole := a + x;
    assert forall i :: |a| <= i < |whole| ==> IsDigit(whole[i]) by {
      assert forall i :: |a| <= i < |whole| ==> whole[i] == x[i - |a|];
    }
    assert forall i :: |b| <= i < |whole| ==> IsDigit(whole[i]) by {
      assert forall i :: |b| <= i < |whole| ==> whole[i] == y[i - |b|];
    }
    assert whole[|a| - 1] == a[|a| - 1] && whole[|b| - 1] == b[|b| - 1];
    assert |a| == |b|;
    assert a == whole[..|a|] && b == whole[..|b|] && x == whole[|a|..] && y == whole[|b|..];
  }
}
