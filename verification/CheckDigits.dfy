/** The check-digit families: each is a state that every character permutes, so what a check detects at one
    character it detects in a value of any length. */
module CheckDigits {
  import opened Prelude

  predicate IsDigit(c: char) {
    '0' <= c <= '9'
  }

  predicate IsLetter(c: char) {
    'A' <= c <= 'Z'
  }

  predicate IsAlnum(c: char) {
    IsDigit(c) || IsLetter(c)
  }

  /** 0-9, then A-Z as 10-35. */
  function Value(c: char): (v: nat)
    requires IsAlnum(c)
    ensures if IsDigit(c) then v < 10 else 10 <= v < 36
  {
    if IsDigit(c) then c as nat - '0' as nat else 10 + (c as nat - 'A' as nat)
  }

  const ALPHABET: string := "0123456789ABCDEFGHIJKLMNOPQRSTUVWXYZ"

  /** A character's value is its place in the alphabet. */
  lemma ValueIsPlace(c: char, v: nat)
    requires v < 36
    ensures |ALPHABET| == 36 && (c == ALPHABET[v] <==> IsAlnum(c) && Value(c) == v)
  {
    if v < 10 {
      DigitPlace(v);
    } else {
      LetterPlace(v);
    }
  }

  lemma DigitPlace(v: nat)
    requires v < 10
    ensures |ALPHABET| == 36 && ALPHABET[v] as nat == '0' as nat + v
  {
  }

  lemma LetterPlace(v: nat)
    requires 10 <= v < 36
    ensures |ALPHABET| == 36 && ALPHABET[v] as nat == 'A' as nat + v - 10
  {
  }

  ghost predicate Over(alphabet: char -> bool, s: string) {
    forall i :: 0 <= i < |s| ==> alphabet(s[i])
  }

  // --- A check as a state that characters move ----------------------------------------------

  type Step = (nat, char) -> nat

  /** The state after a value. */
  function Run(step: Step, state: nat, s: string): nat
    decreases |s|
  {
    if s == "" then state else Run(step, step(state, s[0]), s[1..])
  }

  lemma {:induction false} RunConcat(step: Step, state: nat, a: string, b: string)
    ensures Run(step, state, a + b) == Run(step, Run(step, state, a), b)
    decreases |a|
  {
    if a == "" {
      assert a + b == b;
    } else {
      assert (a + b)[1..] == a[1..] + b;
      RunConcat(step, step(state, a[0]), a[1..], b);
    }
  }

  /** Each character of the alphabet keeps states within `m` and never brings two together. */
  ghost predicate Permutes(step: Step, m: nat, alphabet: char -> bool) {
    forall c: char | alphabet(c) ::
      && (forall x: nat | x < m :: step(x, c) < m)
      && (forall x: nat, y: nat | x < m && y < m && step(x, c) == step(y, c) :: x == y)
  }

  lemma {:induction false} RunStays(step: Step, m: nat, alphabet: char -> bool, state: nat, s: string)
    requires Permutes(step, m, alphabet) && Over(alphabet, s) && state < m
    ensures Run(step, state, s) < m
    decreases |s|
  {
    if s != "" {
      assert alphabet(s[0]);
      RunStays(step, m, alphabet, step(state, s[0]), s[1..]);
    }
  }

  /** Two states that differ stay different, whatever follows. */
  lemma {:induction false} RunSeparates(step: Step, m: nat, alphabet: char -> bool, x: nat, y: nat, s: string)
    requires Permutes(step, m, alphabet) && Over(alphabet, s) && x < m && y < m
    ensures Run(step, x, s) == Run(step, y, s) <==> x == y
    decreases |s|
  {
    if s != "" {
      assert alphabet(s[0]);
      RunSeparates(step, m, alphabet, step(x, s[0]), step(y, s[0]), s[1..]);
    }
  }

  /** A change inside a value shows at its end exactly when it shows where it is made. */
  lemma ChangeShows(step: Step, m: nat, alphabet: char -> bool, init: nat, before: string, one: string, other: string, after: string)
    requires Permutes(step, m, alphabet) && init < m
    requires Over(alphabet, before) && Over(alphabet, one) && Over(alphabet, other) && Over(alphabet, after)
    ensures
      var state := Run(step, init, before);
      state < m
      && (Run(step, init, before + one + after) == Run(step, init, before + other + after) <==>
          Run(step, state, one) == Run(step, state, other))
  {
    var state := Run(step, init, before);
    RunStays(step, m, alphabet, init, before);
    RunStays(step, m, alphabet, state, one);
    RunStays(step, m, alphabet, state, other);
    RunConcat(step, init, before + one, after);
    RunConcat(step, init, before + other, after);
    RunConcat(step, init, before, one);
    RunConcat(step, init, before, other);
    RunSeparates(step, m, alphabet, Run(step, state, one), Run(step, state, other), after);
  }

  lemma RunFirst(step: Step, state: nat, s: string)
    requires s != ""
    ensures Run(step, state, s) == Run(step, step(state, s[0]), s[1..])
  {
  }

  lemma RunOne(step: Step, state: nat, c: char)
    ensures Run(step, state, [c]) == step(state, c)
  {
    assert [c][1..] == "";
  }

  lemma RunTwo(step: Step, state: nat, c: char, d: char)
    ensures Run(step, state, [c, d]) == step(step(state, c), d)
  {
    assert [c, d][1..] == [d];
    RunOne(step, step(state, c), d);
  }

  // --- ISO/IEC 7064 MOD 97-10 ---------------------------------------------------------------

  /** `str` of a character's value: one digit, or two for a letter. */
  function Spelled(c: char): string
    requires IsAlnum(c)
  {
    if Value(c) < 10 then [c] else [(Value(c) / 10) as char + '0', (Value(c) % 10) as char + '0']
  }

  function Joined(s: string): string
    requires Over(IsAlnum, s)
    decreases |s|
  {
    if s == "" then "" else Joined(s[..|s| - 1]) + Spelled(s[|s| - 1])
  }

  /** `int` of a decimal text. */
  function Number(digits: string): nat
    requires Over(IsDigit, digits)
    decreases |digits|
  {
    if digits == "" then 0 else 10 * Number(digits[..|digits| - 1]) + Value(digits[|digits| - 1])
  }

  lemma JoinedDigits(s: string)
    requires Over(IsAlnum, s)
    ensures Over(IsDigit, Joined(s))
  {
  }

  /** `mod97_10`: letters read as 10-35; the number mod 97 is 1. */
  predicate Mod97_10(s: string)
    requires Over(IsAlnum, s)
  {
    JoinedDigits(s);
    Number(Joined(s)) % 97 == 1
  }

  function Step97(state: nat, c: char): nat {
    if IsDigit(c) then (10 * state + Value(c)) % 97
    else if IsLetter(c) then (100 * state + Value(c)) % 97
    else state
  }

  lemma Step97Permutes()
    ensures Permutes(Step97, 97, IsAlnum)
  {
    hide Value;
    forall c: char, x: nat, y: nat | IsAlnum(c) && x < 97 && y < 97 && Step97(x, c) == Step97(y, c)
      ensures x == y
    {
      if IsDigit(c) {
        TensCancel(x, y, Value(c));
      } else {
        HundredsCancel(x, y, Value(c));
      }
    }
  }

  lemma TensCancel(x: nat, y: nat, v: nat)
    requires x < 97 && y < 97 && (10 * x + v) % 97 == (10 * y + v) % 97
    ensures x == y
  {
    var k := (10 * x + v) / 97 - (10 * y + v) / 97;
    assert 10 * (x - y) == 97 * k;
    assert x - y == 97 * (68 * k - 7 * (x - y));
  }

  lemma HundredsCancel(x: nat, y: nat, v: nat)
    requires x < 97 && y < 97 && (100 * x + v) % 97 == (100 * y + v) % 97
    ensures x == y
  {
    var k := (100 * x + v) / 97 - (100 * y + v) / 97;
    assert 100 * (x - y) == 97 * k;
    assert x - y == 97 * (65 * k - 67 * (x - y));
  }

  lemma NumberAppend(a: string, c: char)
    requires Over(IsDigit, a) && IsDigit(c)
    ensures Over(IsDigit, a + [c]) && Number(a + [c]) == 10 * Number(a) + Value(c)
  {
    assert (a + [c])[..|a + [c]| - 1] == a;
  }

  lemma SpelledAppend(a: string, c: char)
    requires Over(IsDigit, a) && IsAlnum(c)
    ensures Over(IsDigit, a + Spelled(c)) && Number(a + Spelled(c)) == Base(c) * Number(a) + Value(c)
  {
    var v := Value(c);
    if IsDigit(c) {
      NumberAppend(a, c);
    } else {
      var tens, ones := (v / 10) as char + '0', (v % 10) as char + '0';
      NumberAppend(a, tens);
      NumberAppend(a + [tens], ones);
      assert a + Spelled(c) == a + [tens] + [ones];
    }
  }

  /** The number the letters spell, mod 97, is the state a value runs to. */
  lemma {:induction false} SpelledRuns(s: string)
    requires Over(IsAlnum, s)
    ensures Over(IsDigit, Joined(s)) && Number(Joined(s)) % 97 == Run(Step97, 0, s)
    decreases |s|
  {
    if s != "" {
      hide Number, Spelled, Joined, Run, Step97, Value, Base;
      var rest, c := s[..|s| - 1], s[|s| - 1];
      assert s == rest + [c];
      SpelledRuns(rest);
      RunConcat(Step97, 0, rest, [c]);
      RunOne(Step97, Run(Step97, 0, rest), c);
      JoinedLast(s);
      SpelledAppend(Joined(rest), c);
      TimesMod(Base(c), Number(Joined(rest)), Value(c));
      StepIs(Run(Step97, 0, rest), c);
    }
  }

  lemma JoinedLast(s: string)
    requires Over(IsAlnum, s) && s != ""
    ensures Over(IsAlnum, s[..|s| - 1]) && Joined(s) == Joined(s[..|s| - 1]) + Spelled(s[|s| - 1])
  {
  }

  lemma StepIs(state: nat, c: char)
    requires IsAlnum(c)
    ensures Step97(state, c) == (Base(c) * state + Value(c)) % 97
  {
  }

  lemma TimesMod(b: nat, n: nat, v: nat)
    ensures (b * n + v) % 97 == (b * (n % 97) + v) % 97
  {
    var q, r := n / 97, n % 97;
    Regroup(b, q, r);
    assert n == 97 * q + r;
    Mod97Adds(b * q, b * r + v);
  }

  lemma Regroup(b: int, q: int, r: int)
    ensures b * (97 * q + r) == 97 * (b * q) + b * r
  {
  }

  lemma Mod97Adds(q: int, r: int)
    ensures (97 * q + r) % 97 == r % 97
  {
  }

  lemma Mod97Runs(s: string)
    requires Over(IsAlnum, s)
    ensures Mod97_10(s) <==> Run(Step97, 0, s) == 1
  {
    SpelledRuns(s);
  }

  /** A change inside a value, seen by MOD 97-10. */
  lemma Mod97Change(before: string, one: string, other: string, after: string)
    requires Over(IsAlnum, before) && Over(IsAlnum, one) && Over(IsAlnum, other) && Over(IsAlnum, after)
    ensures Over(IsAlnum, before + one + after) && Over(IsAlnum, before + other + after)
    ensures
      var x := Run(Step97, 0, before);
      && x < 97 && Over(IsDigit, Joined(before)) && x == Number(Joined(before)) % 97
      && (Run(Step97, x, one) == Run(Step97, x, other) ==> (Mod97_10(before + one + after) <==> Mod97_10(before + other + after)))
      && (Run(Step97, x, one) != Run(Step97, x, other) ==> !(Mod97_10(before + one + after) && Mod97_10(before + other + after)))
  {
    hide Run, Number, Joined, Permutes, Mod97_10;
    Step97Permutes();
    ChangeShows(Step97, 97, IsAlnum, 0, before, one, other, after);
    SpelledRuns(before);
    Mod97Runs(before + one + after);
    Mod97Runs(before + other + after);
  }

  /** Replacing a digit by another, or a letter by another, is always detected. */
  lemma Mod97DetectsSubstitution(before: string, c: char, d: char, after: string)
    requires Over(IsAlnum, before) && Over(IsAlnum, after) && c != d
    requires (IsDigit(c) && IsDigit(d)) || (IsLetter(c) && IsLetter(d))
    ensures Over(IsAlnum, before + [c] + after) && Over(IsAlnum, before + [d] + after)
    ensures !(Mod97_10(before + [c] + after) && Mod97_10(before + [d] + after))
  {
    hide Run, Number, Joined, Mod97_10;
    Mod97Change(before, [c], [d], after);
    RunOne(Step97, Run(Step97, 0, before), c);
    RunOne(Step97, Run(Step97, 0, before), d);
    StepsDiffer(Run(Step97, 0, before), c, d);
  }

  /** A digit replaced by a letter lengthens the number, and passes exactly when what precedes it makes up for it. */
  lemma Mod97DigitForLetter(before: string, c: char, d: char, after: string)
    requires Over(IsAlnum, before) && Over(IsAlnum, after) && IsDigit(c) && IsLetter(d)
    requires Over(IsAlnum, before + [c] + after) && Mod97_10(before + [c] + after)
    ensures Over(IsAlnum, before + [d] + after) && Over(IsDigit, Joined(before))
    ensures Mod97_10(before + [d] + after) <==> (90 * Number(Joined(before)) + Value(d) - Value(c)) % 97 == 0
  {
    hide Run, Number, Joined, Mod97_10;
    Mod97Change(before, [c], [d], after);
    RunOne(Step97, Run(Step97, 0, before), c);
    RunOne(Step97, Run(Step97, 0, before), d);
    DigitLetterStates(Number(Joined(before)), c, d);
  }

  lemma DigitLetterStates(n: nat, c: char, d: char)
    requires IsDigit(c) && IsLetter(d)
    ensures Step97(n % 97, c) == Step97(n % 97, d) <==> (90 * n + Value(d) - Value(c)) % 97 == 0
  {
    TimesMod(10, n, Value(c));
    TimesMod(100, n, Value(d));
    SameMod(100 * n + Value(d), 10 * n + Value(c));
  }

  lemma StepsDiffer(x: nat, c: char, d: char)
    requires x < 97 && c != d && ((IsDigit(c) && IsDigit(d)) || (IsLetter(c) && IsLetter(d)))
    ensures Step97(x, c) != Step97(x, d)
  {
    SameMod(Base(c) * x + Value(c), Base(c) * x + Value(d));
  }

  /** The only adjacent characters MOD 97-10 cannot tell apart when they change places. */
  predicate Twins(c: char, d: char) {
    (c == '1' && d == 'B') || (c == '2' && d == 'M') || (c == '3' && d == 'X')
  }

  /** Adjacent unequal characters that change places leave the check as it was exactly when they are 1B, 2M
      or 3X, either way round. */
  lemma Mod97Transposition(before: string, c: char, d: char, after: string)
    requires Over(IsAlnum, before) && Over(IsAlnum, after) && IsAlnum(c) && IsAlnum(d) && c != d
    ensures Over(IsAlnum, before + [c, d] + after) && Over(IsAlnum, before + [d, c] + after)
    ensures !(Mod97_10(before + [c, d] + after) && Mod97_10(before + [d, c] + after)) || Twins(c, d) || Twins(d, c)
    ensures Twins(c, d) || Twins(d, c) ==> (Mod97_10(before + [c, d] + after) <==> Mod97_10(before + [d, c] + after))
  {
    hide Run, Number, Joined, Mod97_10;
    Mod97Change(before, [c, d], [d, c], after);
    var x := Run(Step97, 0, before);
    RunTwo(Step97, x, c, d);
    RunTwo(Step97, x, d, c);
    SwapStates(x, c, d);
  }

  function Base(c: char): nat {
    if IsDigit(c) then 10 else 100
  }

  lemma SwapStates(x: nat, c: char, d: char)
    requires IsAlnum(c) && IsAlnum(d) && c != d
    ensures Step97(Step97(x, c), d) == Step97(Step97(x, d), c) <==> Twins(c, d) || Twins(d, c)
  {
    hide Step97;
    TwoSteps(x, c, d);
    TwoSteps(x, d, c);
    TwinsAre(c, d);
    hide Value, Twins;
    var v: int, w: int := Value(c), Value(d);
    if IsDigit(c) && IsDigit(d) {
      SameMod(10 * (10 * x + v) + w, 10 * (10 * x + w) + v);
      NineApart(v - w);
    } else if IsLetter(c) && IsLetter(d) {
      SameMod(100 * (100 * x + v) + w, 100 * (100 * x + w) + v);
      NinetyNineApart(v - w);
    } else if IsDigit(c) {
      SameMod(100 * (10 * x + v) + w, 10 * (100 * x + w) + v);
      TwinValues(v, w);
    } else {
      SameMod(100 * (10 * x + w) + v, 10 * (100 * x + v) + w);
      TwinValues(w, v);
    }
  }

  /** The twins, by their values. */
  lemma TwinsAre(c: char, d: char)
    requires IsAlnum(c) && IsAlnum(d) && c != d
    ensures Value(c) != Value(d)
    ensures Twins(c, d) <==> (Value(c) == 1 && Value(d) == 11) || (Value(c) == 2 && Value(d) == 22) || (Value(c) == 3 && Value(d) == 33)
    ensures Twins(d, c) <==> (Value(d) == 1 && Value(c) == 11) || (Value(d) == 2 && Value(c) == 22) || (Value(d) == 3 && Value(c) == 33)
  {
  }

  lemma NineApart(n: int)
    requires -97 < n < 97 && n != 0
    ensures (9 * n) % 97 != 0
  {
  }

  lemma NinetyNineApart(n: int)
    requires -97 < n < 97 && n != 0
    ensures (99 * n) % 97 != 0
  {
  }

  lemma TwinValues(v: nat, w: nat)
    requires v < 10 && 10 <= w < 36
    ensures (99 * v - 9 * w) % 97 == 0 <==> (v == 1 && w == 11) || (v == 2 && w == 22) || (v == 3 && w == 33)
  {
  }

  lemma SameMod(a: int, b: int)
    ensures a % 97 == b % 97 <==> (a - b) % 97 == 0
  {
  }

  lemma TwoSteps(x: nat, c: char, d: char)
    requires IsAlnum(c) && IsAlnum(d)
    ensures Step97(Step97(x, c), d) == (Base(d) * (Base(c) * x + Value(c)) + Value(d)) % 97
  {
    TimesMod(Base(d), Base(c) * x + Value(c), Value(d));
  }

  // --- ISO/IEC 7064 MOD 11-2 ----------------------------------------------------------------

  predicate IsDigitOrX(c: char) {
    IsDigit(c) || c == 'X'
  }

  function Value11(c: char): nat
    requires IsDigitOrX(c)
  {
    if c == 'X' then 10 else Value(c)
  }

  const ALPHABET11: string := "0123456789X"

  /** A character's value is its place among the digits and X. */
  lemma Value11IsPlace(c: char, v: nat)
    requires v < 11
    ensures |ALPHABET11| == 11 && (c == ALPHABET11[v] <==> IsDigitOrX(c) && Value11(c) == v)
  {
    if v < 10 {
      DigitPlace(v);
      assert ALPHABET11[v] == ALPHABET[v];
    } else {
      assert ALPHABET11[10] == 'X';
    }
  }

  function Step11(state: nat, c: char): nat {
    if IsDigitOrX(c) then (2 * state + Value11(c)) % 11 else state
  }

  /** `mod11_2`: digits, the last may be X. */
  method Mod11_2(s: string) returns (ok: bool)
    requires Over(IsDigitOrX, s)
    ensures ok <==> Valid11(s)
    ensures ok <==> (WeightedSum(s) % 11 == 1)
  {
    var check := 0;
    for i := 0 to |s|
      invariant check == Run(Step11, 0, s[..i]) < 11
    {
      assert s[..i + 1] == s[..i] + [s[i]];
      RunConcat(Step11, 0, s[..i], [s[i]]);
      RunOne(Step11, check, s[i]);
      check := (2 * check + (if s[i] == 'X' then 10 else Value(s[i]))) % 11;
    }
    assert s[..|s|] == s;
    RunWeighs(0, s);
    ok := check == 1;
  }

  function Pow2(k: nat): nat {
    if k == 0 then 1 else 2 * Pow2(k - 1)
  }

  /** The standard's sum: each character times the power of two of its place. */
  function WeightedSum(s: string): nat
    requires Over(IsDigitOrX, s)
    decreases |s|
  {
    if s == "" then 0 else Value11(s[0]) * Pow2(|s| - 1) + WeightedSum(s[1..])
  }

  /** What the standard accepts. */
  predicate Valid11(s: string)
    requires Over(IsDigitOrX, s)
  {
    WeightedSum(s) % 11 == 1
  }

  lemma {:induction false} RunWeighs(x: nat, s: string)
    requires Over(IsDigitOrX, s) && x < 11
    ensures Run(Step11, x, s) == (x * Pow2(|s|) + WeightedSum(s)) % 11
    decreases |s|
  {
    if s != "" {
      hide WeightedSum, Run, Step11, Value11, Pow2;
      Step11Is(x, s[0]);
      RunFirst(Step11, x, s);
      RunWeighs((2 * x + Value11(s[0])) % 11, s[1..]);
      WeightedFirst(s);
      Pow2Next(|s|);
      HornerStep(x, Value11(s[0]), Pow2(|s| - 1), WeightedSum(s[1..]));
    }
  }

  lemma Step11Is(x: nat, c: char)
    requires IsDigitOrX(c)
    ensures Step11(x, c) == (2 * x + Value11(c)) % 11 < 11
  {
  }

  lemma Pow2Next(k: nat)
    requires k > 0
    ensures Pow2(k) == 2 * Pow2(k - 1)
  {
  }

  lemma WeightedFirst(s: string)
    requires Over(IsDigitOrX, s) && s != ""
    ensures WeightedSum(s) == Value11(s[0]) * Pow2(|s| - 1) + WeightedSum(s[1..])
  {
  }

  lemma HornerStep(x: nat, v: nat, p: nat, w: nat)
    ensures ((2 * x + v) % 11 * p + w) % 11 == (x * (2 * p) + (v * p + w)) % 11
  {
    var y := 2 * x + v;
    var q, r := y / 11, y % 11;
    assert y == 11 * q + r;
    Regroup11(q, r, p);
    DoubledPlus(x, v, p);
    Mod11Adds(q * p, r * p + w);
  }

  lemma Regroup11(q: int, r: int, p: int)
    ensures (11 * q + r) * p == 11 * (q * p) + r * p
  {
  }

  lemma DoubledPlus(x: int, v: int, p: int)
    ensures (2 * x + v) * p == x * (2 * p) + v * p
  {
  }

  lemma Mod11Adds(q: int, r: int)
    ensures (11 * q + r) % 11 == r % 11
  {
  }

  lemma Step11Permutes()
    ensures Permutes(Step11, 11, IsDigitOrX)
  {
    hide Value11;
    forall c: char, x: nat, y: nat | IsDigitOrX(c) && x < 11 && y < 11 && Step11(x, c) == Step11(y, c)
      ensures x == y
    {
      TwiceCancels(x, y, Value11(c));
    }
  }

  lemma TwiceCancels(x: nat, y: nat, v: nat)
    requires x < 11 && y < 11 && (2 * x + v) % 11 == (2 * y + v) % 11
    ensures x == y
  {
    var k := (2 * x + v) / 11 - (2 * y + v) / 11;
    assert 2 * (x - y) == 11 * k;
  }

  lemma Step11Shows(x: nat, c: char, d: char)
    requires IsDigitOrX(c) && IsDigitOrX(d) && c != d
    ensures Step11(x, c) != Step11(x, d)
  {
    Shift11(2 * x, Value11(c), Value11(d));
  }

  lemma Shift11(p: nat, v: nat, w: nat)
    requires v < 11 && w < 11 && v != w
    ensures (p + v) % 11 != (p + w) % 11
  {
  }

  /** Replacing any character by another is always detected. */
  lemma Mod11DetectsSubstitution(before: string, c: char, d: char, after: string)
    requires Over(IsDigitOrX, before) && Over(IsDigitOrX, after) && IsDigitOrX(c) && IsDigitOrX(d) && c != d
    ensures Over(IsDigitOrX, before + [c] + after) && Over(IsDigitOrX, before + [d] + after)
    ensures !(Valid11(before + [c] + after) && Valid11(before + [d] + after))
  {
    hide Run, WeightedSum, Permutes, Step11, Value11;
    Step11Permutes();
    ChangeShows(Step11, 11, IsDigitOrX, 0, before, [c], [d], after);
    var x := Run(Step11, 0, before);
    Step11Shows(x, c, d);
    RunOne(Step11, x, c);
    RunOne(Step11, x, d);
    RunWeighs(0, before + [c] + after);
    RunWeighs(0, before + [d] + after);
  }

  /** Two unequal characters that change places pass as before exactly when their distance is a multiple of ten. */
  lemma Mod11Swap(before: string, c: char, between: string, d: char, after: string)
    requires Over(IsDigitOrX, before) && Over(IsDigitOrX, between) && Over(IsDigitOrX, after)
    requires IsDigitOrX(c) && IsDigitOrX(d) && c != d
    ensures
      var one, other := before + ([c] + between + [d]) + after, before + ([d] + between + [c]) + after;
      && Over(IsDigitOrX, one) && Over(IsDigitOrX, other)
      && ((|between| + 1) % 10 == 0 ==> (Valid11(one) <==> Valid11(other)))
      && ((|between| + 1) % 10 != 0 ==> !(Valid11(one) && Valid11(other)))
  {
    hide Run, WeightedSum, Permutes;
    var one, other := [c] + between + [d], [d] + between + [c];
    Step11Permutes();
    ChangeShows(Step11, 11, IsDigitOrX, 0, before, one, other, after);
    SwapWeighs(Run(Step11, 0, before), c, between, d);
    RunWeighs(0, before + one + after);
    RunWeighs(0, before + other + after);
  }

  lemma {:induction false} WeightedAppend(s: string, c: char)
    requires Over(IsDigitOrX, s) && IsDigitOrX(c)
    ensures Over(IsDigitOrX, s + [c]) && WeightedSum(s + [c]) == 2 * WeightedSum(s) + Value11(c)
    decreases |s|
  {
    if s == "" {
      assert s + [c] == [c] && [c][1..] == "";
    } else {
      hide WeightedSum, Value11;
      assert (s + [c])[1..] == s[1..] + [c];
      WeightedAppend(s[1..], c);
      WeightedFirst(s);
      WeightedFirst(s + [c]);
      DoubleTerm(Value11(s[0]), Pow2(|s| - 1));
    }
  }

  lemma DoubleTerm(v: int, p: int)
    ensures v * (2 * p) == 2 * (v * p)
  {
  }

  lemma FramedWeighs(x: nat, c: char, between: string, d: char)
    requires Over(IsDigitOrX, between) && IsDigitOrX(c) && IsDigitOrX(d) && x < 11
    ensures Over(IsDigitOrX, [c] + between + [d])
    ensures Run(Step11, x, [c] + between + [d]) ==
            (x * Pow2(|between| + 2) + Value11(c) * Pow2(|between| + 1) + 2 * WeightedSum(between) + Value11(d)) % 11
  {
    var s := [c] + between + [d];
    RunWeighs(x, s);
    assert s[1..] == between + [d];
    WeightedAppend(between, d);
  }

  lemma SwapWeighs(x: nat, c: char, between: string, d: char)
    requires Over(IsDigitOrX, between) && IsDigitOrX(c) && IsDigitOrX(d) && c != d && x < 11
    ensures Run(Step11, x, [c] + between + [d]) == Run(Step11, x, [d] + between + [c]) <==> (|between| + 1) % 10 == 0
  {
    hide Run, WeightedSum, Pow2;
    FramedWeighs(x, c, between, d);
    FramedWeighs(x, d, between, c);
    var k := |between| + 1;
    PowersOfTwo(k);
    SwapSums(x * Pow2(k + 1), WeightedSum(between), Value11(c), Value11(d), Pow2(k), k);
  }

  lemma SwapSums(a: nat, b: nat, v: int, w: int, p: int, k: nat)
    requires 0 <= v < 11 && 0 <= w < 11 && v != w && p % 11 == PowerMod11(k)
    ensures (a + v * p + 2 * b + w) % 11 == (a + w * p + 2 * b + v) % 11 <==> k % 10 == 0
  {
    hide PowerMod11;
    var one, other := a + v * p + 2 * b + w, a + w * p + 2 * b + v;
    SameMod11(one, other);
    SwapDifference(v, w, p);
    PowerStays(k);
    OneLess(p, PowerMod11(k));
    TimesUnit(v - w, p - 1, k);
  }

  lemma SwapDifference(v: int, w: int, p: int)
    ensures (v * p + w) - (w * p + v) == (v - w) * (p - 1)
  {
  }

  lemma PowerStays(k: nat)
    ensures 1 <= PowerMod11(k) < 11
  {
  }

  lemma OneLess(p: int, r: int)
    requires p % 11 == r && r >= 1
    ensures (p - 1) % 11 == r - 1
  {
  }

  lemma SameMod11(a: int, b: int)
    ensures a % 11 == b % 11 <==> (a - b) % 11 == 0
  {
  }

  /** The powers of two mod 11 go round every ten. */
  function PowerMod11(k: nat): nat {
    match k % 10
    case 0 => 1 case 1 => 2 case 2 => 4 case 3 => 8 case 4 => 5
    case 5 => 10 case 6 => 9 case 7 => 7 case 8 => 3 case _ => 6
  }

  lemma {:induction false} PowersOfTwo(k: nat)
    ensures Pow2(k) % 11 == PowerMod11(k)
  {
    if k != 0 {
      hide PowerMod11;
      PowersOfTwo(k - 1);
      PowerStep(k);
      DoubleMod(Pow2(k - 1));
    }
  }

  lemma DoubleMod(p: nat)
    ensures (2 * p) % 11 == 2 * (p % 11) % 11
  {
  }

  lemma PowerStep(k: nat)
    requires k > 0
    ensures PowerMod11(k) == 2 * PowerMod11(k - 1) % 11
  {
    assert k % 10 == if (k - 1) % 10 == 9 then 0 else (k - 1) % 10 + 1;
  }

  lemma TimesUnit(u: int, t: int, k: nat)
    requires -11 < u < 11 && u != 0 && t % 11 == PowerMod11(k) - 1
    ensures (u * t) % 11 == 0 <==> k % 10 == 0
  {
    var r := t % 11;
    assert u * t == 11 * (u * (t / 11)) + u * r by {
      assert t == 11 * (t / 11) + r;
    }
    Mod11Adds(u * (t / 11), u * r);
    UnitsMod11(u, r);
  }

  lemma UnitsMod11(u: int, r: int)
    requires -11 < u < 11 && u != 0 && 0 <= r < 11
    ensures (u * r) % 11 == 0 <==> r == 0
  {
    match r {
      case 0 => case 1 => case 2 => assert u * r == 2 * u; case 3 => assert u * r == 3 * u; case 4 => assert u * r == 4 * u;
      case 5 => assert u * r == 5 * u; case 6 => assert u * r == 6 * u; case 7 => assert u * r == 7 * u;
      case 8 => assert u * r == 8 * u; case 9 => assert u * r == 9 * u; case _ => assert u * r == 10 * u;
    }
  }

  // --- ISO/IEC 7064 hybrid systems, MOD 11,10 and MOD 37,36 ----------------------------------

  function OrM(m: nat, x: nat): nat {
    if x == 0 then m else x
  }

  function HybridStep(m: nat, state: nat, value: nat): nat
    requires m > 0
  {
    (OrM(m, state) * 2 % (m + 1) + value) % m
  }

  function Step10(state: nat, c: char): nat {
    if IsDigit(c) then HybridStep(10, state, Value(c)) else state
  }

  function Step36(state: nat, c: char): nat {
    if IsAlnum(c) then HybridStep(36, state, Value(c)) else state
  }

  /** The standard's recursion: from the first product `p`, each sum is the product mod M+1 plus the character,
      and the next product twice that sum mod M, with M for 0. The last sum decides. */
  function IsoSum(m: nat, p: nat, s: string): nat
    requires m > 0 && s != "" && Over(IsAlnum, s)
    decreases |s|
  {
    var sum := p % (m + 1) + Value(s[0]);
    if |s| == 1 then sum else IsoSum(m, 2 * OrM(m, sum % m), s[1..])
  }

  predicate IsoValid(m: nat, s: string)
    requires m > 0 && Over(IsAlnum, s)
  {
    s != "" && IsoSum(m, m, s) % m == 1
  }

  /** `mod11_10`. */
  method Mod11_10(s: string) returns (ok: bool)
    requires Over(IsDigit, s)
    ensures ok <==> IsoValid(10, s)
  {
    var check := 5;
    for i := 0 to |s|
      invariant check == Run(Step10, 5, s[..i])
    {
      assert s[..i + 1] == s[..i] + [s[i]];
      RunConcat(Step10, 5, s[..i], [s[i]]);
      RunOne(Step10, check, s[i]);
      check := ((if check == 0 then 10 else check) * 2 % 11 + Value(s[i])) % 10;
    }
    assert s[..|s|] == s;
    if s != "" {
      HybridIsIso(Step10, 10, 5, s);
    }
    ok := check == 1;
  }

  /** `mod37_36`. */
  method Mod37_36(s: string) returns (ok: bool)
    requires Over(IsAlnum, s)
    ensures ok <==> IsoValid(36, s)
  {
    var check := 18;
    for i := 0 to |s|
      invariant check == Run(Step36, 18, s[..i])
    {
      assert s[..i + 1] == s[..i] + [s[i]];
      RunConcat(Step36, 18, s[..i], [s[i]]);
      RunOne(Step36, check, s[i]);
      check := ((if check == 0 then 36 else check) * 2 % 37 + Value(s[i])) % 36;
    }
    assert s[..|s|] == s;
    if s != "" {
      HybridIsIso(Step36, 36, 18, s);
    }
    ok := check == 1;
  }

  lemma {:induction false} HybridIsIso(step: Step, m: nat, x: nat, s: string)
    requires m > 0 && s != "" && Over(IsAlnum, s)
    requires forall i, y: nat :: 0 <= i < |s| ==> step(y, s[i]) == HybridStep(m, y, Value(s[i]))
    ensures Run(step, x, s) == IsoSum(m, 2 * OrM(m, x), s) % m
    decreases |s|
  {
    hide IsoSum, OrM, Value;
    var y := step(x, s[0]);
    IsoFirst(m, 2 * OrM(m, x), s);
    if |s| == 1 {
      assert s[1..] == "";
    } else {
      HybridIsIso(step, m, y, s[1..]);
    }
  }

  lemma IsoFirst(m: nat, p: nat, s: string)
    requires m > 0 && s != "" && Over(IsAlnum, s)
    ensures
      var sum := p % (m + 1) + Value(s[0]);
      IsoSum(m, p, s) == if |s| == 1 then sum else IsoSum(m, 2 * OrM(m, sum % m), s[1..])
  {
  }

  lemma HybridsPermute()
    ensures Permutes(Step10, 10, IsDigit) && Permutes(Step36, 36, IsAlnum)
  {
    forall c: char, x: nat, y: nat | IsDigit(c) && x < 10 && y < 10 && Step10(x, c) == Step10(y, c)
      ensures x == y
    {
      Doubles10(OrM(10, x), OrM(10, y), Value(c));
    }
    forall c: char, x: nat, y: nat | IsAlnum(c) && x < 36 && y < 36 && Step36(x, c) == Step36(y, c)
      ensures x == y
    {
      Doubles36(OrM(36, x), OrM(36, y), Value(c));
    }
  }

  lemma Doubles10(x: nat, y: nat, v: nat)
    requires 1 <= x <= 10 && 1 <= y <= 10 && (x * 2 % 11 + v) % 10 == (y * 2 % 11 + v) % 10
    ensures x == y
  {
    Double11(x);
    Double11(y);
    SameShift10(x * 2 % 11, y * 2 % 11, v);
  }

  lemma Double11(x: nat)
    requires 1 <= x <= 10
    ensures x * 2 % 11 == if x <= 5 then 2 * x else 2 * x - 11
  {
  }

  lemma SameShift10(a: nat, b: nat, v: nat)
    requires 1 <= a <= 10 && 1 <= b <= 10 && (a + v) % 10 == (b + v) % 10
    ensures a == b
  {
  }

  lemma Doubles36(x: nat, y: nat, v: nat)
    requires 1 <= x <= 36 && 1 <= y <= 36 && (x * 2 % 37 + v) % 36 == (y * 2 % 37 + v) % 36
    ensures x == y
  {
    Double37(x);
    Double37(y);
    SameShift36(x * 2 % 37, y * 2 % 37, v);
  }

  lemma Double37(x: nat)
    requires 1 <= x <= 36
    ensures x * 2 % 37 == if x <= 18 then 2 * x else 2 * x - 37
  {
  }

  lemma SameShift36(a: nat, b: nat, v: nat)
    requires 1 <= a <= 36 && 1 <= b <= 36 && (a + v) % 36 == (b + v) % 36
    ensures a == b
  {
  }

  /** The two hybrid systems: their alphabet, modulus, step and first state. */
  datatype Hybrid = Mod11_10System | Mod37_36System {
    function M(): nat { if Mod11_10System? then 10 else 36 }
    function Alphabet(): char -> bool { if Mod11_10System? then IsDigit else IsAlnum }
    function Moves(): Step { if Mod11_10System? then Step10 else Step36 }
    function First(): nat { if Mod11_10System? then 5 else 18 }
    function Character(v: nat): char
      requires v < M()
    {
      if v < 10 then v as char + '0' else (v - 10) as char + 'A'
    }
  }

  lemma HybridRuns(h: Hybrid, s: string)
    requires Over(h.Alphabet(), s) && s != ""
    ensures Over(IsAlnum, s) && (IsoValid(h.M(), s) <==> Run(h.Moves(), h.First(), s) == 1)
  {
    HybridIsIso(h.Moves(), h.M(), h.First(), s);
  }

  /** Replacing any character by another is always detected. */
  lemma HybridDetectsSubstitution(h: Hybrid, before: string, c: char, d: char, after: string)
    requires Over(h.Alphabet(), before) && Over(h.Alphabet(), after) && h.Alphabet()(c) && h.Alphabet()(d) && c != d
    ensures
      var one, other := before + [c] + after, before + [d] + after;
      Over(IsAlnum, one) && Over(IsAlnum, other) && !(IsoValid(h.M(), one) && IsoValid(h.M(), other))
  {
    hide Run, Permutes, IsoValid;
    HybridsPermute();
    ChangeShows(h.Moves(), h.M(), h.Alphabet(), h.First(), before, [c], [d], after);
    var x := Run(h.Moves(), h.First(), before);
    RunOne(h.Moves(), x, c);
    RunOne(h.Moves(), x, d);
    ValuesShow(h, x, c, d);
    HybridRuns(h, before + [c] + after);
    HybridRuns(h, before + [d] + after);
  }

  lemma ValuesShow(h: Hybrid, x: nat, c: char, d: char)
    requires h.Alphabet()(c) && h.Alphabet()(d) && c != d
    ensures h.Moves()(x, c) != h.Moves()(x, d)
  {
    hide OrM;
    Unequal(c, d);
    if h.Mod11_10System? {
      Shift10(OrM(10, x) * 2 % 11, Value(c), Value(d));
    } else {
      Shift36(OrM(36, x) * 2 % 37, Value(c), Value(d));
    }
  }

  lemma Unequal(c: char, d: char)
    requires IsAlnum(c) && IsAlnum(d) && c != d
    ensures Value(c) != Value(d)
  {
  }

  lemma Shift10(p: nat, v: nat, w: nat)
    requires v < 10 && w < 10 && v != w
    ensures (p + v) % 10 != (p + w) % 10
  {
  }

  lemma Shift36(p: nat, v: nat, w: nat)
    requires v < 36 && w < 36 && v != w
    ensures (p + v) % 36 != (p + w) % 36
  {
  }

  /** From any state some character leads to any other. */
  lemma CharacterTo(h: Hybrid, x: nat, target: nat) returns (c: char)
    requires target < h.M()
    ensures h.Alphabet()(c) && h.Moves()(x, c) == target
  {
    hide OrM;
    if h.Mod11_10System? {
      var p := OrM(10, x) * 2 % 11;
      var v := Complement10(p, target);
      c := h.Character(v);
    } else {
      var p := OrM(36, x) * 2 % 37;
      var v := Complement36(p, target);
      c := h.Character(v);
    }
  }

  lemma Complement10(p: nat, target: nat) returns (v: nat)
    requires p < 11 && target < 10
    ensures v < 10 && (p + v) % 10 == target
  {
    v := if p <= target then target - p else if p == 10 && target == 0 then 0 else target + 10 - p;
  }

  lemma Complement36(p: nat, target: nat) returns (v: nat)
    requires p < 37 && target < 36
    ensures v < 36 && (p + v) % 36 == target
  {
    v := if p <= target then target - p else if p == 36 && target == 0 then 0 else target + 36 - p;
  }

  /** Each payload has exactly one check character. */
  lemma HybridCheckCharacter(h: Hybrid, payload: string)
    requires Over(h.Alphabet(), payload)
    ensures exists c: char :: IsCheck(h, payload, c) && forall d: char :: IsCheck(h, payload, d) ==> d == c
  {
    hide Run, IsoValid, Step10, Step36, HybridStep;
    var x := Run(h.Moves(), h.First(), payload);
    var c := CharacterTo(h, x, 1);
    forall d: char | h.Alphabet()(d)
      ensures IsCheck(h, payload, d) <==> h.Moves()(x, d) == 1
    {
      RunConcat(h.Moves(), h.First(), payload, [d]);
      RunOne(h.Moves(), x, d);
      HybridRuns(h, payload + [d]);
    }
    forall d: char | IsCheck(h, payload, d)
      ensures d == c
    {
      if d != c {
        ValuesShow(h, x, c, d);
      }
    }
  }

  ghost predicate IsCheck(h: Hybrid, payload: string, c: char)
    requires Over(h.Alphabet(), payload)
  {
    h.Alphabet()(c) && Over(IsAlnum, payload + [c]) && IsoValid(h.M(), payload + [c])
  }

  /** The two middle states, M/2 and M/2 + 1, either way round. */
  predicate Middle(h: Hybrid, s: nat, t: nat) {
    (s == h.M() / 2 && t == h.M() / 2 + 1) || (s == h.M() / 2 + 1 && t == h.M() / 2)
  }

  /** Two unequal neighbours that change places leave the check as it was exactly when, after what stands before
      them, the one and the other lead to the two middle states. */
  lemma HybridTransposition(h: Hybrid, before: string, c: char, d: char, after: string)
    requires Over(h.Alphabet(), before) && Over(h.Alphabet(), after) && h.Alphabet()(c) && h.Alphabet()(d) && c != d
    ensures
      var x := Run(h.Moves(), h.First(), before);
      var one, other := before + [c, d] + after, before + [d, c] + after;
      && Over(IsAlnum, one) && Over(IsAlnum, other)
      && (Middle(h, h.Moves()(x, c), h.Moves()(x, d)) ==> (IsoValid(h.M(), one) <==> IsoValid(h.M(), other)))
      && (IsoValid(h.M(), one) && IsoValid(h.M(), other) ==> Middle(h, h.Moves()(x, c), h.Moves()(x, d)))
  {
    hide Run, Permutes, IsoValid, Step10, Step36, Middle;
    HybridsPermute();
    ChangeShows(h.Moves(), h.M(), h.Alphabet(), h.First(), before, [c, d], [d, c], after);
    var x := Run(h.Moves(), h.First(), before);
    RunTwo(h.Moves(), x, c, d);
    RunTwo(h.Moves(), x, d, c);
    SwapMeets(h, x, c, d);
    HybridRuns(h, before + [c, d] + after);
    HybridRuns(h, before + [d, c] + after);
  }

  lemma SwapMeets(h: Hybrid, x: nat, c: char, d: char)
    requires h.Alphabet()(c) && h.Alphabet()(d) && c != d && x < h.M()
    ensures
      var s, t := h.Moves()(x, c), h.Moves()(x, d);
      h.Moves()(s, d) == h.Moves()(t, c) <==> Middle(h, s, t)
  {
    hide OrM;
    Unequal(c, d);
    if h.Mod11_10System? {
      Double11(OrMOf(10, x));
      Meets10(OrM(10, x) * 2 % 11, Value(c), Value(d));
    } else {
      Double37(OrMOf(36, x));
      Meets36(OrM(36, x) * 2 % 37, Value(c), Value(d));
    }
  }

  function OrMOf(m: nat, x: nat): (r: nat)
    requires x < m
    ensures r == OrM(m, x) && 1 <= r <= m
  {
    OrM(m, x)
  }

  lemma Meets10(p: nat, v: nat, w: nat)
    requires 1 <= p <= 10 && v < 10 && w < 10 && v != w
    ensures
      var s, t := (p + v) % 10, (p + w) % 10;
      (OrM(10, s) * 2 % 11 + w) % 10 == (OrM(10, t) * 2 % 11 + v) % 10 <==> (s == 5 && t == 6) || (s == 6 && t == 5)
  {
    var s, t := OrM(10, (p + v) % 10), OrM(10, (p + w) % 10);
    Wraps10(p, v);
    Wraps10(p, w);
    Double11(s);
    Double11(t);
    Together10(s * 2 % 11 + w, t * 2 % 11 + v);
  }

  lemma Wraps10(p: nat, v: nat)
    requires 1 <= p <= 10 && v < 10
    ensures OrM(10, (p + v) % 10) == if p + v <= 10 then p + v else p + v - 10
  {
    Less10(p + v);
  }

  lemma Less10(n: nat)
    requires n < 20
    ensures n % 10 == if n < 10 then n else n - 10
  {
  }

  lemma Together10(x: nat, y: nat)
    requires x < 20 && y < 20
    ensures x % 10 == y % 10 <==> x == y || x == y + 10 || y == x + 10
  {
    Less10(x);
    Less10(y);
  }

  lemma Meets36(p: nat, v: nat, w: nat)
    requires 1 <= p <= 36 && v < 36 && w < 36 && v != w
    ensures
      var s, t := (p + v) % 36, (p + w) % 36;
      (OrM(36, s) * 2 % 37 + w) % 36 == (OrM(36, t) * 2 % 37 + v) % 36 <==> (s == 18 && t == 19) || (s == 19 && t == 18)
  {
    var s, t := OrM(36, (p + v) % 36), OrM(36, (p + w) % 36);
    Wraps36(p, v);
    Wraps36(p, w);
    Double37(s);
    Double37(t);
    Together36(s * 2 % 37 + w, t * 2 % 37 + v);
  }

  lemma Wraps36(p: nat, v: nat)
    requires 1 <= p <= 36 && v < 36
    ensures OrM(36, (p + v) % 36) == if p + v <= 36 then p + v else p + v - 36
  {
    Less36(p + v);
  }

  lemma Less36(n: nat)
    requires n < 72
    ensures n % 36 == if n < 36 then n else n - 36
  {
  }

  lemma Together36(x: nat, y: nat)
    requires x < 72 && y < 72
    ensures x % 36 == y % 36 <==> x == y || x == y + 36 || y == x + 36
  {
    Less36(x);
    Less36(y);
  }

  /** The exchange goes unnoticed at this place. */
  ghost predicate Missed(h: Hybrid, before: string, c: char, d: char, after: string) {
    && Over(h.Alphabet(), before) && Over(h.Alphabet(), after)
    && Over(IsAlnum, before + [c, d] + after) && Over(IsAlnum, before + [d, c] + after)
    && IsoValid(h.M(), before + [c, d] + after) && IsoValid(h.M(), before + [d, c] + after)
  }

  predicate NextTo(m: nat, v: nat, w: nat)
    requires m > 0
  {
    (v + 1) % m == w || (w + 1) % m == v
  }

  /** The pairs some place misses are those of neighbouring values, the last being next to 0. */
  lemma HybridMissedPairs(h: Hybrid, c: char, d: char)
    requires h.Alphabet()(c) && h.Alphabet()(d) && c != d
    ensures (exists before, after :: Missed(h, before, c, d, after)) <==> NextTo(h.M(), Value(c), Value(d))
  {
    hide Missed, NextTo, Run, IsoValid, OrM;
    if before, after :| Missed(h, before, c, d, after) {
      MissedAreNext(h, before, c, d, after);
    }
    if NextTo(h.M(), Value(c), Value(d)) {
      var x := MiddleFrom(h, c, d);
      var u := CharacterTo(h, h.First(), x);
      RunOne(h.Moves(), h.First(), u);
      var k := CharacterTo(h, Run(h.Moves(), h.First(), [u] + [c, d]), 1);
      MissedAfter(h, [u], c, d, k);
    }
  }

  lemma MissedAreNext(h: Hybrid, before: string, c: char, d: char, after: string)
    requires h.Alphabet()(c) && h.Alphabet()(d) && c != d && Missed(h, before, c, d, after)
    ensures NextTo(h.M(), Value(c), Value(d))
  {
    hide IsoValid, Run;
    HybridTransposition(h, before, c, d, after);
    var x := Run(h.Moves(), h.First(), before);
    hide OrM;
    if h.Mod11_10System? {
      Next10(OrM(10, x) * 2 % 11, Value(c), Value(d));
    } else {
      Next36(OrM(36, x) * 2 % 37, Value(c), Value(d));
    }
  }

  lemma Next10(p: nat, v: nat, w: nat)
    requires p < 11 && v < 10 && w < 10
    requires ((p + v) % 10 == 5 && (p + w) % 10 == 6) || ((p + v) % 10 == 6 && (p + w) % 10 == 5)
    ensures NextTo(10, v, w)
  {
    Less10(p + v);
    Less10(p + w);
    Less10(v + 1);
    Less10(w + 1);
  }

  lemma Next36(p: nat, v: nat, w: nat)
    requires p < 37 && v < 36 && w < 36
    requires ((p + v) % 36 == 18 && (p + w) % 36 == 19) || ((p + v) % 36 == 19 && (p + w) % 36 == 18)
    ensures NextTo(36, v, w)
  {
    Less36(p + v);
    Less36(p + w);
    Less36(v + 1);
    Less36(w + 1);
  }

  /** From some state the two lead to the middle states. */
  lemma MiddleFrom(h: Hybrid, c: char, d: char) returns (x: nat)
    requires h.Alphabet()(c) && h.Alphabet()(d) && NextTo(h.M(), Value(c), Value(d))
    ensures x < h.M() && Middle(h, h.Moves()(x, c), h.Moves()(x, d))
  {
    if h.Mod11_10System? {
      x := From10(Value(c), Value(d));
    } else {
      x := From36(Value(c), Value(d));
    }
  }

  lemma From10(v: nat, w: nat) returns (x: nat)
    requires v < 10 && w < 10 && NextTo(10, v, w)
    ensures x < 10
    ensures
      var s, t := HybridStep(10, x, v), HybridStep(10, x, w);
      (s == 5 && t == 6) || (s == 6 && t == 5)
  {
    hide HybridStep;
    x := Before10(if (v + 1) % 10 == w then v else w);
  }

  /** The state from which a value leads to the first middle state, and the next one to the second. */
  lemma Before10(v: nat) returns (x: nat)
    requires v < 10
    ensures x < 10 && HybridStep(10, x, v) == 5 && HybridStep(10, x, (v + 1) % 10) == 6
  {
    var y := if v < 5 then 5 - v else 15 - v;
    var z := if y % 2 == 0 then y / 2 else (y + 11) / 2;
    Double11(z);
    x := if z == 10 then 0 else z;
    Less10(v + 1);
    Less10(y + v);
    Less10(y + (v + 1) % 10);
  }

  lemma From36(v: nat, w: nat) returns (x: nat)
    requires v < 36 && w < 36 && NextTo(36, v, w)
    ensures x < 36
    ensures
      var s, t := HybridStep(36, x, v), HybridStep(36, x, w);
      (s == 18 && t == 19) || (s == 19 && t == 18)
  {
    hide HybridStep;
    x := Before36(if (v + 1) % 36 == w then v else w);
  }

  /** The state from which a value leads to the first middle state, and the next one to the second. */
  lemma Before36(v: nat) returns (x: nat)
    requires v < 36
    ensures x < 36 && HybridStep(36, x, v) == 18 && HybridStep(36, x, (v + 1) % 36) == 19
  {
    var y := if v < 18 then 18 - v else 54 - v;
    var z := if y % 2 == 0 then y / 2 else (y + 37) / 2;
    Double37(z);
    x := if z == 36 then 0 else z;
    Less36(v + 1);
    Less36(y + v);
    Less36(y + (v + 1) % 36);
  }

  lemma MissedAfter(h: Hybrid, before: string, c: char, d: char, k: char)
    requires Over(h.Alphabet(), before) && h.Alphabet()(c) && h.Alphabet()(d) && c != d && h.Alphabet()(k)
    requires h.Moves()(Run(h.Moves(), h.First(), before + [c, d]), k) == 1
    requires
      var x := Run(h.Moves(), h.First(), before);
      Middle(h, h.Moves()(x, c), h.Moves()(x, d))
    ensures Missed(h, before, c, d, [k])
  {
    hide Run, IsoValid, Middle, Step10, Step36;
    HybridTransposition(h, before, c, d, [k]);
    var one := before + [c, d] + [k];
    RunConcat(h.Moves(), h.First(), before + [c, d], [k]);
    RunOne(h.Moves(), Run(h.Moves(), h.First(), before + [c, d]), k);
    HybridRuns(h, one);
  }

  // --- Damm ---------------------------------------------------------------------------------

  function Pick(v: nat, a: nat, b: nat, c: nat, d: nat, e: nat, f: nat, g: nat, h: nat, i: nat, j: nat): nat {
    if v == 0 then a else if v == 1 then b else if v == 2 then c else if v == 3 then d else if v == 4 then e
    else if v == 5 then f else if v == 6 then g else if v == 7 then h else if v == 8 then i else j
  }

  /** The table: a row a state, a column a digit. */
  function Entry(x: nat, v: nat): nat {
    if x == 0 then Pick(v, 0, 3, 1, 7, 5, 9, 8, 6, 4, 2) else if x == 1 then Pick(v, 7, 0, 9, 2, 1, 5, 4, 8, 6, 3)
    else if x == 2 then Pick(v, 4, 2, 0, 6, 8, 7, 1, 3, 5, 9) else if x == 3 then Pick(v, 1, 7, 5, 0, 9, 8, 3, 4, 2, 6)
    else if x == 4 then Pick(v, 6, 1, 2, 3, 0, 4, 5, 9, 7, 8) else if x == 5 then Pick(v, 3, 6, 7, 4, 2, 0, 9, 5, 8, 1)
    else if x == 6 then Pick(v, 5, 8, 6, 9, 7, 2, 0, 1, 3, 4) else if x == 7 then Pick(v, 8, 9, 4, 5, 3, 6, 2, 0, 1, 7)
    else if x == 8 then Pick(v, 9, 4, 3, 8, 6, 1, 7, 2, 0, 5) else Pick(v, 2, 5, 8, 1, 4, 3, 6, 7, 9, 0)
  }

  /** The published table, row by row. */
  const DAMM_ROWS: seq<string> := ["0317598642", "7092154863", "4206871359", "1750983426", "6123045978",
                                   "3674209581", "5869720134", "8945362017", "9438617205", "2581436790"]

  lemma DammTable(x: nat, v: nat)
    requires x < 10 && v < 10
    ensures |DAMM_ROWS| == 10 && |DAMM_ROWS[x]| == 10 && Entry(x, v) < 10 && DAMM_ROWS[x][v] as nat == '0' as nat + Entry(x, v)
  {
    var row := DAMM_ROWS[x];
    match x {
      case 0 => assert row == "0317598642"; case 1 => assert row == "7092154863"; case 2 => assert row == "4206871359";
      case 3 => assert row == "1750983426"; case 4 => assert row == "6123045978"; case 5 => assert row == "3674209581";
      case 6 => assert row == "5869720134"; case 7 => assert row == "8945362017"; case 8 => assert row == "9438617205";
      case _ => assert row == "2581436790";
    }
  }

  function StepDamm(state: nat, c: char): nat {
    if IsDigit(c) then Entry(state, Value(c)) else state
  }

  /** `damm`. */
  method Damm(s: string) returns (ok: bool)
    requires Over(IsDigit, s)
    ensures ok <==> Run(StepDamm, 0, s) == 0
  {
    var interim := 0;
    for i := 0 to |s|
      invariant interim == Run(StepDamm, 0, s[..i])
    {
      assert s[..i + 1] == s[..i] + [s[i]];
      RunConcat(StepDamm, 0, s[..i], [s[i]]);
      RunOne(StepDamm, interim, s[i]);
      interim := Entry(interim, Value(s[i]));
    }
    assert s[..|s|] == s;
    ok := interim == 0;
  }

  lemma DammColumns(x: nat, y: nat, v: nat)
    requires x < 10 && v < 10 && y < 10 && Entry(x, v) == Entry(y, v)
    ensures x == y
  {
  }

  lemma DammPermutes()
    ensures Permutes(StepDamm, 10, IsDigit)
  {
    hide Entry;
    forall c: char, x: nat, y: nat | IsDigit(c) && x < 10 && y < 10 && StepDamm(x, c) == StepDamm(y, c)
      ensures x == y
    {
      DammColumns(x, y, Value(c));
    }
    forall c: char, x: nat | IsDigit(c) && x < 10
      ensures StepDamm(x, c) < 10
    {
      DammStays(x, Value(c));
    }
  }

  lemma DammStays(x: nat, v: nat)
    ensures Entry(x, v) < 10
  {
  }

  lemma DammRows(x: nat, v: nat, w: nat)
    requires x < 10 && v < w < 10
    ensures Entry(x, v) != Entry(x, w)
  {
    if x == 0 {
      assert Entry(0, v) != Entry(0, w);
    } else if x == 1 {
      assert Entry(1, v) != Entry(1, w);
    } else if x == 2 {
      assert Entry(2, v) != Entry(2, w);
    } else if x == 3 {
      assert Entry(3, v) != Entry(3, w);
    } else if x == 4 {
      assert Entry(4, v) != Entry(4, w);
    } else if x == 5 {
      assert Entry(5, v) != Entry(5, w);
    } else if x == 6 {
      assert Entry(6, v) != Entry(6, w);
    } else if x == 7 {
      assert Entry(7, v) != Entry(7, w);
    } else if x == 8 {
      assert Entry(8, v) != Entry(8, w);
    } else if x == 9 {
      assert Entry(9, v) != Entry(9, w);
    }
  }

  lemma AntiSymmetric01(x: nat, v: nat, w: nat)
    requires 0 <= x <= 1 && v < w < 10
    ensures Entry(Entry(x, v), w) != Entry(Entry(x, w), v)
  {
    if x == 0 {
      assert Entry(Entry(0, v), w) != Entry(Entry(0, w), v);
    } else if x == 1 {
      assert Entry(Entry(1, v), w) != Entry(Entry(1, w), v);
    }
  }

  lemma AntiSymmetric23(x: nat, v: nat, w: nat)
    requires 2 <= x <= 3 && v < w < 10
    ensures Entry(Entry(x, v), w) != Entry(Entry(x, w), v)
  {
    if x == 2 {
      assert Entry(Entry(2, v), w) != Entry(Entry(2, w), v);
    } else if x == 3 {
      assert Entry(Entry(3, v), w) != Entry(Entry(3, w), v);
    }
  }

  lemma AntiSymmetric45(x: nat, v: nat, w: nat)
    requires 4 <= x <= 5 && v < w < 10
    ensures Entry(Entry(x, v), w) != Entry(Entry(x, w), v)
  {
    if x == 4 {
      assert Entry(Entry(4, v), w) != Entry(Entry(4, w), v);
    } else if x == 5 {
      assert Entry(Entry(5, v), w) != Entry(Entry(5, w), v);
    }
  }

  lemma AntiSymmetric67(x: nat, v: nat, w: nat)
    requires 6 <= x <= 7 && v < w < 10
    ensures Entry(Entry(x, v), w) != Entry(Entry(x, w), v)
  {
    if x == 6 {
      assert Entry(Entry(6, v), w) != Entry(Entry(6, w), v);
    } else if x == 7 {
      assert Entry(Entry(7, v), w) != Entry(Entry(7, w), v);
    }
  }

  lemma AntiSymmetric89(x: nat, v: nat, w: nat)
    requires 8 <= x <= 9 && v < w < 10
    ensures Entry(Entry(x, v), w) != Entry(Entry(x, w), v)
  {
    if x == 8 {
      assert Entry(Entry(8, v), w) != Entry(Entry(8, w), v);
    } else if x == 9 {
      assert Entry(Entry(9, v), w) != Entry(Entry(9, w), v);
    }
  }

  /** The table is totally anti-symmetric: two unequal digits in either order lead to different states. */
  lemma DammAntiSymmetric(x: nat, v: nat, w: nat)
    requires x < 10 && v < 10 && w < 10 && v != w
    ensures Entry(x, v) != Entry(x, w) && Entry(Entry(x, v), w) != Entry(Entry(x, w), v)
  {
    hide Entry;
    var low, high := if v < w then v else w, if v < w then w else v;
    DammRows(x, low, high);
    if x < 2 {
      AntiSymmetric01(x, low, high);
    } else if x < 4 {
      AntiSymmetric23(x, low, high);
    } else if x < 6 {
      AntiSymmetric45(x, low, high);
    } else if x < 8 {
      AntiSymmetric67(x, low, high);
    } else {
      AntiSymmetric89(x, low, high);
    }
  }

  ghost predicate DammValid(s: string) {
    Over(IsDigit, s) && Run(StepDamm, 0, s) == 0
  }

  /** Every single digit replaced and every two unequal adjacent digits exchanged are detected, at any length. */
  lemma DammDetects(before: string, c: char, d: char, after: string)
    requires Over(IsDigit, before) && Over(IsDigit, after) && IsDigit(c) && IsDigit(d) && c != d
    ensures !(DammValid(before + [c] + after) && DammValid(before + [d] + after))
    ensures !(DammValid(before + [c, d] + after) && DammValid(before + [d, c] + after))
  {
    hide Entry, Run, Permutes;
    DammPermutes();
    ChangeShows(StepDamm, 10, IsDigit, 0, before, [c], [d], after);
    ChangeShows(StepDamm, 10, IsDigit, 0, before, [c, d], [d, c], after);
    var x := Run(StepDamm, 0, before);
    RunOne(StepDamm, x, c);
    RunOne(StepDamm, x, d);
    RunTwo(StepDamm, x, c, d);
    RunTwo(StepDamm, x, d, c);
    DammAntiSymmetric(x, Value(c), Value(d));
  }

  // --- Luhn, ISO/IEC 7812-1 Annex B ---------------------------------------------------------

  /** What the `i`-th digit from the right adds: every second one doubled, its digits added. */
  function LuhnTerm(c: char, i: nat): nat
    requires IsDigit(c)
  {
    var d := Value(c) * (if i % 2 == 1 then 2 else 1);
    if d > 9 then d - 9 else d
  }

  /** The digits' total, the last of them the `i`-th from the right. */
  function LuhnTotal(s: string, i: nat): nat
    requires Over(IsDigit, s)
    decreases |s|
  {
    if s == "" then 0 else LuhnTerm(s[|s| - 1], i) + LuhnTotal(s[..|s| - 1], i + 1)
  }

  /** `_luhn_digits`. */
  method LuhnDigits(s: string) returns (ok: bool)
    requires Over(IsDigit, s)
    ensures ok <==> LuhnTotal(s, 0) % 10 == 0
  {
    var total := 0;
    assert s[..|s| - 0] == s;
    for i := 0 to |s|
      invariant total + LuhnTotal(s[..|s| - i], i) == LuhnTotal(s, 0)
    {
      assert s[..|s| - i][..|s| - i - 1] == s[..|s| - i - 1];
      var d := Value(s[|s| - 1 - i]) * (if i % 2 == 1 then 2 else 1);
      total := total + if d > 9 then d - 9 else d;
    }
    assert s[..|s|] == s && s[..0] == "";
    ok := total % 10 == 0;
  }

  lemma {:induction false} LuhnConcat(a: string, b: string, i: nat)
    requires Over(IsDigit, a) && Over(IsDigit, b)
    ensures Over(IsDigit, a + b) && LuhnTotal(a + b, i) == LuhnTotal(b, i) + LuhnTotal(a, i + |b|)
    decreases |b|
  {
    if b == "" {
      assert a + b == a;
    } else {
      assert (a + b)[..|a + b| - 1] == a + b[..|b| - 1];
      LuhnConcat(a, b[..|b| - 1], i + 1);
    }
  }

  /** Replacing a digit by another is always detected. */
  lemma LuhnDetectsSubstitution(before: string, c: char, d: char, after: string)
    requires Over(IsDigit, before) && Over(IsDigit, after) && IsDigit(c) && IsDigit(d) && c != d
    ensures
      var one, other := before + [c] + after, before + [d] + after;
      Over(IsDigit, one) && Over(IsDigit, other) && LuhnTotal(one, 0) % 10 != LuhnTotal(other, 0) % 10
  {
    hide LuhnTotal, LuhnTerm;
    LuhnFramed(before, [c], after);
    LuhnFramed(before, [d], after);
    LuhnOne(c, |after|);
    LuhnOne(d, |after|);
    LuhnTerms(c, d, |after|);
    SameMod10(LuhnTotal(after, 0) + LuhnTotal(before, |after| + 1), LuhnTerm(c, |after|), LuhnTerm(d, |after|));
  }

  /** Two unequal adjacent digits that change places pass as before exactly when they are 0 and 9. */
  lemma LuhnTransposition(before: string, c: char, d: char, after: string)
    requires Over(IsDigit, before) && Over(IsDigit, after) && IsDigit(c) && IsDigit(d) && c != d
    ensures
      var one, other := before + [c, d] + after, before + [d, c] + after;
      Over(IsDigit, one) && Over(IsDigit, other)
      && (LuhnTotal(one, 0) % 10 == LuhnTotal(other, 0) % 10 <==> {c, d} == {'0', '9'})
  {
    hide LuhnTotal, LuhnTerm;
    LuhnFramed(before, [c, d], after);
    LuhnFramed(before, [d, c], after);
    var i := |after|;
    LuhnTwo(c, d, i);
    LuhnTwo(d, c, i);
    LuhnTerms(c, d, i);
    SameMod10(LuhnTotal(after, 0) + LuhnTotal(before, i + 2),
              LuhnTerm(d, i) + LuhnTerm(c, i + 1), LuhnTerm(c, i) + LuhnTerm(d, i + 1));
  }

  lemma LuhnFramed(before: string, inner: string, after: string)
    requires Over(IsDigit, before) && Over(IsDigit, inner) && Over(IsDigit, after)
    ensures Over(IsDigit, before + inner + after)
    ensures LuhnTotal(before + inner + after, 0) ==
            LuhnTotal(after, 0) + LuhnTotal(before, |after| + |inner|) + LuhnTotal(inner, |after|)
  {
    LuhnConcat(before + inner, after, 0);
    LuhnConcat(before, inner, |after|);
  }

  lemma LuhnTerms(c: char, d: char, i: nat)
    requires IsDigit(c) && IsDigit(d) && Value(c) < 10 && Value(d) < 10 && c != d
    ensures LuhnTerm(c, i) % 10 != LuhnTerm(d, i) % 10
    ensures (LuhnTerm(d, i) + LuhnTerm(c, i + 1)) % 10 == (LuhnTerm(c, i) + LuhnTerm(d, i + 1)) % 10 <==> {c, d} == {'0', '9'}
  {
    hide LuhnTerm, Doubled, Value;
    DigitValues(c, d);
    DoubledValues(Value(c), Value(d));
    LuhnTermIs(c, i);
    LuhnTermIs(d, i);
    LuhnTermIs(c, i + 1);
    LuhnTermIs(d, i + 1);
    NextParity(i);
    if i % 2 == 1 {
      assert LuhnTerm(c, i) == Doubled(Value(c)) && LuhnTerm(d, i) == Doubled(Value(d));
      assert LuhnTerm(c, i + 1) == Value(c) && LuhnTerm(d, i + 1) == Value(d);
    } else {
      assert LuhnTerm(c, i) == Value(c) && LuhnTerm(d, i) == Value(d);
      assert LuhnTerm(c, i + 1) == Doubled(Value(c)) && LuhnTerm(d, i + 1) == Doubled(Value(d));
    }
  }

  lemma NextParity(i: nat)
    ensures (i + 1) % 2 == 1 <==> i % 2 == 0
  {
  }

  function Doubled(v: nat): nat {
    if 2 * v > 9 then 2 * v - 9 else 2 * v
  }

  lemma LuhnTermIs(c: char, i: nat)
    requires IsDigit(c)
    ensures LuhnTerm(c, i) == if i % 2 == 1 then Doubled(Value(c)) else Value(c)
  {
  }

  lemma DigitValues(c: char, d: char)
    requires IsDigit(c) && IsDigit(d) && c != d
    ensures Value(c) != Value(d) && Value(c) < 10 && Value(d) < 10
    ensures {c, d} == {'0', '9'} <==> (Value(c) == 0 && Value(d) == 9) || (Value(c) == 9 && Value(d) == 0)
  {
    assert c in {c, d} && d in {c, d};
  }

  lemma DoubledValues(v: nat, w: nat)
    requires v < 10 && w < 10 && v != w
    ensures Doubled(v) % 10 != Doubled(w) % 10 && v % 10 != w % 10
    ensures (w + Doubled(v)) % 10 == (v + Doubled(w)) % 10 <==> (v == 0 && w == 9) || (v == 9 && w == 0)
    ensures (Doubled(w) + v) % 10 == (Doubled(v) + w) % 10 <==> (v == 0 && w == 9) || (v == 9 && w == 0)
  {
    DoubledIs(v);
    DoubledIs(w);
    hide Doubled;
    CloseUnits(v, w);
    CloseUnits(Doubled(v), Doubled(w));
    CloseUnits(w + Doubled(v), v + Doubled(w));
    CloseUnits(Doubled(w) + v, Doubled(v) + w);
  }

  lemma CloseUnits(a: int, b: int)
    requires -10 < a - b < 10
    ensures a % 10 == b % 10 <==> a == b
  {
  }

  /** Doubling a digit, less nine where it carries, moves it by itself, or by nine less. */
  lemma DoubledIs(v: nat)
    requires v < 10
    ensures Doubled(v) < 10 && Doubled(v) == if v < 5 then 2 * v else 2 * v - 9
  {
  }

  lemma SameMod10(base: int, a: int, b: int)
    ensures (base + a) % 10 == (base + b) % 10 <==> a % 10 == b % 10
  {
  }

  lemma LuhnOne(c: char, i: nat)
    requires IsDigit(c)
    ensures LuhnTotal([c], i) == LuhnTerm(c, i)
  {
    assert [c][..0] == "";
  }

  lemma LuhnTwo(c: char, d: char, i: nat)
    requires IsDigit(c) && IsDigit(d)
    ensures LuhnTotal([c, d], i) == LuhnTerm(d, i) + LuhnTerm(c, i + 1)
  {
    assert [c, d][..1] == [c];
    LuhnOne(c, i + 1);
  }

  // --- SEDOL --------------------------------------------------------------------------------

  function SedolWeight(i: nat): nat {
    match i case 0 => 1 case 1 => 3 case 2 => 1 case 3 => 7 case 4 => 3 case 5 => 9 case _ => 1
  }

  function SedolSum(s: string, n: nat): nat
    requires Over(IsAlnum, s) && n <= |s|
  {
    if n == 0 then 0 else SedolSum(s, n - 1) + Value(s[n - 1]) * SedolWeight(n - 1)
  }

  /** The sum, weight by weight. */
  lemma SedolSumIs(s: string)
    requires Over(IsAlnum, s) && |s| == 7
    ensures SedolSum(s, 7) == Value(s[0]) + 3 * Value(s[1]) + Value(s[2]) + 7 * Value(s[3]) + 3 * Value(s[4])
                              + 9 * Value(s[5]) + Value(s[6])
  {
    hide Value;
    assert SedolSum(s, 0) == 0;
    assert SedolSum(s, 1) == Value(s[0]);
    assert SedolSum(s, 2) == SedolSum(s, 1) + 3 * Value(s[1]);
    assert SedolSum(s, 3) == SedolSum(s, 2) + Value(s[2]);
    assert SedolSum(s, 4) == SedolSum(s, 3) + 7 * Value(s[3]);
    assert SedolSum(s, 5) == SedolSum(s, 4) + 3 * Value(s[4]);
    assert SedolSum(s, 6) == SedolSum(s, 5) + 9 * Value(s[5]);
  }

  /** `weighted_sum_1_3_1_7_3_9_1`. */
  predicate SedolValid(s: string)
    requires Over(IsAlnum, s)
  {
    |s| == 7 && IsDigit(s[6]) && SedolSum(s, 7) % 10 == 0
  }

  lemma {:induction false} SedolChanged(s: string, i: nat, c: char, n: nat)
    requires Over(IsAlnum, s) && IsAlnum(c) && i < |s| && n <= |s|
    ensures Over(IsAlnum, s[i := c])
    ensures SedolSum(s[i := c], n) - SedolSum(s, n) == if i < n then (Value(c) - Value(s[i])) * SedolWeight(i) else 0
  {
    if n > 0 {
      SedolChanged(s, i, c, n - 1);
      if i == n - 1 {
        SedolTerm(Value(c), Value(s[i]), SedolWeight(i));
      }
    }
  }

  lemma SedolTerm(v: int, w: int, k: int)
    ensures v * k - w * k == (v - w) * k
  {
  }

  /** One character replaced by another passes exactly when their values agree mod 10, as a digit and a letter may. */
  lemma SedolSubstitution(s: string, i: nat, c: char)
    requires Over(IsAlnum, s) && SedolValid(s) && i < 7 && IsAlnum(c) && (i == 6 ==> IsDigit(c))
    ensures Over(IsAlnum, s[i := c]) && (SedolValid(s[i := c]) <==> Value(c) % 10 == Value(s[i]) % 10)
  {
    hide SedolSum, SedolWeight, Value;
    SedolChanged(s, i, c, 7);
    var u: int := Value(c) - Value(s[i]);
    SedolUnits(u, i);
    SameUnits(SedolSum(s, 7), SedolSum(s[i := c], 7));
    SameUnits(Value(s[i]), Value(c));
  }

  lemma SameUnits(a: int, b: int)
    ensures a % 10 == b % 10 <==> (b - a) % 10 == 0
  {
  }

  lemma SedolUnits(u: int, i: nat)
    ensures (u * SedolWeight(i)) % 10 == 0 <==> u % 10 == 0
  {
    match i {
      case 1 => Threefold(u);
      case 3 => Sevenfold(u);
      case 4 => Threefold(u);
      case 5 => Ninefold(u);
      case _ =>
    }
  }

  lemma Threefold(u: int)
    ensures (3 * u) % 10 == 0 <==> u % 10 == 0
  {
  }

  lemma Sevenfold(u: int)
    ensures (7 * u) % 10 == 0 <==> u % 10 == 0
  {
  }

  lemma Ninefold(u: int)
    ensures (9 * u) % 10 == 0 <==> u % 10 == 0
  {
  }
}
