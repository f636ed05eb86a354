/** The pricing engine: the game-mode classifier, the combination counter that scales
    "combo" stakes, the per-row total, and the local date format. */
module Helpers {
  import opened Wrappers
  import opened SeqOps
  import opened Digits

  // ---------------------------------------------------------------------------
  // Game-mode labels

  const Pick3: string := "Pick 3"
  const Win4: string := "Win 4"
  const Pulito: string := "Pulito"
  const RdQuiniela: string := "RD-Quiniela"
  const Pale: string := "Palé"
  const PaleRd: string := "Pale-RD"
  /** The sentinel for an empty or unrecognised bet number. */
  const Unset: string := "-"

  /** The closed set of labels the classifier can produce. */
  const ModeLabels: set<string> := {Pick3, Win4, Pulito, RdQuiniela, Pale, PaleRd, Unset}

  /** The labels that total straight + box only. */
  const TwoDigitModes: set<string> := {PaleRd, Pale, RdQuiniela, Pulito}

  // ---------------------------------------------------------------------------
  // Track dialects

  /** Substrings that mark a USA track name. */
  const UsaMarkers: seq<string> :=
    ["New York", "Georgia", "New Jersey", "Florida", "Connecticut", "Pensilvania", "Brooklyn", "Front"]

  /** Substrings that mark a Santo Domingo track name. */
  const SdMarkers: seq<string> :=
    ["Real", "Gana mas", "Loteka", "Nacional", "Quiniela Pale", "Primera", "Suerte", "Lotería", "Lotedom", "Panama"]

  /** `s.includes(sub)`: `sub` occurs in `s` as a contiguous piece. */
  function Contains(s: string, sub: string): bool
  {
    sub <= s || (|s| > 0 && Contains(s[1..], sub))
  }

  /** `sub` occurs in `s` at offset `i`. */
  predicate OccursAt(s: string, sub: string, i: nat) {
    i + |sub| <= |s| && s[i..i + |sub|] == sub
  }

  /** `Contains` finds exactly the offsets at which `sub` occurs. */
  lemma {:induction false} ContainsIff(s: string, sub: string)
    ensures Contains(s, sub) <==> exists i: nat :: OccursAt(s, sub, i)
  {
    if sub <= s {
      assert OccursAt(s, sub, 0);
    } else if |s| > 0 {
      ContainsIff(s[1..], sub);
      if Contains(s[1..], sub) {
        var i: nat :| OccursAt(s[1..], sub, i);
        assert s[i + 1..i + 1 + |sub|] == s[1..][i..i + |sub|];
        assert OccursAt(s, sub, i + 1);
      }
      if exists i: nat :: OccursAt(s, sub, i) {
        var i: nat :| OccursAt(s, sub, i);
        if i > 0 {
          assert s[1..][i - 1..i - 1 + |sub|] == s[i..i + |sub|];
          assert OccursAt(s[1..], sub, i - 1);
        }
      }
    }
  }

  /** A piece with a character that `s` lacks does not occur in `s`. */
  lemma {:induction false} AbsentChar(s: string, sub: string, c: char)
    requires c in sub && c !in s
    ensures !Contains(s, sub)
  {
    if |s| > 0 {
      assert c !in s[1..] by {
        forall k | 0 <= k < |s[1..]| ensures s[1..][k] != c {
          assert s[1..][k] == s[k + 1];
        }
      }
      AbsentChar(s[1..], sub, c);
    }
  }

  /** The track name contains one of the markers. */
  predicate MentionsAny(t: string, markers: seq<string>) {
    exists m :: m in markers && Contains(t, m)
  }

  /** Some selected track is a USA track. The classifier computes this flag and never
      uses it. */
  predicate IsUsa(tracks: seq<string>) {
    exists t :: t in tracks && MentionsAny(t, UsaMarkers)
  }

  /** Some selected track is a Santo Domingo track. */
  predicate IsSd(tracks: seq<string>) {
    exists t :: t in tracks && MentionsAny(t, SdMarkers)
  }

  // ---------------------------------------------------------------------------
  // Bet-number cleaning

  /** `betNumber.replace(/[^0-9-]/g, '')`: keeps digits and dashes, in order. */
  function CleanBet(s: string): (r: string)
    ensures forall i :: 0 <= i < |r| ==> IsDigit(r[i]) || r[i] == '-'
    ensures |r| <= |s|
  {
    if s == [] then []
    else (if IsDigit(s[0]) || s[0] == '-' then [s[0]] else []) + CleanBet(s[1..])
  }

  /** Cleaning keeps every digit and dash of the input, each as often as it occurs, and
      drops every other character. */
  lemma {:induction false} CleanBetCounts(s: string)
    ensures forall c :: IsDigit(c) || c == '-' ==> multiset(CleanBet(s))[c] == multiset(s)[c]
    ensures forall c :: !(IsDigit(c) || c == '-') ==> multiset(CleanBet(s))[c] == 0
  {
    if s != [] {
      CleanBetCounts(s[1..]);
      assert s == [s[0]] + s[1..];
    }
  }

  /** Cleaning works character by character, so the kept characters stay in order. */
  lemma {:induction false} CleanBetAppend(a: string, b: string)
    ensures CleanBet(a + b) == CleanBet(a) + CleanBet(b)
  {
    if a == [] {
      assert a + b == b;
    } else {
      var head := if IsDigit(a[0]) || a[0] == '-' then [a[0]] else [];
      assert (a + b)[0] == a[0] && (a + b)[1..] == a[1..] + b;
      assert CleanBet(a + b) == head + CleanBet(a[1..] + b);
      CleanBetAppend(a[1..], b);
      assert CleanBet(a) == head + CleanBet(a[1..]);
    }
  }

  /** `betNumber.replace(/[^0-9]/g, '')`: keeps the digits, in order. */
  function DigitsOnly(s: string): (r: string)
    ensures AllDigits(r)
    ensures |r| <= |s|
  {
    if s == [] then []
    else (if IsDigit(s[0]) then [s[0]] else []) + DigitsOnly(s[1..])
  }

  /** The digit filter keeps every digit of the input, each as often as it occurs, and
      drops every other character. */
  lemma {:induction false} DigitsOnlyCounts(s: string)
    ensures forall c :: IsDigit(c) ==> multiset(DigitsOnly(s))[c] == multiset(s)[c]
    ensures forall c :: !IsDigit(c) ==> multiset(DigitsOnly(s))[c] == 0
  {
    if s != [] {
      DigitsOnlyCounts(s[1..]);
      assert s == [s[0]] + s[1..];
    }
  }

  /** The digit filter works character by character, so the digits stay in order. */
  lemma {:induction false} DigitsOnlyAppend(a: string, b: string)
    ensures DigitsOnly(a + b) == DigitsOnly(a) + DigitsOnly(b)
  {
    if a == [] {
      assert a + b == b;
    } else {
      var head := if IsDigit(a[0]) then [a[0]] else [];
      assert (a + b)[0] == a[0] && (a + b)[1..] == a[1..] + b;
      assert DigitsOnly(a + b) == head + DigitsOnly(a[1..] + b);
      DigitsOnlyAppend(a[1..], b);
      assert DigitsOnly(a) == head + DigitsOnly(a[1..]);
    }
  }

  /** A string of digits and dashes is its own cleaned form. */
  lemma {:induction false} CleanBetKeeps(s: string)
    requires forall i :: 0 <= i < |s| ==> IsDigit(s[i]) || s[i] == '-'
    ensures CleanBet(s) == s
  {
    if s != [] {
      CleanBetKeeps(s[1..]);
      assert s == [s[0]] + s[1..];
    }
  }

  /** A string of digits is its own digit string. */
  lemma {:induction false} DigitsOnlyKeeps(s: string)
    requires AllDigits(s)
    ensures DigitsOnly(s) == s
  {
    if s != [] {
      DigitsOnlyKeeps(s[1..]);
      assert s == [s[0]] + s[1..];
    }
  }

  /** The `^\d{2}-\d{2}$` shape: two digits, a dash, two digits. */
  predicate IsPaleShape(s: string) {
    |s| == 5 && IsDigit(s[0]) && IsDigit(s[1]) && s[2] == '-' && IsDigit(s[3]) && IsDigit(s[4])
  }

  /** Dropping the dashes of the cleaned bet leaves exactly its digits. */
  lemma {:induction false} CleanWithoutDashes(s: string)
    ensures RemoveAll(CleanBet(s), '-') == DigitsOnly(s)
  {
    if s != [] {
      var head := if IsDigit(s[0]) || s[0] == '-' then [s[0]] else [];
      assert CleanBet(s) == head + CleanBet(s[1..]);
      RemoveAllAppend(head, CleanBet(s[1..]), '-');
      CleanWithoutDashes(s[1..]);
    }
  }

  /** A bet whose cleaned form is `DD-DD` has four digits. */
  lemma PaleShapeDigits(s: string)
    requires IsPaleShape(CleanBet(s))
    ensures |DigitsOnly(s)| == 4
  {
    var c := CleanBet(s);
    CleanWithoutDashes(s);
    assert c == [c[0], c[1], '-', c[3], c[4]];
    OneDash(c[0], c[1], c[3], c[4]);
  }

  lemma OneDash(a: char, b: char, d: char, e: char)
    requires IsDigit(a) && IsDigit(b) && IsDigit(d) && IsDigit(e)
    ensures multiset([a, b, '-', d, e])['-'] == 1
  {
  }

  // ---------------------------------------------------------------------------
  // Classifier

  /** The game mode of a bet number under the selected tracks. The Santo Domingo
      dialect wins whenever any selected track belongs to it. */
  function DetermineGameMode(betNumber: string, selectedTracks: seq<string>): (r: string)
    ensures r in ModeLabels
  {
    if betNumber == [] then Unset
    else
      var isSd := IsSd(selectedTracks);
      var clean := CleanBet(betNumber);
      if IsPaleShape(clean) then (if isSd then PaleRd else Pale)
      else
        var length := |RemoveAll(clean, '-')|;
        if length == 2 then (if isSd then RdQuiniela else Pulito)
        else if length == 3 then Pick3
        else if length == 4 then Win4
        else Unset
  }

  /** An empty bet number is unset, whatever the tracks. */
  lemma EmptyBetIsUnset(tracks: seq<string>)
    ensures DetermineGameMode("", tracks) == Unset
  {
  }

  /** Each label is produced for exactly one kind of bet, stated on the digits of the bet
      and the Santo Domingo flag alone. */
  lemma ModeCharacterization(bet: string, tracks: seq<string>)
    ensures DetermineGameMode(bet, tracks) == PaleRd <==> IsPaleShape(CleanBet(bet)) && IsSd(tracks)
    ensures DetermineGameMode(bet, tracks) == Pale <==> IsPaleShape(CleanBet(bet)) && !IsSd(tracks)
    ensures DetermineGameMode(bet, tracks) == RdQuiniela <==> |DigitsOnly(bet)| == 2 && IsSd(tracks)
    ensures DetermineGameMode(bet, tracks) == Pulito <==> |DigitsOnly(bet)| == 2 && !IsSd(tracks)
    ensures DetermineGameMode(bet, tracks) == Pick3 <==> |DigitsOnly(bet)| == 3
    ensures DetermineGameMode(bet, tracks) == Win4 <==> |DigitsOnly(bet)| == 4 && !IsPaleShape(CleanBet(bet))
    ensures DetermineGameMode(bet, tracks) == Unset <==> |DigitsOnly(bet)| !in {2, 3, 4}
  {
    CleanWithoutDashes(bet);
    if IsPaleShape(CleanBet(bet)) {
      PaleShapeDigits(bet);
    }
    if bet == [] {
      assert DigitsOnly(bet) == [];
    }
  }

  /** A bet of two, three or four plain digits classifies by its length alone, the
      two-digit case by the Santo Domingo flag. */
  lemma DigitBetClassifies(bet: string, tracks: seq<string>)
    requires AllDigits(bet) && 2 <= |bet| <= 4
    ensures DetermineGameMode(bet, tracks)
         == if |bet| == 2 then (if IsSd(tracks) then RdQuiniela else Pulito)
            else if |bet| == 3 then Pick3 else Win4
  {
    CleanBetKeeps(bet);
    DigitsOnlyKeeps(bet);
    RemoveAllAbsent(bet, '-');
  }

  /** A bet already in `DD-DD` form is a Palé, or a Pale-RD under a Santo Domingo
      selection. */
  lemma PaleBetClassifies(bet: string, tracks: seq<string>)
    requires IsPaleShape(bet)
    ensures DetermineGameMode(bet, tracks) == if IsSd(tracks) then PaleRd else Pale
  {
    CleanBetKeeps(bet);
  }

  /** The tracks matter only through the Santo Domingo flag; in particular the USA flag
      plays no part. */
  lemma ModeDependsOnlyOnSd(bet: string, t1: seq<string>, t2: seq<string>)
    requires IsSd(t1) == IsSd(t2)
    ensures DetermineGameMode(bet, t1) == DetermineGameMode(bet, t2)
  {
  }

  /** Three- and four-digit bets classify the same under every track selection. */
  lemma PickAndWinIgnoreTracks(bet: string, t1: seq<string>, t2: seq<string>)
    requires DetermineGameMode(bet, t1) in {Pick3, Win4}
    ensures DetermineGameMode(bet, t2) == DetermineGameMode(bet, t1)
  {
    ModeCharacterization(bet, t1);
    ModeCharacterization(bet, t2);
  }

  // ---------------------------------------------------------------------------
  // Combination counter

  /** `factorial` inside `calcCombos`: 1 for n <= 1. */
  function Factorial(n: nat): (r: nat)
    ensures r >= 1
  {
    if n <= 1 then 1 else n * Factorial(n - 1)
  }

  /** The binomial coefficient C(a + b, a), by Pascal's rule. */
  function Binomial(a: nat, b: nat): (r: nat)
    ensures r >= 1
  {
    if a == 0 || b == 0 then 1 else Binomial(a - 1, b) + Binomial(a, b - 1)
  }

  lemma FactorialStep(n: nat)
    requires n >= 1
    ensures Factorial(n) == n * Factorial(n - 1)
  {
  }

  lemma PascalAlgebra(a: int, b: int, fa1: int, fb1: int, fn: int, b1: int, b2: int)
    requires fn == fa1 * (b * fb1) * b1
    requires fn == (a * fa1) * fb1 * b2
    ensures (a * fa1) * (b * fb1) * (b1 + b2) == (a + b) * fn
  {
    calc {
      (a * fa1) * (b * fb1) * (b1 + b2);
      a * (fa1 * (b * fb1) * b1) + b * ((a * fa1) * fb1 * b2);
      a * fn + b * fn;
      (a + b) * fn;
    }
  }

  /** (a + b)! = a! * b! * C(a + b, a). */
  lemma {:induction false} FactorialSplit(a: nat, b: nat)
    ensures Factorial(a + b) == Factorial(a) * Factorial(b) * Binomial(a, b)
    decreases a + b
  {
    if a != 0 && b != 0 {
      FactorialSplit(a - 1, b);
      FactorialSplit(a, b - 1);
      FactorialStep(a);
      FactorialStep(b);
      FactorialStep(a + b);
      PascalAlgebra(a, b, Factorial(a - 1), Factorial(b - 1), Factorial(a + b - 1),
                    Binomial(a - 1, b), Binomial(a, b - 1));
    }
  }

  /** The product, over the distinct characters of `s`, of the factorial of each
      character's number of occurrences: the `denom` of `calcCombos`. */
  function Denominator(s: string): (d: nat)
    ensures d >= 1
    decreases |s|
  {
    if s == [] then 1
    else Factorial(Count(s, s[0])) * Denominator(RemoveAll(s, s[0]))
  }

  /** The number of distinct orderings of the characters of `s`, counted by placing the
      copies of the first character among all positions and ordering the rest:
      C(|s|, count of s[0]) * Combos(rest). */
  function Combos(s: string): (r: nat)
    ensures r >= 1
    decreases |s|
  {
    if s == [] then 1
    else
      var rest := RemoveAll(s, s[0]);
      var b, k := Binomial(Count(s, s[0]), |rest|), Combos(rest);
      MulAtLeast(k, b);
      b * k
  }

  lemma {:induction false} RemoveAllCommute(s: string, a: char, b: char)
    ensures RemoveAll(RemoveAll(s, a), b) == RemoveAll(RemoveAll(s, b), a)
  {
    if s != [] {
      RemoveAllCommute(s[1..], a, b);
    }
  }

  /** The denominator can be split off at any character of `s`, not only the first. */
  lemma {:induction false} DenominatorSplit(s: string, c: char)
    requires c in s
    ensures Denominator(s) == Factorial(Count(s, c)) * Denominator(RemoveAll(s, c))
    decreases |s|
  {
    var a := s[0];
    if a != c {
      var r1 := RemoveAll(s, a);
      var r2 := RemoveAll(s, c);
      assert multiset(r1)[c] == multiset(s)[c];
      DenominatorSplit(r1, c);
      assert r2 == [a] + RemoveAll(s[1..], c) by {
        assert s == [a] + s[1..];
      }
      assert r2[0] == a;
      assert Count(r2, a) == Count(s, a) by {
        assert multiset(r2)[a] == multiset(s)[a];
      }
      assert Count(r1, c) == Count(s, c);
      RemoveAllCommute(s, a, c);
      SwapAlgebra(Factorial(Count(s, a)), Factorial(Count(s, c)), Denominator(RemoveAll(r1, c)));
    }
  }

  lemma SwapAlgebra(x: int, y: int, z: int)
    ensures x * (y * z) == y * (x * z)
  {
  }

  /** The denominator depends only on the multiset of characters. */
  lemma {:induction false} DenominatorPermutation(s: string, t: string)
    requires multiset(s) == multiset(t)
    ensures Denominator(s) == Denominator(t)
    decreases |s|
  {
    if s == [] {
      assert |t| == |multiset(t)| == 0;
    } else {
      var c := s[0];
      assert c in multiset(t);
      DenominatorSplit(t, c);
      assert multiset(RemoveAll(s, c)) == multiset(RemoveAll(t, c));
      DenominatorPermutation(RemoveAll(s, c), RemoveAll(t, c));
    }
  }

  /** The multinomial identity: Combos(s) * (product of count(c)!) == |s|!. */
  lemma {:induction false} CombosTimesDenominator(s: string)
    ensures Combos(s) * Denominator(s) == Factorial(|s|)
    decreases |s|
  {
    if s != [] {
      var a := Count(s, s[0]);
      var rest := RemoveAll(s, s[0]);
      var m := |rest|;
      assert |s| == a + m;
      CombosTimesDenominator(rest);
      FactorialSplit(a, m);
      var fs, fa, fr := Factorial(a + m), Factorial(a), Factorial(m);
      var b, k := Binomial(a, m), Combos(rest);
      var dr, ds, c := Denominator(rest), Denominator(s), Combos(s);
      assert fs == fa * fr * b;
      assert ds == fa * dr;
      assert fr == k * dr;
      assert c == b * k;
      RegroupAlgebra(fs, fa, fr, dr, ds, k, b, c);
    }
  }

  lemma RegroupAlgebra(fs: int, fa: int, fr: int, dr: int, ds: int, k: int, b: int, c: int)
    requires fs == fa * fr * b && fr == k * dr && ds == fa * dr && c == b * k
    ensures c * ds == fs
  {
  }

  /** `calcCombos`' formula |s|! / denom is exact and equals the count of orderings,
      which lies between 1 and |s|!. */
  lemma CombosExact(s: string)
    ensures Factorial(|s|) / Denominator(s) == Combos(s)
    ensures 1 <= Combos(s) <= Factorial(|s|)
  {
    CombosTimesDenominator(s);
    ExactQuotient(Factorial(|s|), Denominator(s), Combos(s));
  }

  /** n == d * k with d, k >= 1: dividing n by d gives back k, and k is at most n. */
  lemma ExactQuotient(n: int, d: int, k: int)
    requires d >= 1 && k >= 1 && n == k * d
    ensures n / d == k && k <= n
  {
    var q, r := n / d, n % d;
    assert n == d * q + r && 0 <= r < d;
    assert d * (k - q) == r;
    MulSign(d, k - q);
    MulSign(k, d);
  }

  /** Multiplying by d >= 1 keeps a non-zero factor at least d away from zero. */
  lemma MulSign(d: int, m: int)
    requires d >= 1
    ensures m >= 1 ==> d * m >= d
    ensures m <= -1 ==> d * m <= -d
  {
    if m >= 1 {
      MulAtLeast(d, m);
    } else if m <= -1 {
      MulAtLeast(d, -m);
      assert d * m == -(d * -m);
    }
  }

  lemma MulAtLeast(d: nat, m: nat)
    requires m >= 1
    ensures d * m >= d
  {
  }

  /** The count does not change when the characters are reordered. */
  lemma CombosPermutation(s: string, t: string)
    requires multiset(s) == multiset(t)
    ensures Combos(s) == Combos(t)
  {
    DenominatorPermutation(s, t);
    assert |s| == |multiset(s)| == |t|;
    CombosTimesDenominator(s);
    CombosTimesDenominator(t);
    CancelFactor(Combos(s), Combos(t), Denominator(s));
  }

  lemma CancelFactor(a: int, b: int, d: int)
    requires d >= 1 && a * d == b * d
    ensures a == b
  {
    assert d * (a - b) == a * d - b * d;
    MulSign(d, a - b);
  }

  /** With all characters distinct, every ordering counts: |s|!. */
  lemma CombosDistinct(s: string)
    requires Distinct(s)
    ensures Denominator(s) == 1 && Combos(s) == Factorial(|s|)
  {
    DenominatorDistinct(s);
    CombosTimesDenominator(s);
  }

  lemma {:induction false} DenominatorDistinct(s: string)
    requires Distinct(s)
    ensures Denominator(s) == 1
    decreases |s|
  {
    if s != [] {
      var t := s[1..];
      assert s == [s[0]] + t;
      assert s[0] !in t by {
        forall k | 0 <= k < |t| ensures t[k] != s[0] {
          assert t[k] == s[k + 1];
        }
      }
      assert Count(s, s[0]) == 1;
      RemoveAllAbsent(t, s[0]);
      assert RemoveAll(s, s[0]) == t;
      assert Distinct(t) by {
        forall i, j | 0 <= i < j < |t| ensures t[i] != t[j] {
          assert t[i] == s[i + 1] && t[j] == s[j + 1];
        }
      }
      DenominatorDistinct(t);
    }
  }

  /** With a single repeated character there is one ordering. */
  lemma CombosAllSame(s: string)
    requires s != [] && forall i :: 0 <= i < |s| ==> s[i] == s[0]
    ensures Combos(s) == 1
  {
    assert s[0] in s;
    assert Count(s, s[0]) == |s| by {
      assert multiset(s) == multiset{} [s[0] := |s|] by {
        var m := multiset{} [s[0] := |s|];
        assert forall x :: x != s[0] ==> x !in s;
        SameCharMultiset(s);
      }
    }
    assert RemoveAll(s, s[0]) == [];
  }

  lemma {:induction false} SameCharMultiset(s: string)
    requires s != [] && forall i :: 0 <= i < |s| ==> s[i] == s[0]
    ensures multiset(s) == multiset{} [s[0] := |s|]
    decreases |s|
  {
    if |s| > 1 {
      var t := s[1..];
      assert s == [s[0]] + t;
      SameCharMultiset(t);
      assert t[0] == s[0];
    }
  }

  // Small instances of the count: "111" has 1 ordering, "112" has 3, "123" has 6,
  // "1234" has 24 and the empty string 1.

  lemma CombosExampleSame(s: string)
    requires s == "111"
    ensures Combos(s) == 1
  {
    CombosAllSame(s);
  }

  lemma CombosExamplePair(s: string)
    requires s == "112"
    ensures Combos(s) == 3
  {
    assert s == ['1', '1', '2'];
    CombosPair('1', '2');
  }

  lemma CombosExampleThree(s: string)
    requires s == "123"
    ensures Combos(s) == 6
  {
    assert s == ['1', '2', '3'];
    assert Distinct(s);
    CombosDistinct(s);
    FactorialSmall();
  }

  lemma CombosExampleFour(s: string)
    requires s == "1234"
    ensures Combos(s) == 24
  {
    assert s == ['1', '2', '3', '4'];
    assert Distinct(s);
    CombosDistinct(s);
    FactorialSmall();
  }

  lemma FactorialSmall()
    ensures Factorial(3) == 6 && Factorial(4) == 24
  {
    assert Factorial(2) == 2;
  }

  lemma CombosExampleEmpty(s: string)
    requires s == ""
    ensures Combos(s) == 1
  {
  }

  /** A digit doubled beside a different one: C(3, 2) = 3 orderings. */
  lemma CombosPair(x: char, y: char)
    requires x != y
    ensures Combos([x, x, y]) == 3
  {
    var s := [x, x, y];
    assert Count(s, x) == 2 by {
      assert multiset(s) == multiset{x, x, y};
    }
    assert RemoveAll(s, x) == [y] by {
      assert s == [x] + [x] + [y];
      RemoveAllAppend([x] + [x], [y], x);
      RemoveAllAppend([x], [x], x);
    }
    assert Combos([y]) == 1 by {
      assert RemoveAll([y], y) == [];
    }
    assert Binomial(2, 1) == 3;
  }

  /** Characters of `s` that belong to `keys`, in order. */
  ghost function Keep(s: string, keys: set<char>): (r: string)
    ensures forall c :: c in keys ==> Count(r, c) == Count(s, c)
    ensures forall c :: c !in keys ==> c !in r
  {
    if s == [] then [] else (if s[0] in keys then [s[0]] else []) + Keep(s[1..], keys)
  }

  lemma {:induction false} KeepRemove(s: string, keys: set<char>, k: char)
    ensures RemoveAll(Keep(s, keys), k) == Keep(s, keys - {k})
  {
    if s != [] {
      var head := if s[0] in keys then [s[0]] else [];
      RemoveAllAppend(head, Keep(s[1..], keys), k);
      KeepRemove(s[1..], keys, k);
    }
  }

  lemma {:induction false} KeepEverything(s: string, keys: set<char>)
    requires forall i :: 0 <= i < |s| ==> s[i] in keys
    ensures Keep(s, keys) == s
  {
    if s != [] {
      KeepEverything(s[1..], keys);
    }
  }

  lemma Assoc(x: int, y: int, z: int)
    ensures x * (y * z) == (x * y) * z
  {
  }

  /** Appending one character adds one to its own count and leaves the others. */
  lemma CountSnoc(t: string, c: char, x: char)
    ensures Count(t + [c], x) == Count(t, x) + (if x == c then 1 else 0)
  {
    assert multiset(t + [c]) == multiset(t) + multiset{c};
  }

  /** Folding one more key k into the product: its factorial times the rest. */
  lemma DenominatorStep(s: string, keys: set<char>, k: char)
    requires k in keys && k in s
    ensures Denominator(Keep(s, keys)) == Factorial(Count(s, k)) * Denominator(Keep(s, keys - {k}))
  {
    var kept := Keep(s, keys);
    assert Count(kept, k) == Count(s, k) > 0;
    DenominatorSplit(kept, k);
    KeepRemove(s, keys, k);
  }

  lemma KeepNothing(s: string)
    ensures Keep(s, {}) == []
  {
  }

  /** The first loop of `calcCombos`: the frequency table of the characters of `s`. */
  method CountFrequencies(s: string) returns (freq: map<char, nat>)
    ensures forall c :: c in freq <==> c in s
    ensures forall c :: c in freq ==> freq[c] == Count(s, c)
  {
    freq := map[];
    var i := 0;
    while i < |s|
      invariant 0 <= i <= |s|
      invariant forall c :: c in freq <==> c in s[..i]
      invariant forall c :: c in freq ==> freq[c] == Count(s[..i], c)
    {
      var c := s[i];
      assert s[..i + 1] == s[..i] + [c];
      forall x ensures Count(s[..i + 1], x) == Count(s[..i], x) + (if x == c then 1 else 0) {
        CountSnoc(s[..i], c, x);
      }
      freq := freq[c := (if c in freq then freq[c] else 0) + 1];
      i := i + 1;
    }
    assert s[..i] == s;
  }

  /** `calcCombos`: builds the frequency table, multiplies the factorials of the counts
      into `denom` key by key, and divides |s|! by it. */
  method CalcCombos(s: string) returns (r: nat)
    ensures r == Combos(s)
  {
    var freq := CountFrequencies(s);
    var denom := 1;
    var keys := freq.Keys;
    KeepEverything(s, keys);
    while keys != {}
      invariant keys <= freq.Keys
      invariant denom * Denominator(Keep(s, keys)) == Denominator(s)
      decreases keys
    {
      var k :| k in keys;
      var f, rest := Factorial(freq[k]), Denominator(Keep(s, keys - {k}));
      DenominatorStep(s, keys, k);
      Assoc(denom, f, rest);
      denom := denom * f;
      keys := keys - {k};
    }
    KeepNothing(s);
    var q := Factorial(|s|) / denom;
    CombosExact(s);
    r := q;
  }

  // ---------------------------------------------------------------------------
  // Row total

  /** `x ?? 0`: an absent amount counts as zero. */
  function AmountOrZero(a: Option<real>): real {
    a.GetOr(0.0)
  }

  /** c * k, as the sum of k copies of c; kept additive so that totals stay in linear
      arithmetic for the verifier. */
  function Scale(c: real, k: nat): (r: real)
  {
    if k == 0 then 0.0 else Scale(c, k - 1) + c
  }

  lemma {:induction false} ScaleIsProduct(c: real, k: nat)
    ensures Scale(c, k) == c * (k as real)
  {
    if k > 0 {
      ScaleIsProduct(c, k - 1);
      assert c * (k as real) == c * ((k - 1) as real) + c;
    }
  }

  /** Scaling distributes over a sum. */
  lemma {:induction false} ScaleAdd(x: real, y: real, k: nat)
    ensures Scale(x + y, k) == Scale(x, k) + Scale(y, k)
  {
    if k > 0 {
      ScaleAdd(x, y, k - 1);
    }
  }

  /** A non-negative stake scaled by any count stays non-negative. */
  lemma {:induction false} ScaleNonNegative(c: real, k: nat)
    requires 0.0 <= c
    ensures 0.0 <= Scale(c, k)
  {
    if k > 0 {
      ScaleNonNegative(c, k - 1);
    }
  }

  /** The total of one row: zero for an empty bet or an unset mode; straight + box for
      the two-digit and dash modes; straight + box + combo scaled by the number of
      orderings of the bet's digits for Pick 3 and Win 4; straight + box + combo for any
      other label. */
  function RowTotal(betNumber: string, gameMode: string,
                    st: Option<real>, bx: Option<real>, co: Option<real>): real
  {
    if betNumber == [] || gameMode == Unset then 0.0
    else
      var s, b, c := AmountOrZero(st), AmountOrZero(bx), AmountOrZero(co);
      if gameMode in [PaleRd, Pale, RdQuiniela, Pulito] then s + b
      else if gameMode == Win4 || gameMode == Pick3 then
        s + b + Scale(c, Combos(DigitsOnly(betNumber)))
      else s + b + c
  }

  /** Adding non-negative amounts never yields a negative total. */
  predicate NonNegative(a: Option<real>) {
    a.Some? ==> a.value >= 0.0
  }

  /** An empty bet or an unset mode totals zero, whatever the amounts. */
  lemma RowTotalUnset(bet: string, mode: string, st: Option<real>, bx: Option<real>, co: Option<real>)
    requires bet == "" || mode == Unset
    ensures RowTotal(bet, mode, st, bx, co) == 0.0
  {
  }

  /** The two-digit and dash modes ignore the combo amount. */
  lemma RowTotalIgnoresCombo(bet: string, mode: string, st: Option<real>, bx: Option<real>,
                             co1: Option<real>, co2: Option<real>)
    requires bet != "" && mode in TwoDigitModes
    ensures RowTotal(bet, mode, st, bx, co1) == AmountOrZero(st) + AmountOrZero(bx)
    ensures RowTotal(bet, mode, st, bx, co1) == RowTotal(bet, mode, st, bx, co2)
  {
  }

  /** Reordering the digits of a Pick 3 or Win 4 bet does not change its total. */
  lemma RowTotalReorderedDigits(b1: string, b2: string, mode: string,
                                st: Option<real>, bx: Option<real>, co: Option<real>)
    requires b1 != "" && b2 != ""
    requires multiset(DigitsOnly(b1)) == multiset(DigitsOnly(b2))
    ensures RowTotal(b1, mode, st, bx, co) == RowTotal(b2, mode, st, bx, co)
  {
    CombosPermutation(DigitsOnly(b1), DigitsOnly(b2));
    assert Combos(DigitsOnly(b1)) == Combos(DigitsOnly(b2));
  }

  /** A label outside the closed set totals the three amounts unscaled. */
  lemma RowTotalFallback(bet: string, mode: string, st: Option<real>, bx: Option<real>, co: Option<real>)
    requires bet != "" && mode !in ModeLabels
    ensures RowTotal(bet, mode, st, bx, co) == AmountOrZero(st) + AmountOrZero(bx) + AmountOrZero(co)
  {
  }

  /** With non-negative amounts every row total is non-negative. */
  lemma RowTotalNonNegative(bet: string, mode: string, st: Option<real>, bx: Option<real>, co: Option<real>)
    requires NonNegative(st) && NonNegative(bx) && NonNegative(co)
    ensures RowTotal(bet, mode, st, bx, co) >= 0.0
  {
    if bet != "" && (mode == Win4 || mode == Pick3) {
      ScaleNonNegative(AmountOrZero(co), Combos(DigitsOnly(bet)));
    }
  }

  /** The worked examples of the pricing rules: a two-digit bet ignores its combo stake,
      an empty bet costs nothing. */
  lemma RowTotalExamples()
    ensures RowTotal("12", Pulito, Some(5.0), Some(3.0), Some(999.0)) == 8.0
    ensures RowTotal("", Pick3, Some(5.0), Some(5.0), Some(5.0)) == 0.0
  {
  }

  /** For Pick 3 and Win 4, once the number of orderings k of the digits is known the
      total is straight + box + k * combo. */
  lemma RowTotalCounted(bet: string, mode: string, st: Option<real>, bx: Option<real>, co: Option<real>, k: nat)
    requires bet != "" && mode in {Pick3, Win4} && Combos(DigitsOnly(bet)) == k
    ensures RowTotal(bet, mode, st, bx, co) == AmountOrZero(st) + AmountOrZero(bx) + (k as real) * AmountOrZero(co)
  {
    ScaleIsProduct(AmountOrZero(co), k);
  }

  /** Three different digits: the combo stake covers all 3! = 6 orderings. */
  lemma RowTotalThreeDistinct(bet: string, mode: string, st: Option<real>, bx: Option<real>, co: Option<real>)
    requires bet != "" && mode in {Pick3, Win4} && |DigitsOnly(bet)| == 3 && Distinct(DigitsOnly(bet))
    ensures RowTotal(bet, mode, st, bx, co) == AmountOrZero(st) + AmountOrZero(bx) + 6.0 * AmountOrZero(co)
  {
    DistinctDigitsCombos(bet);
    RowTotalCounted(bet, mode, st, bx, co, 6);
  }

  /** Four different digits: the combo stake covers all 4! = 24 orderings. */
  lemma RowTotalFourDistinct(bet: string, mode: string, st: Option<real>, bx: Option<real>, co: Option<real>)
    requires bet != "" && mode in {Pick3, Win4} && |DigitsOnly(bet)| == 4 && Distinct(DigitsOnly(bet))
    ensures RowTotal(bet, mode, st, bx, co) == AmountOrZero(st) + AmountOrZero(bx) + 24.0 * AmountOrZero(co)
  {
    DistinctDigitsCombos(bet);
    RowTotalCounted(bet, mode, st, bx, co, 24);
  }

  lemma DistinctDigitsCombos(bet: string)
    requires |DigitsOnly(bet)| in {3, 4} && Distinct(DigitsOnly(bet))
    ensures Combos(DigitsOnly(bet)) == if |DigitsOnly(bet)| == 3 then 6 else 24
  {
    CombosDistinct(DigitsOnly(bet));
    assert Factorial(3) == 6;
    assert Factorial(4) == 24;
  }

  /** Pick 3 with one repeated digit (digits forming the multiset {x, x, y}): three
      orderings. */
  lemma RowTotalOnePair(bet: string, st: Option<real>, bx: Option<real>, co: Option<real>, x: char, y: char)
    requires bet != "" && x != y && multiset(DigitsOnly(bet)) == multiset([x, x, y])
    ensures RowTotal(bet, Pick3, st, bx, co) == AmountOrZero(st) + AmountOrZero(bx) + 3.0 * AmountOrZero(co)
  {
    PairedDigitsCombos(bet, x, y);
    RowTotalCounted(bet, Pick3, st, bx, co, 3);
  }

  lemma PairedDigitsCombos(bet: string, x: char, y: char)
    requires x != y && multiset(DigitsOnly(bet)) == multiset([x, x, y])
    ensures Combos(DigitsOnly(bet)) == 3
  {
    CombosPermutation(DigitsOnly(bet), [x, x, y]);
    CombosPair(x, y);
  }

  // ---------------------------------------------------------------------------
  // Local date

  /** `getTodayDateString` for a given local date: the year, then the 1-based month and
      the day zero-padded to two digits, joined by dashes. `monthIndex` is 0-based, as
      `getMonth()` returns it. */
  function TodayDateString(year: nat, monthIndex: nat, day: nat): string
  {
    NatToString(year) + "-" + PadStart(NatToString(monthIndex + 1), 2, '0') + "-"
      + PadStart(NatToString(day), 2, '0')
  }

  /** For a four-digit year the string is "YYYY-MM-DD", and each field reads back as the
      date it came from. */
  lemma TodayDateStringFields(year: nat, monthIndex: nat, day: nat)
    requires 1000 <= year <= 9999 && monthIndex < 12 && 1 <= day <= 31
    ensures var r := TodayDateString(year, monthIndex, day);
            && |r| == 10 && r[4] == '-' && r[7] == '-'
            && AllDigits(r[..4]) && AllDigits(r[5..7]) && AllDigits(r[8..])
            && ValueOf(r[..4]) == year && ValueOf(r[5..7]) == monthIndex + 1 && ValueOf(r[8..]) == day
  {
    var y := NatToString(year);
    assert Pow10(4) == 10000 && Pow10(2) == 100;
    PaddedRoundTrip(year, 4);
    NatToStringExactWidth(year, 4);
    PaddedRoundTrip(monthIndex + 1, 2);
    PaddedRoundTrip(day, 2);
    var r := TodayDateString(year, monthIndex, day);
    assert r[..4] == y;
    assert r[5..7] == PadStart(NatToString(monthIndex + 1), 2, '0');
    assert r[8..] == PadStart(NatToString(day), 2, '0');
  }

  /** Two different dates never format alike (for four-digit years). */
  lemma TodayDateStringInjective(y1: nat, m1: nat, d1: nat, y2: nat, m2: nat, d2: nat)
    requires 1000 <= y1 <= 9999 && m1 < 12 && 1 <= d1 <= 31
    requires 1000 <= y2 <= 9999 && m2 < 12 && 1 <= d2 <= 31
    requires TodayDateString(y1, m1, d1) == TodayDateString(y2, m2, d2)
    ensures y1 == y2 && m1 == m2 && d1 == d2
  {
    TodayDateStringFields(y1, m1, d1);
    TodayDateStringFields(y2, m2, d2);
  }
}
