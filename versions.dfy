/** The version comparator of `compare_versions` (stirling_pdf_client/utils.py):
    every maximal run of ASCII digits is read as an integer, the two lists are
    compared position by position, and a missing position counts as 0. */
module Versions {
  import opened Common

  /** Length of the run of digits that starts `s`. */
  function DigitRunLength(s: string): (n: nat)
    ensures n <= |s|
    ensures AllDigits(s[..n])
    ensures n < |s| ==> !IsDigit(s[n])
  {
    if s == [] || !IsDigit(s[0]) then 0 else 1 + DigitRunLength(s[1..])
  }

  /** `[int(part) for part in re.findall(r'\d+', s)]`. */
  function NumericParts(s: string): seq<nat>
    decreases |s|
  {
    if s == [] then []
    else if !IsDigit(s[0]) then NumericParts(s[1..])
    else
      var n := DigitRunLength(s);
      [DigitsValue(s[..n])] + NumericParts(s[n..])
  }

  /** The component at position `i`, 0 beyond the end (the zero padding). */
  function PartAt(p: seq<nat>, i: nat): nat
  {
    if i < |p| then p[i] else 0
  }

  /** The components from position `i` on. */
  function Drop(p: seq<nat>, i: nat): (d: seq<nat>)
    ensures forall k: nat :: PartAt(d, k) == PartAt(p, i + k)
  {
    if i <= |p| then p[i..] else []
  }

  /** Comparison of two zero-padded component lists, first component first. */
  function CompareParts(a: seq<nat>, b: seq<nat>): (r: int)
    decreases |a| + |b|
  {
    if a == [] && b == [] then 0
    else if PartAt(a, 0) < PartAt(b, 0) then -1
    else if PartAt(a, 0) > PartAt(b, 0) then 1
    else CompareParts(Drop(a, 1), Drop(b, 1))
  }

  /** What `compare_versions(version1, version2)` returns. */
  function Compare(version1: string, version2: string): int
  {
    CompareParts(NumericParts(version1), NumericParts(version2))
  }

  /** `compare_versions`: the index loop over `range(max(len(v1_parts), len(v2_parts)))`
      with its early returns. */
  method CompareVersions(version1: string, version2: string) returns (r: int)
    ensures r == Compare(version1, version2)
    ensures r in {-1, 0, 1}
  {
    var v1Parts := NumericParts(version1);
    var v2Parts := NumericParts(version2);
    CompareRange(v1Parts, v2Parts);
    var n := if |v1Parts| > |v2Parts| then |v1Parts| else |v2Parts|;
    for i := 0 to n
      invariant CompareParts(v1Parts, v2Parts) == CompareParts(Drop(v1Parts, i), Drop(v2Parts, i))
    {
      var v1 := if i < |v1Parts| then v1Parts[i] else 0;
      var v2 := if i < |v2Parts| then v2Parts[i] else 0;
      CompareStep(v1Parts, v2Parts, i);
      if v1 < v2 {
        return -1;
      } else if v1 > v2 {
        return 1;
      }
    }
    ComparePastEnd(v1Parts, v2Parts, n);
    return 0;
  }

  /** One iteration of the loop: inside the longer list, the comparison
      from position `i` is decided at `i` or continues at `i + 1`. */
  lemma CompareStep(a: seq<nat>, b: seq<nat>, i: nat)
    requires i < |a| || i < |b|
    ensures CompareParts(Drop(a, i), Drop(b, i))
            == if PartAt(a, i) < PartAt(b, i) then -1
               else if PartAt(a, i) > PartAt(b, i) then 1
               else CompareParts(Drop(a, i + 1), Drop(b, i + 1))
  {
    assert Drop(Drop(a, i), 1) == Drop(a, i + 1);
    assert Drop(Drop(b, i), 1) == Drop(b, i + 1);
  }

  /** Past the end of both lists nothing is left to compare. */
  lemma ComparePastEnd(a: seq<nat>, b: seq<nat>, i: nat)
    requires |a| <= i && |b| <= i
    ensures CompareParts(Drop(a, i), Drop(b, i)) == 0
  {
  }

  function Sign(x: int, y: int): int
  {
    if x < y then -1 else if x > y then 1 else 0
  }

  /** Positions where the padded lists agree up to `k`, and differ at `k`. */
  predicate FirstDifference(a: seq<nat>, b: seq<nat>, k: nat)
  {
    PartAt(a, k) != PartAt(b, k) && forall j: nat :: j < k ==> PartAt(a, j) == PartAt(b, j)
  }

  lemma {:induction false} CompareRange(a: seq<nat>, b: seq<nat>)
    ensures CompareParts(a, b) in {-1, 0, 1}
    decreases |a| + |b|
  {
    if !(a == [] && b == []) && PartAt(a, 0) == PartAt(b, 0) {
      CompareRange(Drop(a, 1), Drop(b, 1));
    }
  }

  /** The comparison is 0 exactly when the zero-padded lists agree everywhere. */
  lemma {:induction false} CompareZeroIffEqual(a: seq<nat>, b: seq<nat>)
    ensures CompareParts(a, b) == 0 <==> forall i: nat :: PartAt(a, i) == PartAt(b, i)
    decreases |a| + |b|
  {
    if a == [] && b == [] {
    } else if PartAt(a, 0) != PartAt(b, 0) {
    } else {
      CompareZeroIffEqual(Drop(a, 1), Drop(b, 1));
      if forall i: nat :: PartAt(Drop(a, 1), i) == PartAt(Drop(b, 1), i) {
        forall i: nat ensures PartAt(a, i) == PartAt(b, i) {
          if i > 0 { assert PartAt(Drop(a, 1), i - 1) == PartAt(Drop(b, 1), i - 1); }
        }
      }
    }
  }

  /** A non-zero result is the sign of the first differing component. */
  lemma {:induction false} CompareIsFirstDifference(a: seq<nat>, b: seq<nat>, k: nat)
    requires FirstDifference(a, b, k)
    ensures CompareParts(a, b) == Sign(PartAt(a, k), PartAt(b, k))
    decreases k
  {
    if k > 0 {
      assert PartAt(a, 0) == PartAt(b, 0);
      forall j: nat | j < k - 1 ensures PartAt(Drop(a, 1), j) == PartAt(Drop(b, 1), j) {
        assert PartAt(a, j + 1) == PartAt(b, j + 1);
      }
      CompareIsFirstDifference(Drop(a, 1), Drop(b, 1), k - 1);
    }
  }

  /** compare(a, b) == -compare(b, a). */
  lemma {:induction false} CompareAntisymmetric(a: seq<nat>, b: seq<nat>)
    ensures CompareParts(a, b) == -CompareParts(b, a)
    decreases |a| + |b|
  {
    if !(a == [] && b == []) && PartAt(a, 0) == PartAt(b, 0) {
      CompareAntisymmetric(Drop(a, 1), Drop(b, 1));
    }
  }

  /** compare(a, a) == 0. */
  lemma {:induction false} CompareReflexive(a: seq<nat>)
    ensures CompareParts(a, a) == 0
    decreases |a|
  {
    if a != [] {
      CompareReflexive(Drop(a, 1));
    }
  }

  /** "Not older than" is transitive, so the gate is monotone in the server version. */
  lemma {:induction false} CompareTransitive(a: seq<nat>, b: seq<nat>, c: seq<nat>)
    requires CompareParts(a, b) <= 0 && CompareParts(b, c) <= 0
    ensures CompareParts(a, c) <= 0
    decreases |a| + |b| + |c|
  {
    if a == [] && b == [] && c == [] {
    } else if PartAt(a, 0) == PartAt(b, 0) && PartAt(b, 0) == PartAt(c, 0) {
      var a', b', c' := Drop(a, 1), Drop(b, 1), Drop(c, 1);
      if a == [] && b == [] {
        CompareZeroIffEqual(a, b);
        CompareZeroIffEqual(a', b');
      } else if b == [] && c == [] {
        CompareZeroIffEqual(b', c');
      } else if a == [] && c == [] {
        CompareReflexive(a');
      }
      CompareTransitive(a', b', c');
    }
  }

  /** Padding with trailing zeros never changes a comparison ("1.3" equals "1.3.0"). */
  lemma {:induction false} CompareIgnoresPadding(a: seq<nat>, a': seq<nat>, b: seq<nat>)
    requires forall i: nat :: PartAt(a, i) == PartAt(a', i)
    ensures CompareParts(a, b) == CompareParts(a', b)
    decreases |a| + |a'| + |b|
  {
    if a == [] && b == [] {
      CompareZeroIffEqual(a', b);
    } else if a' == [] && b == [] {
      CompareZeroIffEqual(a, b);
    } else if PartAt(a, 0) == PartAt(b, 0) {
      assert PartAt(a', 0) == PartAt(a, 0);
      forall i: nat ensures PartAt(Drop(a, 1), i) == PartAt(Drop(a', 1), i) {
        assert PartAt(a, i + 1) == PartAt(a', i + 1);
      }
      CompareIgnoresPadding(Drop(a, 1), Drop(a', 1), Drop(b, 1));
    } else {
      assert PartAt(a', 0) == PartAt(a, 0);
    }
  }

  /** A string without digits has no components, so it equals every all-zero version. */
  lemma NoDigitsEqualsZero(s: string, t: string)
    requires forall i :: 0 <= i < |s| ==> !IsDigit(s[i])
    requires forall x :: x in NumericParts(t) ==> x == 0
    ensures Compare(s, t) == 0
  {
    NoDigitsNoParts(s);
    var p := NumericParts(t);
    forall i: nat ensures PartAt([], i) == PartAt(p, i) {
      if i < |p| { assert p[i] in p; }
    }
    CompareZeroIffEqual([], p);
  }

  lemma {:induction false} NoDigitsNoParts(s: string)
    requires forall i :: 0 <= i < |s| ==> !IsDigit(s[i])
    ensures NumericParts(s) == []
  {
    if s != [] {
      NoDigitsNoParts(s[1..]);
    }
  }

  /** One digit followed by a non-digit contributes that digit's value. */
  lemma PartsSingleDigit(c: char, rest: string)
    requires IsDigit(c) && rest != [] && !IsDigit(rest[0])
    ensures NumericParts([c] + rest) == [(c - '0') as nat] + NumericParts(rest)
  {
    var s := [c] + rest;
    assert s[1..] == rest;
    assert DigitRunLength(s) == 1 + DigitRunLength(rest) == 1;
    assert s[..1] == [c] && [c][..0] == [];
    assert DigitsValue([c]) == 10 * DigitsValue([]) + (c - '0') as int;
  }

  lemma PartsLastDigit(c: char)
    requires IsDigit(c)
    ensures NumericParts([c]) == [(c - '0') as nat]
  {
    assert [c][..0] == [] && [c][..1] == [c] && [c][1..] == [];
    assert DigitRunLength([c]) == 1 + DigitRunLength([]);
    assert DigitsValue([c]) == 10 * DigitsValue([]) + (c - '0') as int;
  }

  /** A non-digit contributes nothing. */
  lemma PartsSkip(c: char, rest: string)
    requires !IsDigit(c)
    ensures NumericParts([c] + rest) == NumericParts(rest)
  {
    assert ([c] + rest)[1..] == rest;
  }

  /** The component lists of the versions used by the gate, as `x.y.z` strings. */
  lemma PartsOfTriple(x: char, y: char, z: char)
    requires IsDigit(x) && IsDigit(y) && IsDigit(z)
    ensures NumericParts([x, '.', y, '.', z]) == [(x - '0') as nat, (y - '0') as nat, (z - '0') as nat]
  {
    PartsLastDigit(z);
    PartsSkip('.', [z]);
    PartsSingleDigit(y, ['.', z]);
    PartsSkip('.', [y, '.', z]);
    PartsSingleDigit(x, ['.', y, '.', z]);
  }

  lemma PartsOfPair(x: char, y: char)
    requires IsDigit(x) && IsDigit(y)
    ensures NumericParts([x, '.', y]) == [(x - '0') as nat, (y - '0') as nat]
  {
    PartsLastDigit(y);
    PartsSkip('.', [y]);
    PartsSingleDigit(x, ['.', y]);
  }

  lemma PartsOfTwoDigits(x: char, y: char)
    requires IsDigit(x) && IsDigit(y)
    ensures NumericParts([x, y]) == [10 * (x - '0') as nat + (y - '0') as nat]
  {
    var s := [x, y];
    assert s[1..] == [y] && [y][1..] == [] && s[2..] == [];
    assert DigitRunLength([y]) == 1 + DigitRunLength([]);
    assert DigitRunLength(s) == 2 && s[..2] == s;
    assert s[..1] == [x] && [x][..0] == [];
    assert DigitsValue([x]) == 10 * DigitsValue([]) + (x - '0') as int;
    assert DigitsValue(s) == 10 * DigitsValue([x]) + (y - '0') as int;
  }

  lemma PartsOfTen()
    ensures NumericParts("1.3.10") == [1, 3, 10]
  {
    PartsOfTwoDigits('1', '0');
    PartsSkip('.', ['1', '0']);
    PartsSingleDigit('3', ['.', '1', '0']);
    PartsSkip('.', ['3', '.', '1', '0']);
    PartsSingleDigit('1', ['.', '3', '.', '1', '0']);
    assert "1.3.10" == ['1'] + ['.', '3', '.', '1', '0'];
  }

  lemma ShortEqualsPadded()
    ensures CompareParts([1, 3], [1, 3, 0]) == 0
  {
    assert Drop([1, 3], 1) == [3] && Drop([1, 3, 0], 1) == [3, 0];
    assert Drop([3], 1) == [] && Drop([3, 0], 1) == [0];
    assert Drop([], 1) == [] && Drop([0], 1) == [];
  }

  lemma CompareEqualExample()
    ensures Compare("1.3.2", "1.3.2") == 0
  {
    PartsOfTriple('1', '3', '2');
    CompareReflexive([1, 3, 2]);
  }

  lemma CompareTwoDigitExample()
    ensures Compare("1.3.10", "1.3.2") == 1
  {
    PartsOfTen();
    PartsOfTriple('1', '3', '2');
    CompareIsFirstDifference([1, 3, 10], [1, 3, 2], 2);
  }

  lemma CompareTrailingZeroExample()
    ensures Compare("1.3", "1.3.0") == 0
  {
    PartsOfPair('1', '3');
    PartsOfTriple('1', '3', '0');
    ShortEqualsPadded();
  }

  lemma CompareShorterGreaterExample()
    ensures Compare("2.0", "1.9.9") == 1
  {
    PartsOfPair('2', '0');
    PartsOfTriple('1', '9', '9');
    CompareIsFirstDifference([2, 0], [1, 9, 9], 0);
  }

  /** Four comparisons spelled out: equal versions, a two-digit component,
      a trailing zero, and a shorter but greater version. */
  lemma CompareExamples()
    ensures Compare("1.3.2", "1.3.2") == 0
    ensures Compare("1.3.10", "1.3.2") == 1
    ensures Compare("1.3", "1.3.0") == 0
    ensures Compare("2.0", "1.9.9") == 1
  {
    CompareEqualExample();
    CompareTwoDigitExample();
    CompareTrailingZeroExample();
    CompareShorterGreaterExample();
  }

  lemma GateBelowExample()
    ensures Compare("1.2.0", "1.3.2") == -1
  {
    PartsOfTriple('1', '3', '2');
    PartsOfTriple('1', '2', '0');
    CompareIsFirstDifference([1, 2, 0], [1, 3, 2], 1);
  }

  lemma GateAboveExample()
    ensures Compare("1.4.0", "1.3.2") == 1
  {
    PartsOfTriple('1', '3', '2');
    PartsOfTriple('1', '4', '0');
    CompareIsFirstDifference([1, 4, 0], [1, 3, 2], 1);
  }

  lemma GateZeroExample()
    ensures Compare("0.0.0", "1.3.2") == -1
  {
    PartsOfTriple('1', '3', '2');
    PartsOfTriple('0', '0', '0');
    CompareIsFirstDifference([0, 0, 0], [1, 3, 2], 0);
  }

  /** The comparisons against the minimum "1.3.2" that `get_load` declares. */
  lemma GateExamples()
    ensures Compare("1.2.0", "1.3.2") == -1
    ensures Compare("1.4.0", "1.3.2") == 1
    ensures Compare("0.0.0", "1.3.2") == -1
  {
    GateBelowExample();
    GateAboveExample();
    GateZeroExample();
  }
}
