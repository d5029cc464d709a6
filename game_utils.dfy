/** Constants and array helpers of the game (`game-utils.js`). */
module GameUtils {

  const DEFAULT_BOARD_SIZE: nat := 9
  const DEFAULT_RACK_SIZE: nat := 5

  /** A value drawn by `Math.random()`: a real in [0, 1). */
  type Unit = r: real | 0.0 <= r < 1.0

  lemma ScaleBelow(u: Unit, n: nat)
    requires n > 0
    ensures 0.0 <= u * n as real < n as real
  {
    assert (1.0 - u) * n as real > 0.0;
  }

  /** `Math.floor(u * n)`: a uniform index below `n`. */
  function RandomIndex(u: Unit, n: nat): (j: nat)
    requires n > 0
    ensures j < n
  {
    ScaleBelow(u, n);
    (u * n as real).Floor
  }

  /** One right cyclic shift, `result.unshift(result.pop())`: the last element moves to the front. */
  function ShiftRight<T>(s: seq<T>): (r: seq<T>)
    requires |s| > 0
    ensures |r| == |s|
  {
    [s[|s| - 1]] + s[..|s| - 1]
  }

  /** `times` right cyclic shifts of a non-empty sequence. */
  function RotateRight<T>(s: seq<T>, times: nat): (r: seq<T>)
    requires |s| > 0
    ensures |r| == |s|
  {
    if times == 0 then s else ShiftRight(RotateRight(s, times - 1))
  }

  lemma {:induction false} MulAtLeast(n: nat, k: nat)
    requires k >= 1
    ensures n * k >= n
    decreases k
  {
    if k > 1 {
      MulAtLeast(n, k - 1);
      assert n * k == n * (k - 1) + n;
    }
  }

  /** Euclidean division has a unique remainder. */
  lemma ModUnique(x: int, n: int, q: int, r: int)
    requires n > 0 && 0 <= r < n && x == n * q + r
    ensures x % n == r
  {
    var q', r' := x / n, x % n;
    assert x == n * q' + r';
    assert n * q - n * q' == r' - r;
    if q > q' {
      assert n * (q - q') == n * q - n * q';
      MulAtLeast(n, q - q');
    } else if q < q' {
      assert n * (q' - q) == n * q' - n * q;
      MulAtLeast(n, q' - q);
    }
  }

  lemma ModSucc(a: nat, n: nat)
    requires n > 0
    ensures (a % n + 1) % n == (a + 1) % n
  {
    var q, r := a / n, a % n;
    assert a == n * q + r;
    if r + 1 < n {
      ModUnique(a + 1, n, q, r + 1);
      ModUnique(r + 1, n, 0, r + 1);
    } else {
      assert a + 1 == n * (q + 1) + 0;
      ModUnique(a + 1, n, q + 1, 0);
      ModUnique(r + 1, n, 1, 0);
    }
  }

  /** One shift moves index `j` to `(j + 1) mod n`. */
  lemma ShiftRightAt<T>(s: seq<T>, j: nat)
    requires j < |s|
    ensures ShiftRight(s)[(j + 1) % |s|] == s[j]
  {
    if j + 1 < |s| {
      ModUnique(j + 1, |s|, 0, j + 1);
    } else {
      ModUnique(j + 1, |s|, 1, 0);
    }
  }

  /** Element `i` ends up at index `(i + times) mod n`. */
  lemma {:induction false} RotateRightAt<T>(s: seq<T>, times: nat, i: nat)
    requires i < |s|
    ensures RotateRight(s, times)[(i + times) % |s|] == s[i]
  {
    if times == 0 {
      ModUnique(i, |s|, 0, i);
    } else {
      var prev := RotateRight(s, times - 1);
      RotateRightAt(s, times - 1, i);
      var j := (i + times - 1) % |s|;
      assert prev[j] == s[i];
      ShiftRightAt(prev, j);
      ModSucc(i + times - 1, |s|);
      assert (j + 1) % |s| == (i + times) % |s|;
    }
  }

  lemma RotateRightAtAll<T>(s: seq<T>, times: nat)
    requires |s| > 0
    ensures forall i :: 0 <= i < |s| ==> RotateRight(s, times)[(i + times) % |s|] == s[i]
  {
    forall i | 0 <= i < |s| ensures RotateRight(s, times)[(i + times) % |s|] == s[i] {
      RotateRightAt(s, times, i);
    }
  }

  /** Rotating a four-sided tile four times gives back its sides. */
  lemma RotateFourIdentity<T>(s: seq<T>)
    requires |s| == 4
    ensures RotateRight(s, 4) == s
  {
    assert RotateRight(s, 1) == [s[3], s[0], s[1], s[2]];
    assert RotateRight(s, 2) == [s[2], s[3], s[0], s[1]];
    assert RotateRight(s, 3) == [s[1], s[2], s[3], s[0]];
  }

  /** Rotating by `a` and then by `b` is rotating by `a + b`. */
  lemma {:induction false} RotateRightCompose<T>(s: seq<T>, a: nat, b: nat)
    requires |s| > 0
    ensures RotateRight(RotateRight(s, a), b) == RotateRight(s, a + b)
  {
    if b > 0 {
      RotateRightCompose(s, a, b - 1);
    }
  }

  /** Four shifts of a four-element sequence are no shift at all. */
  lemma RotateRightPeriod<T>(s: seq<T>, times: nat)
    requires |s| == 4
    ensures RotateRight(s, times + 4) == RotateRight(s, times)
  {
    RotateRightCompose(s, 4, times);
    RotateFourIdentity(s);
  }

  /** A rotation is a permutation. */
  lemma {:induction false} RotateRightMultiset<T>(s: seq<T>, times: nat)
    requires |s| > 0
    ensures multiset(RotateRight(s, times)) == multiset(s)
  {
    if times > 0 {
      RotateRightMultiset(s, times - 1);
      var prev := RotateRight(s, times - 1);
      assert prev == prev[..|prev| - 1] + [prev[|prev| - 1]];
    }
  }

  /**
   * `rotateArray(arr, times)`: copies `arr` and performs `times` right shifts on the copy;
   * the argument is a value, so it is unchanged.
   */
  method RotateArray<T>(arr: seq<T>, times: nat) returns (result: seq<T>)
    requires |arr| > 0
    ensures result == RotateRight(arr, times)
    ensures |result| == |arr| && multiset(result) == multiset(arr)
    ensures forall i :: 0 <= i < |arr| ==> result[(i + times) % |arr|] == arr[i]
  {
    result := arr;
    var i := 0;
    while i < times
      invariant 0 <= i <= times
      invariant result == RotateRight(arr, i)
    {
      result := [result[|result| - 1]] + result[..|result| - 1];
      i := i + 1;
    }
    RotateRightAtAll(arr, times);
    RotateRightMultiset(arr, times);
  }

  /**
   * `shuffleArray`: Fisher-Yates in place, the `i`-th swap partner drawn as
   * `Math.floor(draw(i) * (i + 1))`; returns the same array.
   */
  method ShuffleArray<T>(a: array<T>, draw: nat -> Unit) returns (r: array<T>)
    modifies a
    ensures r == a
    ensures multiset(a[..]) == multiset(old(a[..]))
  {
    var i := a.Length - 1;
    while i > 0
      invariant -1 <= i < a.Length || (a.Length == 0 && i == -1)
      invariant multiset(a[..]) == multiset(old(a[..]))
    {
      var j := RandomIndex(draw(i), i + 1);
      a[i], a[j] := a[j], a[i];
      i := i - 1;
    }
    r := a;
  }

  /** The keys of `colors`, in declaration order. */
  const ColorKeys: seq<string> :=
    ["Blank", "Purple", "Blue", "Green", "Red", "Cyan", "Orange", "Pink", "Yellow"]

  /** The CSS value of each colour key. */
  const Colors: map<string, string> := map[
    "Blank" := "#333333", "Purple" := "#a200ff", "Blue" := "#008bda", "Green" := "#1f9100",
    "Red" := "#df0000", "Cyan" := "#00b0c0", "Orange" := "#ff9018", "Pink" := "#ff64ee",
    "Yellow" := "#ffde00"
  ]

  /** `keys.filter(k => k !== 'Blank')`, keeping the order. */
  function WithoutBlank(keys: seq<string>): (r: seq<string>)
    ensures forall k :: k in r <==> k in keys && k != "Blank"
    ensures |r| <= |keys|
  {
    if keys == [] then []
    else (if keys[0] == "Blank" then [] else [keys[0]]) + WithoutBlank(keys[1..])
  }

  /** `colorNames`: the non-Blank colour names in declaration order. */
  const ColorNames: seq<string> := ["Purple", "Blue", "Green", "Red", "Cyan", "Orange", "Pink", "Yellow"]

  /** `colorNames` is `colors`' keys without Blank, in declaration order. */
  lemma ColorNamesAreNonBlankKeys()
    ensures WithoutBlank(ColorKeys) == ColorNames
  {
    assert ColorKeys == ["Blank"] + ColorNames;
    assert ColorKeys[1..] == ColorNames;
    assert "Blank" !in ColorNames;
    WithoutBlankKeeps(ColorNames);
  }

  /** Without a Blank key, filtering keeps every key. */
  lemma {:induction false} WithoutBlankKeeps(keys: seq<string>)
    requires "Blank" !in keys
    ensures WithoutBlank(keys) == keys
  {
    if keys != [] {
      assert keys[0] != "Blank" && "Blank" !in keys[1..];
      WithoutBlankKeeps(keys[1..]);
    }
  }

  /** Every colour name has a CSS value. */
  lemma ColorNamesHaveValues()
    ensures forall c :: c in ColorNames ==> c in Colors
  {
    forall c | c in ColorNames ensures c in Colors {
      var i :| 0 <= i < |ColorNames| && ColorNames[i] == c;
      assert ColorNames[i] == ColorKeys[i + 1];
    }
  }

  /** `array.slice(0, end)` with JavaScript's treatment of a negative end. */
  function SliceTo<T>(s: seq<T>, end: int): (r: seq<T>)
    ensures end >= 0 ==> r == s[..if end < |s| then end else |s|]
    ensures end < 0 ==> r == s[..if |s| + end > 0 then |s| + end else 0]
  {
    var stop := if end >= 0 then (if end < |s| then end else |s|)
                else (if |s| + end > 0 then |s| + end else 0);
    s[..stop]
  }

  /** `updateActiveShapes(count)`: the first `count` colour names (at most eight). */
  function UpdateActiveShapes(count: int): (r: seq<string>)
    ensures count >= 0 ==> |r| == (if count < 8 then count else 8)
    ensures count < 0 ==> |r| == (if count > -8 then 8 + count else 0)
    ensures |r| <= |ColorNames| && r == ColorNames[..|r|]
    ensures "Blank" !in r
  {
    SliceTo(ColorNames, count)
  }
}
