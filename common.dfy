/** Values shared by every part of the model: optional values and board positions. */
module Common {

  /** A value that may be missing (JavaScript's `null`/`undefined`). */
  datatype Option<T> = None | Some(value: T)

  /** A board position; `x` is the column and `y` the row, as in `boardState[y][x]`. */
  datatype Pos = Pos(x: int, y: int)

  /** No two entries of `s` are equal. */
  predicate Distinct<T(==)>(s: seq<T>) {
    forall i, j :: 0 <= i < j < |s| ==> s[i] != s[j]
  }

  /** Two duplicate-free sequences with no element in common concatenate to one. */
  lemma DistinctConcat<T>(a: seq<T>, c: seq<T>)
    requires Distinct(a) && Distinct(c) && forall x :: x in a ==> x !in c
    ensures Distinct(a + c)
  {
    forall i, j | 0 <= i < j < |a + c| ensures (a + c)[i] != (a + c)[j] {
      if i < |a| && j >= |a| {
        assert (a + c)[i] in a && (a + c)[j] in c;
      } else if i >= |a| {
        assert (a + c)[i] == c[i - |a|] && (a + c)[j] == c[j - |a|];
      }
    }
  }

  /** JavaScript truthiness of a string: only the empty string is falsy. */
  predicate TruthyString(s: Option<string>) {
    s.Some? && s.value != ""
  }

  /** `s || d` for an optional string. */
  function StringOr(s: Option<string>, d: string): (r: string)
    ensures TruthyString(s) ==> r == s.value
    ensures !TruthyString(s) ==> r == d
  {
    if TruthyString(s) then s.value else d
  }

  /** `n || d` for an optional number: 0 and a missing value are falsy. */
  function NumberOr(n: Option<int>, d: int): (r: int)
    ensures n.Some? && n.value != 0 ==> r == n.value
    ensures n.None? || n.value == 0 ==> r == d
  {
    if n.Some? && n.value != 0 then n.value else d
  }
}
