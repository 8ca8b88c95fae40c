// String helpers shared by the models (ASCII white space, decimal numerals).
module Strings {

  predicate IsSpace(c: char) {
    c in {' ', '\t', '\n', '\r', '\U{0B}', '\U{0C}'}
  }

  // The first position from `from` on that holds no white space.
  function SkipSpace(s: string, from: nat): (i: nat)
    requires from <= |s|
    ensures from <= i <= |s| && forall k :: from <= k < i ==> IsSpace(s[k])
    ensures i < |s| ==> !IsSpace(s[i])
    decreases |s| - from
  {
    if from < |s| && IsSpace(s[from]) then SkipSpace(s, from + 1) else from
  }

  // Where the white space at the end of s[..to] begins.
  function SkipSpaceBack(s: string, to: nat): (i: nat)
    requires to <= |s|
    ensures i <= to && forall k :: i <= k < to ==> IsSpace(s[k])
    ensures 0 < i ==> !IsSpace(s[i - 1])
  {
    if 0 < to && IsSpace(s[to - 1]) then SkipSpaceBack(s, to - 1) else to
  }

  function Trim(s: string): (r: string)
    ensures r != [] ==> !IsSpace(r[0]) && !IsSpace(r[|r| - 1])
  {
    var first, last := SkipSpace(s, 0), SkipSpaceBack(s, |s|);
    if first < last then s[first..last] else []
  }

  lemma TrimKeeps(s: string)
    requires s != [] && !IsSpace(s[0]) && !IsSpace(s[|s| - 1])
    ensures Trim(s) == s
  {
  }

  lemma TrimShortens(s: string)
    ensures |Trim(s)| <= |s| && (|Trim(s)| == |s| ==> Trim(s) == s)
  {
  }

  // What strings.TrimSpace reduces to nothing.
  predicate Blank(s: string) {
    Trim(s) == ""
  }

  const DIGITS := ['0', '1', '2', '3', '4', '5', '6', '7', '8', '9']

  function Digits(n: nat): (r: string)
    ensures r != []
  {
    (if n < 10 then [] else Digits(n / 10)) + [DIGITS[n % 10]]
  }

  function Value(r: string): nat {
    if r == [] then 0
    else 10 * Value(r[..|r| - 1]) + (if '0' <= r[|r| - 1] <= '9' then (r[|r| - 1] - '0') as nat else 0)
  }

  // Different numbers are written differently: the numeral can be read back.
  lemma {:induction false} DigitsReadBack(n: nat)
    ensures Value(Digits(n)) == n
  {
    var r := Digits(n);
    assert (DIGITS[n % 10] - '0') as nat == n % 10;
    if n >= 10 {
      DigitsReadBack(n / 10);
      assert r[..|r| - 1] == Digits(n / 10);
    }
  }
}
