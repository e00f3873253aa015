/** Strings compared by code point, as Python compares them, and ASCII lower case. */
module Text {

  datatype Option<+T> = None | Some(value: T)

  function Sign(n: int): int {
    if n < 0 then -1 else if n > 0 then 1 else 0
  }

  /** Decides by the first key unless it ties. */
  function Then(first: int, second: int): int {
    if first != 0 then first else second
  }

  function Compare(a: string, b: string): int {
    if a == "" then (if b == "" then 0 else -1)
    else if b == "" then 1
    else if a[0] != b[0] then (if a[0] < b[0] then -1 else 1)
    else Compare(a[1..], b[1..])
  }

  lemma {:induction false} CompareZero(a: string, b: string)
    ensures Compare(a, b) == 0 <==> a == b
  {
    if a != "" && b != "" && a[0] == b[0] {
      CompareZero(a[1..], b[1..]);
      assert a == [a[0]] + a[1..] && b == [b[0]] + b[1..];
    }
  }

  lemma {:induction false} CompareFlip(a: string, b: string)
    ensures Compare(b, a) == -Compare(a, b)
    ensures -1 <= Compare(a, b) <= 1
  {
    if a != "" && b != "" && a[0] == b[0] {
      CompareFlip(a[1..], b[1..]);
    }
  }

  lemma {:induction false} CompareTransitive(a: string, b: string, c: string)
    requires Compare(a, b) <= 0 && Compare(b, c) <= 0
    ensures Compare(a, c) <= 0
  {
    if a != "" && b != "" && c != "" && a[0] == b[0] == c[0] {
      CompareTransitive(a[1..], b[1..], c[1..]);
    }
  }

  /** The order of strings: one is a proper prefix of the other, or has the smaller character where they first differ. */
  lemma {:induction false} CompareExactly(a: string, b: string)
    ensures Compare(a, b) < 0 <==> exists n :: 0 <= n <= |a| && n < |b| && a[..n] == b[..n] && (n == |a| || a[n] < b[n])
    ensures Compare(a, b) == 0 <==> a == b
  {
    CompareZero(a, b);
    if a == "" {
      assert b != "" ==> a[..0] == b[..0];
    } else if b != "" && a[0] == b[0] {
      var c, d := a[1..], b[1..];
      CompareExactly(c, d);
      if n :| 0 <= n <= |c| && n < |d| && c[..n] == d[..n] && (n == |c| || c[n] < d[n]) {
        assert a[..n + 1] == [a[0]] + c[..n] && b[..n + 1] == [b[0]] + d[..n];
        assert n + 1 == |a| || a[n + 1] < b[n + 1];
      }
      if n :| 0 <= n <= |a| && n < |b| && a[..n] == b[..n] && (n == |a| || a[n] < b[n]) {
        assert n > 0;
        assert c[..n - 1] == a[..n][1..] && d[..n - 1] == b[..n][1..];
      }
    } else if b != "" {
      assert a[..0] == b[..0];
      forall n | 0 < n <= |a| && n < |b| ensures a[..n] != b[..n] {
        assert a[..n][0] != b[..n][0];
      }
    }
  }

  function LowerChar(c: char): char {
    if 'A' <= c <= 'Z' then ((c as int) + 32) as char else c
  }

  function Lower(s: string): (r: string)
    ensures |r| == |s|
  {
    seq(|s|, i requires 0 <= i < |s| => LowerChar(s[i]))
  }

  predicate IdChar(c: char) {
    'a' <= c <= 'z' || 'A' <= c <= 'Z' || '0' <= c <= '9' || c == '_' || c == '-'
  }

  predicate HexChar(c: char) {
    'a' <= c <= 'f' || '0' <= c <= '9'
  }

  /** `[a-f0-9]{32}` */
  predicate Hex32(s: string) {
    |s| == 32 && forall i :: 0 <= i < |s| ==> HexChar(s[i])
  }
}
