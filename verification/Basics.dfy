/** Small shared vocabulary: optional values, results, decimal numerals,
    bounded windows and the byte-wise order of Rust strings. */
module Basics {

  datatype Option<+T> = None | Some(value: T)

  datatype Result<+T, +E> = Ok(value: T) | Err(error: E)

  newtype Byte = x: int | 0 <= x < 256

  function Min(a: int, b: int): int {
    if a <= b then a else b
  }

  // ----- decimal numerals, as `{}` prints an unsigned integer -----

  predicate IsDigit(c: char) {
    '0' <= c <= '9'
  }

  predicate AllDigits(s: string) {
    forall i :: 0 <= i < |s| ==> IsDigit(s[i])
  }

  function Decimal(n: nat): (s: string)
    ensures |s| > 0 && AllDigits(s)
  {
    var last := [('0' as int + n % 10) as char];
    if n < 10 then last else Decimal(n / 10) + last
  }

  function DecimalValue(s: string): nat
    requires AllDigits(s)
  {
    if s == [] then 0
    else DecimalValue(s[..|s| - 1]) * 10 + (s[|s| - 1] as int - '0' as int)
  }

  lemma {:induction false} DecimalRoundTrip(n: nat)
    ensures DecimalValue(Decimal(n)) == n
  {
    var s := Decimal(n);
    if n < 10 {
      assert s[..|s| - 1] == [];
    } else {
      DecimalRoundTrip(n / 10);
      assert s[..|s| - 1] == Decimal(n / 10);
    }
  }

  lemma DecimalInjective(m: nat, n: nat)
    requires Decimal(m) == Decimal(n)
    ensures m == n
  {
    DecimalRoundTrip(m);
    DecimalRoundTrip(n);
  }

  lemma {:induction false} DecimalAtMostTwoDigits(n: nat)
    ensures |Decimal(n)| <= 2 <==> n < 100
  {
    if n >= 100 {
      assert |Decimal(n / 10)| >= 2;
    }
  }

  /** Unicode white space, which `str::trim` removes. */
  predicate IsSpace(c: char) {
    var u := c as int;
    || 0x9 <= u <= 0xd || u == 0x20 || u == 0x85 || u == 0xa0 || u == 0x1680
    || 0x2000 <= u <= 0x200a || u == 0x2028 || u == 0x2029 || u == 0x202f || u == 0x205f || u == 0x3000
  }

  // ----- bounded windows -----

  /** The last `cap` elements of `s`, or all of them when there are fewer. */
  function Window<T>(s: seq<T>, cap: nat): (w: seq<T>)
    ensures |w| == Min(|s|, cap)
  {
    if |s| > cap then s[|s| - cap..] else s
  }

  lemma WindowIs<T>(s: seq<T>, cap: nat)
    ensures |Window(s, cap)| == (if |s| > cap then cap else |s|)
    ensures s == s[..|s| - |Window(s, cap)|] + Window(s, cap)
  {}

  /** What a bounded queue does on a push is what taking the window of the
      whole history does. */
  lemma WindowPush<T>(s: seq<T>, x: T, cap: nat)
    requires cap > 0
    ensures var w := Window(s, cap);
            Window(s + [x], cap) == (if |w| == cap then w[1..] else w) + [x]
  {
    var w := Window(s, cap);
    if |s| >= cap {
      assert w == s[|s| - cap..];
    }
  }

  // ----- the order of Rust's `String` (on code points) -----

  predicate LexLeq(a: string, b: string) {
    if a == [] then true
    else if b == [] then false
    else if a[0] != b[0] then a[0] < b[0]
    else LexLeq(a[1..], b[1..])
  }

  ghost predicate DifferAt(a: string, b: string, k: nat) {
    k < |a| && k < |b| && a[..k] == b[..k] && a[k] < b[k]
  }

  lemma DifferLater(a: string, b: string, k: nat)
    requires a != [] && b != []
    ensures DifferAt(a, b, k + 1) <==> a[0] == b[0] && DifferAt(a[1..], b[1..], k)
  {
    if k < |a| - 1 && k < |b| - 1 {
      assert a[..k + 1] == [a[0]] + a[1..][..k] && b[..k + 1] == [b[0]] + b[1..][..k];
      assert a[..k + 1][1..] == a[1..][..k] && b[..k + 1][1..] == b[1..][..k];
    }
  }

  /** The first difference decides; without one the shorter string is first. */
  lemma {:induction false} LexLeqIff(a: string, b: string)
    ensures LexLeq(a, b) <==> a <= b || exists k: nat :: DifferAt(a, b, k)
  {
    if a != [] && b != [] {
      assert DifferAt(a, b, 0) <==> a[0] < b[0];
      if k: nat :| DifferAt(a, b, k) {
        if k > 0 { DifferLater(a, b, k - 1); }
      }
      if k: nat :| DifferAt(a[1..], b[1..], k) { DifferLater(a, b, k); }
      if a[0] == b[0] { LexLeqIff(a[1..], b[1..]); PrefixTails(a, b); }
    }
  }

  lemma PrefixTails(a: string, b: string)
    requires a != [] && b != [] && a[0] == b[0]
    ensures a <= b <==> a[1..] <= b[1..]
  {
    assert a == [a[0]] + a[1..] && b == [b[0]] + b[1..];
    if a[1..] <= b[1..] { assert b[..|a|] == [b[0]] + b[1..][..|a| - 1]; }
    if a <= b { assert b[1..][..|a| - 1] == b[..|a|][1..]; }
  }

  lemma {:induction false} LexTotal(a: string, b: string)
    ensures LexLeq(a, b) || LexLeq(b, a)
  {
    if a != [] && b != [] && a[0] == b[0] {
      LexTotal(a[1..], b[1..]);
    }
  }

  lemma {:induction false} LexAntisymmetric(a: string, b: string)
    requires LexLeq(a, b) && LexLeq(b, a)
    ensures a == b
  {
    if a != [] && b != [] {
      LexAntisymmetric(a[1..], b[1..]);
      assert a == [a[0]] + a[1..] && b == [b[0]] + b[1..];
    }
  }

  lemma {:induction false} LexTransitive(a: string, b: string, c: string)
    requires LexLeq(a, b) && LexLeq(b, c)
    ensures LexLeq(a, c)
  {
    if a != [] && b != [] && c != [] && a[0] == b[0] == c[0] {
      LexTransitive(a[1..], b[1..], c[1..]);
    }
  }

  lemma UpdateTwice<K, V>(m: map<K, V>, k: K, a: V, b: V)
    ensures m[k := a][k := b] == m[k := b]
  {
  }
}
