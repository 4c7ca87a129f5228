/** Borders, periods and primitive roots of sequences: the word combinatorics behind
    collapsing a text that is one fragment repeated. */
module Periodicity {

  /** `u` written `k` times in a row. */
  function Repeat<T>(u: seq<T>, k: nat): seq<T> {
    if k == 0 then [] else u + Repeat(u, k - 1)
  }

  ghost predicate HasPeriod<T>(v: seq<T>, p: nat) {
    0 < p <= |v| && forall i :: 0 <= i < |v| - p ==> v[i] == v[i + p]
  }

  /** A proper prefix of length `b` that is also a suffix. */
  ghost predicate IsBorder<T>(v: seq<T>, b: nat) {
    b < |v| && v[..b] == v[|v| - b..]
  }

  ghost predicate IsLongestBorder<T>(v: seq<T>, b: nat) {
    IsBorder(v, b) && forall c :: b < c < |v| ==> !IsBorder(v, c)
  }

  /** Not a shorter word repeated two or more times. */
  ghost predicate Primitive<T(!new)>(v: seq<T>) {
    v != [] && forall u: seq<T>, k: nat :: k >= 2 ==> Repeat(u, k) != v
  }

  function Gcd(a: nat, b: nat): nat
    requires a > 0 && b > 0
    decreases a + b
  {
    if a == b then a else if a < b then Gcd(a, b - a) else Gcd(a - b, b)
  }

  lemma {:induction false} GcdDivides(a: nat, b: nat)
    requires a > 0 && b > 0
    ensures 0 < Gcd(a, b) <= a && Gcd(a, b) <= b
    ensures a % Gcd(a, b) == 0 && b % Gcd(a, b) == 0
    decreases a + b
  {
    if a < b {
      GcdDivides(a, b - a);
      DivisorOfSum(a, b - a, Gcd(a, b));
    } else if a > b {
      GcdDivides(a - b, b);
      DivisorOfSum(b, a - b, Gcd(a, b));
    }
  }

  lemma DivisorOfSum(a: nat, b: nat, g: nat)
    requires g > 0 && a % g == 0 && b % g == 0
    ensures (a + b) % g == 0
  {
    var k := a / g + b / g;
    assert a + b == k * g;
    MultipleOf(k, g);
  }

  lemma {:induction false} MultipleOf(k: nat, g: nat)
    requires g > 0
    ensures (k * g) % g == 0 && (k * g) / g == k
  {
    var n := k * g;
    NearestMultiple(n, g, k, n / g, n % g);
  }

  /** A multiple of `g` is written as a multiple and a remainder in one way. */
  lemma NearestMultiple(n: nat, g: nat, k: nat, q: nat, r: nat)
    requires g > 0 && r < g && n == k * g && n == q * g + r
    ensures q == k && r == 0
  {
    if k > q { OneMoreTime(k - q - 1, q, g); }
    if k < q { OneMoreTime(q - k - 1, k, g); }
  }

  lemma OneMoreTime(d: nat, q: nat, g: nat)
    ensures (d + 1 + q) * g >= q * g + g
  {
    assert (d + 1 + q) * g == d * g + g + q * g;
  }

  /** A number that a divisor divides properly holds it at least twice. */
  lemma ProperMultiple(n: nat, p: nat) returns (m: nat)
    requires 0 < p < n && n % p == 0
    ensures m >= 2 && n == m * p
  {
    m := n / p;
  }

  lemma MultipleOfMultiple(k: nat, n: nat, p: nat)
    requires p > 0 && n % p == 0
    ensures (k * n) % p == 0
  {
    var m := n / p;
    assert k * n == (k * m) * p;
    MultipleOf(k * m, p);
  }

  lemma AtLeastTwice(k: nat, n: nat)
    requires k >= 2
    ensures k * n >= 2 * n
  {
  }

  // ---------- repetition ----------

  lemma {:induction false} RepeatLength<T>(u: seq<T>, k: nat)
    ensures |Repeat(u, k)| == k * |u|
  {
    if k > 0 { RepeatLength(u, k - 1); }
  }

  lemma {:induction false} RepeatSum<T>(u: seq<T>, j: nat, k: nat)
    ensures Repeat(u, j + k) == Repeat(u, j) + Repeat(u, k)
  {
    if j > 0 {
      RepeatSum(u, j - 1, k);
      assert u + (Repeat(u, j - 1) + Repeat(u, k)) == (u + Repeat(u, j - 1)) + Repeat(u, k);
    } else {
      assert [] + Repeat(u, k) == Repeat(u, k);
    }
  }

  lemma {:induction false} RepeatRepeat<T>(u: seq<T>, j: nat, k: nat)
    ensures Repeat(Repeat(u, j), k) == Repeat(u, j * k)
  {
    if k > 0 {
      RepeatRepeat(u, j, k - 1);
      RepeatSum(u, j, j * (k - 1));
      assert j * k == j + j * (k - 1);
    }
  }

  lemma {:induction false} RepeatHasPeriod<T>(u: seq<T>, k: nat)
    requires k > 0 && u != []
    ensures HasPeriod(Repeat(u, k), |u|)
  {
    if k > 1 {
      var rest := Repeat(u, k - 1);
      RepeatHasPeriod(u, k - 1);
      assert rest == u + Repeat(u, k - 2);
      forall i | 0 <= i < |Repeat(u, k)| - |u| ensures Repeat(u, k)[i] == Repeat(u, k)[i + |u|] {
        assert Repeat(u, k)[i + |u|] == rest[i];
        if i >= |u| { assert rest[i - |u|] == rest[i - |u| + |u|]; }
      }
    }
  }

  /** A period that fits a whole number of times writes the word as a repetition. */
  lemma {:induction false} PeriodRepeats<T>(v: seq<T>, p: nat, k: nat)
    requires HasPeriod(v, p) && |v| == k * p
    ensures v == Repeat(v[..p], k)
    decreases k
  {
    if k == 0 {
    } else if k == 1 {
      assert v[..p] == v && Repeat(v, 1) == v + [];
    } else {
      var w := v[p..];
      assert |w| == (k - 1) * p;
      assert |w| >= p by { assert (k - 1) * p == p + (k - 2) * p; }
      forall i | 0 <= i < |w| - p ensures w[i] == w[i + p] {
        assert v[i + p] == v[i + p + p];
      }
      PeriodRepeats(w, p, k - 1);
      assert w[..p] == v[..p];
      assert v == v[..p] + w;
    }
  }

  lemma BorderIsPeriod<T>(v: seq<T>, b: nat)
    requires b < |v|
    ensures IsBorder(v, b) <==> HasPeriod(v, |v| - b)
  {
  }

  // ---------- two periods ----------

  /** Two periods that fit together into the word have their difference as a period. */
  lemma PeriodDifference<T>(v: seq<T>, p: nat, q: nat)
    requires HasPeriod(v, p) && HasPeriod(v, q) && p < q && p + q <= |v|
    ensures HasPeriod(v, q - p)
  {
    forall i | 0 <= i < |v| - (q - p) ensures v[i] == v[i + (q - p)] {
      if i >= p {
        assert v[i - p] == v[i - p + p];
        assert v[i - p] == v[i - p + q];
      } else {
        assert v[i] == v[i + q];
        assert v[i + q - p] == v[i + q - p + p];
      }
    }
  }

  /** Periods p and q with p + q at most the length give the period gcd(p, q). */
  lemma {:induction false} CommonPeriod<T>(v: seq<T>, p: nat, q: nat)
    requires HasPeriod(v, p) && HasPeriod(v, q) && p + q <= |v|
    ensures HasPeriod(v, Gcd(p, q))
    decreases p + q
  {
    if p < q {
      PeriodDifference(v, p, q);
      CommonPeriod(v, p, q - p);
    } else if q < p {
      PeriodDifference(v, q, p);
      CommonPeriod(v, p - q, q);
    }
  }

  ghost predicate IsLeastPeriod<T>(v: seq<T>, p: nat) {
    HasPeriod(v, p) && forall q :: 0 < q < p ==> !HasPeriod(v, q)
  }

  lemma LongestBorderIsLeastPeriod<T>(v: seq<T>, b: nat)
    requires IsLongestBorder(v, b)
    ensures IsLeastPeriod(v, |v| - b)
  {
    BorderIsPeriod(v, b);
    forall q | 0 < q < |v| - b ensures !HasPeriod(v, q) {
      BorderIsPeriod(v, |v| - q);
    }
  }

  /** Every way of writing `v` as a repetition uses a multiple of its least period,
      and that least period then divides the length. */
  lemma RepetitionUsesLeastPeriod<T>(v: seq<T>, p: nat, u: seq<T>, k: nat)
    requires IsLeastPeriod(v, p) && k >= 2 && v == Repeat(u, k)
    ensures |u| % p == 0 && |v| % p == 0 && 0 < p <= |u|
  {
    hide Repeat, HasPeriod, Gcd;
    RepeatLength(u, k);
    PeriodBounds(v, p);
    RepeatHasPeriod(u, k);
    AtLeastTwice(k, |u|);
    CommonIsLeast(v, p, |u|);
    MultipleOfMultiple(k, |u|, p);
  }

  lemma PeriodBounds<T>(v: seq<T>, p: nat)
    requires HasPeriod(v, p)
    ensures 0 < p <= |v|
  {
  }

  /** The least period divides every period that fits beside it. */
  lemma CommonIsLeast<T>(v: seq<T>, p: nat, q: nat)
    requires IsLeastPeriod(v, p) && HasPeriod(v, q) && 2 * q <= |v|
    ensures 0 < p <= q && q % p == 0
  {
    hide Gcd;
    assert p <= q;
    CommonPeriod(v, p, q);
    GcdDivides(p, q);
    hide HasPeriod;
    assert Gcd(p, q) == p;
  }

  /** The primitive root: the prefix as long as the least period, when that period divides
      the length, and the whole word otherwise. */
  lemma PrimitiveRoot<T(!new)>(v: seq<T>, p: nat)
    requires IsLeastPeriod(v, p)
    ensures |v| % p == 0 ==> v == Repeat(v[..p], |v| / p) && Primitive(v[..p])
    ensures |v| % p != 0 || p == |v| ==> Primitive(v)
  {
    if |v| % p == 0 {
      var n := |v| / p;
      assert |v| == n * p;
      PeriodRepeats(v, p, n);
      assert n > 0;
      forall w: seq<T>, j: nat | j >= 2 ensures Repeat(w, j) != v[..p] {
        if Repeat(w, j) == v[..p] {
          RepeatLength(w, j);
          RepeatRepeat(w, j, n);
          assert |w| > 0 && |w| < j * |w|;
          assert j * n > 0;
          RepeatHasPeriod(w, j * n);
          assert false;
        }
      }
    } else {
      forall u: seq<T>, k: nat | k >= 2 ensures Repeat(u, k) != v {
        if Repeat(u, k) == v { RepetitionUsesLeastPeriod(v, p, u, k); }
      }
    }
    if p == |v| { assert v[..p] == v; assert |v| % |v| == 0; }
  }

  /** A word is a primitive word repeated in one way only. */
  lemma PrimitiveRootUnique<T(!new)>(u: seq<T>, j: nat, w: seq<T>, k: nat)
    requires Primitive(u) && Primitive(w) && j > 0 && k > 0
    requires Repeat(u, j) == Repeat(w, k)
    ensures u == w && j == k
  {
    var v := Repeat(u, j);
    RepeatLength(u, j);
    RepeatLength(w, k);
    assert Repeat(u, 1) == u + [] == u && Repeat(w, 1) == w + [] == w;
    if j >= 2 && k >= 2 {
      var p := LeastPeriod(v);
      RootLength(v, p, u, j);
      RootLength(v, p, w, k);
      assert u == v[..|u|] && w == v[..|w|];
      assert (j - k) * p == 0;
    }
  }

  lemma LeastPeriod<T>(v: seq<T>) returns (p: nat)
    requires v != []
    ensures IsLeastPeriod(v, p)
  {
    p := 1;
    assert HasPeriod(v, |v|);
    while !HasPeriod(v, p)
      invariant 0 < p <= |v|
      invariant forall q :: 0 < q < p ==> !HasPeriod(v, q)
      decreases |v| - p
    {
      p := p + 1;
    }
  }

  /** A primitive word repeated twice or more is exactly one least period long. */
  lemma RootLength<T(!new)>(v: seq<T>, p: nat, u: seq<T>, k: nat)
    requires IsLeastPeriod(v, p) && k >= 2 && v == Repeat(u, k) && Primitive(u)
    ensures |u| == p && u == v[..p]
  {
    RepetitionUsesLeastPeriod(v, p, u, k);
    FirstCopy(v, u, k);
    hide Repeat, Primitive;
    if |u| != p {
      var m := ProperMultiple(|u|, p);
      PrefixPeriod(v, p, |u|);
      PeriodRepeats(u, p, m);
      NotRepeated(u, u[..p], m);
    }
  }

  lemma FirstCopy<T>(v: seq<T>, u: seq<T>, k: nat)
    requires k > 0 && v == Repeat(u, k)
    ensures |u| <= |v| && u == v[..|u|]
  {
    assert Repeat(u, k) == u + Repeat(u, k - 1);
  }

  lemma PrefixPeriod<T>(v: seq<T>, p: nat, n: nat)
    requires HasPeriod(v, p) && p <= n <= |v|
    ensures HasPeriod(v[..n], p)
  {
    forall i | 0 <= i < n - p ensures v[..n][i] == v[..n][i + p] {
      assert v[i] == v[i + p];
    }
  }

  lemma NotRepeated<T(!new)>(u: seq<T>, w: seq<T>, m: nat)
    requires Primitive(u) && m >= 2
    ensures Repeat(w, m) != u
  {
  }
}
