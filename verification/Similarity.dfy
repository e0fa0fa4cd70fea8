// The replay comparison's content score: Jaccard similarity of rune trigrams, in exact arithmetic.
// A string is its sequence of runes.
module Similarity {

  function Gram(s: string, i: nat): string
    requires i + 3 <= |s|
  {
    s[i..i + 3]
  }

  function Windows(s: string, k: nat): set<string>
    requires k + 2 <= |s| || k == 0
  {
    set i | 0 <= i < k :: Gram(s, i)
  }

  /** Every three consecutive runes. */
  function TrigramsOf(s: string): set<string> {
    Windows(s, if |s| < 3 then 0 else |s| - 2)
  }

  /** The part of a nonempty string that the score looks at; the empty string is like nothing else. */
  datatype Profile = Nothing | Grams(grams: set<string>)

  function ProfileOf(s: string): Profile {
    if s == "" then Nothing else Grams(TrigramsOf(s))
  }

  function Score(a: string, b: string): real {
    if a == "" && b == "" then 1.0
    else if a == "" || b == "" then 0.0
    else Jaccard(TrigramsOf(a), TrigramsOf(b))
  }

  function Jaccard<T>(a: set<T>, b: set<T>): real {
    var union := |a| + |b| - |a * b|;
    if union == 0 then 1.0 else |a * b| as real / union as real
  }

  function Distance(a: string, b: string): real {
    1.0 - Score(a, b)
  }

  // ---------------------------------------------------------------------------
  // The loops

  /** `g` is the three runes of `s` from `i` on. */
  predicate IsGramAt(s: string, g: string, i: nat) {
    i + 3 <= |s| && |g| == 3 && g[0] == s[i] && g[1] == s[i + 1] && g[2] == s[i + 2]
  }

  /** The set has every three runes in a row, the last ones included, and nothing else. */
  lemma TrigramsAreAll(s: string, g: string)
    ensures g in TrigramsOf(s) <==> exists i: nat :: IsGramAt(s, g, i)
  {
    if i: nat :| IsGramAt(s, g, i) {
      assert g == Gram(s, i);
    }
    if g in TrigramsOf(s) {
      var i: nat :| i + 3 <= |s| && g == Gram(s, i);
      assert IsGramAt(s, g, i);
    }
  }

  lemma WindowsNext(s: string, k: nat)
    requires k + 3 <= |s|
    ensures Windows(s, k + 1) == Windows(s, k) + {Gram(s, k)}
  {
    forall g
      ensures g in Windows(s, k + 1) <==> g in Windows(s, k) || g == Gram(s, k)
    {
      if g == Gram(s, k) {
        assert Gram(s, k) in Windows(s, k + 1);
      }
    }
  }

  method Trigrams(s: string) returns (grams: set<string>)
    ensures grams == TrigramsOf(s)
    ensures forall g :: g in grams <==> exists i: nat :: IsGramAt(s, g, i)
  {
    grams := {};
    var i := 0;
    while i + 3 <= |s|
      invariant i <= (if |s| < 3 then 0 else |s| - 2)
      invariant grams == Windows(s, i)
    {
      WindowsNext(s, i);
      grams := grams + {s[i..i + 3]};
      i := i + 1;
    }
    forall g
      ensures g in TrigramsOf(s) <==> exists i: nat :: IsGramAt(s, g, i)
    {
      TrigramsAreAll(s, g);
    }
  }

  method ContentSimilarity(a: string, b: string) returns (score: real)
    ensures score == Score(a, b)
  {
    if a == "" && b == "" {
      return 1.0;
    }
    if a == "" || b == "" {
      return 0.0;
    }
    var setA := Trigrams(a);
    var setB := Trigrams(b);
    var intersection := CountShared(setA, setB);
    var union := |setA| + |setB| - intersection;
    if union == 0 {
      return 1.0;
    }
    return intersection as real / union as real;
  }

  method CountShared(setA: set<string>, setB: set<string>) returns (intersection: nat)
    ensures intersection == |setA * setB|
  {
    intersection := 0;
    var rest := setA;
    while rest != {}
      invariant rest <= setA
      invariant intersection == |(setA - rest) * setB|
      decreases rest
    {
      var t :| t in rest;
      var seen := (setA - rest) * setB;
      if t in setB {
        assert (setA - (rest - {t})) * setB == seen + {t};
        intersection := intersection + 1;
      } else {
        assert (setA - (rest - {t})) * setB == seen;
      }
      rest := rest - {t};
    }
    assert (setA - rest) * setB == setA * setB;
  }

  // ---------------------------------------------------------------------------
  // Sets and the distance between them

  /** Elements in exactly one of the two sets. */
  function Apart<T>(a: set<T>, b: set<T>): nat {
    |a - b| + |b - a|
  }

  lemma Sizes<T>(a: set<T>, b: set<T>)
    ensures |a| == |a - b| + |a * b|
    ensures |b| == |b - a| + |a * b|
    ensures |a| + |b| - |a * b| == |a * b| + Apart(a, b)
  {
    assert a == (a - b) + (a * b);
    assert b == (b - a) + (a * b);
  }

  /** The score is the share of the common elements in all elements. */
  lemma JaccardIsShare<T>(a: set<T>, b: set<T>)
    ensures a + b != {} ==> Jaccard(a, b) == |a * b| as real / |a + b| as real
    ensures a + b == {} ==> Jaccard(a, b) == 1.0
  {
    Sizes(a, b);
    assert a + b == (a - b) + b;
    assert a + b == {} ==> a == {} && b == {};
  }

  /** Two empty strings score one, one of them zero; else it is the share of the common trigrams in all
      trigrams, and one if there are none. */
  lemma ScoreIsShare(a: string, b: string)
    ensures a == "" && b == "" ==> Score(a, b) == 1.0
    ensures (a == "") != (b == "") ==> Score(a, b) == 0.0
    ensures a != "" && b != "" ==>
              var common, all := TrigramsOf(a) * TrigramsOf(b), TrigramsOf(a) + TrigramsOf(b);
              if all == {} then Score(a, b) == 1.0 else Score(a, b) == |common| as real / |all| as real
  {
    hide TrigramsOf, Jaccard;
    JaccardIsShare(TrigramsOf(a), TrigramsOf(b));
  }

  lemma ApartTriangle<T>(a: set<T>, b: set<T>, c: set<T>)
    ensures Apart(a, c) <= Apart(a, b) + Apart(b, c)
  {
    Covered(a - c, a - b, b - c);
    Covered(c - a, c - b, b - a);
  }

  lemma Covered<T>(s: set<T>, t: set<T>, u: set<T>)
    requires s <= t + u
    ensures |s| <= |t| + |u|
  {
    assert |t + u| == |t| + |u - t| by {
      assert t + u == t + (u - t);
    }
    Smaller(u - t, u);
    Smaller(s, t + u);
  }

  lemma Smaller<T>(s: set<T>, t: set<T>)
    requires s <= t
    ensures |s| <= |t|
  {
    assert t == s + (t - s);
  }

  // ---------------------------------------------------------------------------
  // Fractions

  lemma Scale(a: real, b: real, f: real)
    requires a <= b && 0.0 <= f
    ensures a * f <= b * f
  {
    assert b * f - a * f == (b - a) * f;
  }

  lemma Below(p: real, q: real, x: real)
    requires 0.0 < q && p <= x * q
    ensures p / q <= x
  {
    var y := p / q;
    assert y * q == p;
    if x < y {
      assert (y - x) * q > 0.0;
    }
  }

  lemma Grow(p: real, q: real, r: real)
    requires 0.0 <= p <= q && 0.0 < q && 0.0 <= r
    ensures p / q <= (p + r) / (q + r)
  {
    var y := (p + r) / (q + r);
    assert y * (q + r) == p + r;
    Below(p + r, q + r, 1.0);
    Scale(y, 1.0, r);
    assert y * (q + r) == y * q + y * r;
    Below(p, q, y);
  }

  lemma ShrinkDenominator(p: real, q: real, r: real)
    requires 0.0 <= p && 0.0 < q <= r
    ensures p / r <= p / q
  {
    var y := p / q;
    assert y * q == p && y >= 0.0;
    Scale(q, r, y);
    Below(p, r, y);
  }

  lemma AddFractions(p: real, r: real, q: real)
    requires 0.0 < q
    ensures (p + r) / q == p / q + r / q
  {
  }

  /** Half of one minus Jaccard: the symmetric difference over the sizes and that difference. */
  function Half(d: nat, sizes: nat): real {
    if sizes == 0 then 0.0 else d as real / (sizes + d) as real
  }

  lemma DistanceIsTwoHalves<T>(a: set<T>, b: set<T>)
    ensures 1.0 - Jaccard(a, b) == 2.0 * Half(Apart(a, b), |a| + |b|)
  {
    Sizes(a, b);
    var union, d := |a| + |b| - |a * b|, Apart(a, b);
    if union != 0 {
      assert (|a| + |b| + d) as real == 2.0 * union as real;
      TwoHalves(|a * b| as real, d as real, union as real);
    }
  }

  lemma TwoHalves(p: real, d: real, u: real)
    requires u > 0.0 && p + d == u
    ensures 1.0 - p / u == 2.0 * (d / (2.0 * u))
  {
    AddFractions(p, d, u);
    assert u / u == 1.0;
    var h := d / (2.0 * u);
    assert h * (2.0 * u) == d;
    assert (2.0 * h) * u == d;
    assert 2.0 * h == d / u;
  }

  lemma SplitDetour(y: nat, z: nat, n: nat, sizes: nat)
    requires n > 0 && (sizes == 0 ==> y == 0) && sizes + y <= n
    ensures y as real / n as real <= Half(y, sizes)
  {
    if sizes != 0 {
      ShrinkDenominator(y as real, (sizes + y) as real, n as real);
    }
  }

  /** The triangle inequality: add the slack of the detour above and below, split the fraction, and
      shrink the two denominators. */
  lemma JaccardTriangle<T>(a: set<T>, b: set<T>, c: set<T>)
    ensures Jaccard(a, b) + Jaccard(b, c) - 1.0 <= Jaccard(a, c)
  {
    var x, y, z := Apart(a, c), Apart(a, b), Apart(b, c);
    ApartTriangle(a, b, c);
    Sizes(a, b);
    Sizes(b, c);
    Sizes(a, c);
    DistanceIsTwoHalves(a, b);
    DistanceIsTwoHalves(b, c);
    DistanceIsTwoHalves(a, c);
    HalfTriangle(|a|, |b|, |c|, x, y, z);
  }

  lemma HalfTriangle(a: nat, b: nat, c: nat, x: nat, y: nat, z: nat)
    requires x <= y + z && x <= a + c && y <= a + b && z <= b + c
    requires b <= a + y && b <= c + z
    ensures Half(x, a + c) <= Half(y, a + b) + Half(z, b + c)
  {
    HalfPositive(y, a + b);
    HalfPositive(z, b + c);
    if a + c > 0 {
      var n, slack := a + c + y + z, y + z - x;
      Grow(x as real, (a + c + x) as real, slack as real);
      assert (x as real + slack as real) == (y + z) as real && (a + c + x) as real + slack as real == n as real;
      AddFractions(y as real, z as real, n as real);
      SplitDetour(y, z, n, a + b);
      SplitDetour(z, y, n, b + c);
    }
  }

  lemma HalfPositive(d: nat, sizes: nat)
    ensures Half(d, sizes) >= 0.0
  {
  }

  lemma Unit(p: real, q: real)
    requires 0.0 <= p <= q && 0.0 < q
    ensures 0.0 <= p / q <= 1.0
    ensures p / q == 1.0 <==> p == q
  {
    var x := p / q;
    assert x * q == p;
    Below(p, q, 1.0);
  }

  lemma SameIffNothingApart<T>(a: set<T>, b: set<T>)
    ensures a == b <==> Apart(a, b) == 0
  {
    if Apart(a, b) == 0 {
      assert a - b == {} && b - a == {};
      assert forall t :: t in a ==> t in b || t in a - b;
      assert forall t :: t in b ==> t in a || t in b - a;
    }
  }

  lemma JaccardInUnit<T>(a: set<T>, b: set<T>)
    ensures 0.0 <= Jaccard(a, b) <= 1.0
    ensures Jaccard(a, b) == 1.0 <==> a == b
  {
    Sizes(a, b);
    SameIffNothingApart(a, b);
    var union := |a| + |b| - |a * b|;
    if union != 0 {
      Unit(|a * b| as real, union as real);
    }
  }

  lemma ScoreInUnit(a: string, b: string)
    ensures 0.0 <= Score(a, b) <= 1.0
  {
    JaccardInUnit(TrigramsOf(a), TrigramsOf(b));
  }

  /** Only strings with the same trigrams score one. */
  lemma OneIffSameProfile(a: string, b: string)
    ensures Score(a, b) == 1.0 <==> ProfileOf(a) == ProfileOf(b)
  {
    JaccardInUnit(TrigramsOf(a), TrigramsOf(b));
  }

  lemma JaccardSymmetric<T>(a: set<T>, b: set<T>)
    ensures Jaccard(a, b) == Jaccard(b, a)
  {
    assert a * b == b * a;
  }

  lemma Symmetric(a: string, b: string)
    ensures Score(a, b) == Score(b, a)
  {
    hide Jaccard, TrigramsOf;
    JaccardSymmetric(TrigramsOf(a), TrigramsOf(b));
  }

  lemma Triangle(a: string, b: string, c: string)
    ensures Distance(a, c) <= Distance(a, b) + Distance(b, c)
  {
    ScoreInUnit(a, b);
    ScoreInUnit(b, c);
    ScoreInUnit(a, c);
    if a != "" && b != "" && c != "" {
      JaccardTriangle(TrigramsOf(a), TrigramsOf(b), TrigramsOf(c));
    }
  }

  /** One minus the score is a pseudometric on all strings, and tells two apart exactly when their
      trigrams, or their being empty, differ. */
  lemma Pseudometric(a: string, b: string, c: string)
    ensures 0.0 <= Distance(a, b) <= 1.0
    ensures Distance(a, b) == Distance(b, a)
    ensures Distance(a, a) == 0.0
    ensures Distance(a, b) == 0.0 <==> ProfileOf(a) == ProfileOf(b)
    ensures Distance(a, c) <= Distance(a, b) + Distance(b, c)
  {
    ScoreInUnit(a, b);
    Symmetric(a, b);
    OneIffSameProfile(a, a);
    OneIffSameProfile(a, b);
    Triangle(a, b, c);
  }
}
