/** The score that ranks chunks (backend/internal/rag/knowledge_math.go), over the reals. */
module Cosine {
  function Dot(l: seq<real>, r: seq<real>): real
    requires |l| == |r|
  {
    if l == [] then 0.0
    else Dot(l[..|l| - 1], r[..|r| - 1]) + l[|l| - 1] * r[|r| - 1]
  }

  function Norm(v: seq<real>): real {
    Dot(v, v)
  }

  /** Only the positions that both vectors have are compared. */
  function Common(l: seq<real>, r: seq<real>): nat {
    if |r| < |l| then |r| else |l|
  }

  ghost predicate IsRoot(root: real, x: real) {
    root >= 0.0 && root * root == x
  }

  /** The roots are those of the two norms on the common positions. */
  ghost predicate Roots(l: seq<real>, r: seq<real>, leftRoot: real, rightRoot: real) {
    var n := Common(l, r);
    IsRoot(leftRoot, Norm(l[..n])) && IsRoot(rightRoot, Norm(r[..n]))
  }

  lemma RootsPositive(a: real, b: real, x: real, y: real)
    requires IsRoot(a, x) && IsRoot(b, y) && x != 0.0 && y != 0.0
    ensures a > 0.0 && b > 0.0 && a * b > 0.0
  {
  }

  ghost function Score(l: seq<real>, r: seq<real>, leftRoot: real, rightRoot: real): real
    requires Roots(l, r, leftRoot, rightRoot)
  {
    var n := Common(l, r);
    if Norm(l[..n]) == 0.0 || Norm(r[..n]) == 0.0 then 0.0
    else
      RootsPositive(leftRoot, rightRoot, Norm(l[..n]), Norm(r[..n]));
      Dot(l[..n], r[..n]) / (leftRoot * rightRoot)
  }

  // -------------------------------------------------------- Cauchy–Schwarz

  function Scaled(c: real, v: seq<real>): (w: seq<real>)
    ensures |w| == |v| && forall i :: 0 <= i < |v| ==> w[i] == c * v[i]
  {
    seq(|v|, i requires 0 <= i < |v| => c * v[i])
  }

  function Minus(l: seq<real>, r: seq<real>): (w: seq<real>)
    requires |l| == |r|
    ensures |w| == |l| && forall i :: 0 <= i < |l| ==> w[i] == l[i] - r[i]
  {
    seq(|l|, i requires 0 <= i < |l| => l[i] - r[i])
  }

  /** Multiplication under a name, so that a proof can leave its arithmetic aside. */
  function Times(x: real, y: real): real {
    x * y
  }

  lemma TimesPositive(x: real, y: real)
    requires x > 0.0 && y > 0.0
    ensures Times(x, y) > 0.0
  {
  }

  lemma TimesSigns(x: real, y: real)
    ensures Times(-x, y) == -Times(x, y) == Times(x, -y)
    ensures Times(x, 0.0) == 0.0 == Times(0.0, x)
  {
  }

  lemma SquarePositive(x: real)
    ensures x == 0.0 ==> Times(x, x) == 0.0
    ensures x != 0.0 ==> Times(x, x) > 0.0
  {
    hide Times;
    TimesSigns(x, 0.0);
    if x > 0.0 {
      TimesPositive(x, x);
    } else if x < 0.0 {
      TimesPositive(-x, -x);
      TimesSigns(x, -x);
      TimesSigns(x, x);
    }
  }

  lemma AddSquare(d: real, x: real)
    requires d >= 0.0
    ensures d + x * x >= 0.0 && (d + x * x == 0.0 <==> d == 0.0 && x == 0.0)
  {
    assert Times(x, x) == x * x;
    hide Times;
    SquarePositive(x);
    var q := Times(x, x);
    assert d + q >= 0.0 && (d + q == 0.0 <==> d == 0.0 && q == 0.0);
    assert d + x * x == d + q;
  }

  lemma {:induction false} NormPositive(v: seq<real>)
    ensures Norm(v) >= 0.0
    ensures Norm(v) == 0.0 <==> forall i :: 0 <= i < |v| ==> v[i] == 0.0
  {
    if v == [] {
    } else {
      var n := |v| - 1;
      NormPositive(v[..n]);
      AddSquare(Norm(v[..n]), v[n]);
      assert forall i :: 0 <= i < n ==> v[..n][i] == v[i];
    }
  }

  lemma ProductZero(k: real, x: real)
    requires k > 0.0
    ensures Times(k, x) == 0.0 <==> x == 0.0
  {
    hide Times;
    TimesSigns(k, x);
    if x > 0.0 {
      TimesPositive(k, x);
    } else if x < 0.0 {
      TimesPositive(k, -x);
    }
  }

  lemma {:induction false} DotZero(l: seq<real>, r: seq<real>)
    requires |l| == |r| && forall i :: 0 <= i < |r| ==> r[i] == 0.0
    ensures Dot(l, r) == 0.0
  {
    if l == [] {
    } else {
      DotZero(l[..|l| - 1], r[..|r| - 1]);
    }
  }

  lemma {:induction false} DotSymmetric(l: seq<real>, r: seq<real>)
    requires |l| == |r|
    ensures Dot(l, r) == Dot(r, l)
  {
    if l == [] {
    } else {
      DotSymmetric(l[..|l| - 1], r[..|r| - 1]);
    }
  }

  lemma ScaledPrefix(c: real, v: seq<real>, n: nat)
    requires n <= |v|
    ensures Scaled(c, v)[..n] == Scaled(c, v[..n])
  {
    var w := Scaled(c, v);
    forall i | 0 <= i < n ensures w[..n][i] == Scaled(c, v[..n])[i] {
      assert w[i] == c * v[i];
      assert v[..n][i] == v[i];
    }
  }

  lemma Distribute(c: real, d: real, x: real, y: real)
    ensures c * (d + x * y) == c * d + (c * x) * y
  {
    assert (c * x) * y == c * (x * y);
  }

  lemma {:induction false} DotScaled(c: real, l: seq<real>, r: seq<real>)
    requires |l| == |r|
    ensures Dot(Scaled(c, l), r) == c * Dot(l, r)
  {
    if l == [] {
    } else {
      var n := |l| - 1;
      DotScaled(c, l[..n], r[..n]);
      ScaledPrefix(c, l, n);
      assert Scaled(c, l)[n] == c * l[n];
      Distribute(c, Dot(l[..n], r[..n]), l[n], r[n]);
    }
  }

  lemma NormScaled(c: real, v: seq<real>)
    ensures Norm(Scaled(c, v)) == c * c * Norm(v)
  {
    hide Dot;
    DotScaled(c, v, Scaled(c, v));
    DotSymmetric(v, Scaled(c, v));
    DotScaled(c, v, v);
    assert c * (c * Norm(v)) == c * c * Norm(v);
  }

  lemma {:induction false} DotMinus(l: seq<real>, r: seq<real>, v: seq<real>)
    requires |l| == |r| == |v|
    ensures Dot(Minus(l, r), v) == Dot(l, v) - Dot(r, v)
  {
    if l == [] {
    } else {
      var n := |l| - 1;
      DotMinus(l[..n], r[..n], v[..n]);
      assert Minus(l, r)[..n] == Minus(l[..n], r[..n]);
    }
  }

  function Remaining(a: real, d: real, b: real, x: real): real {
    a - 2.0 * x * d + x * x * b
  }

  /** The squared distance from `l` to a multiple of `r`. */
  lemma NormOfMinus(l: seq<real>, r: seq<real>, x: real)
    requires |l| == |r|
    ensures Norm(Minus(l, Scaled(x, r))) == Remaining(Norm(l), Dot(l, r), Norm(r), x)
  {
    hide Dot;
    var s := Scaled(x, r);
    var m := Minus(l, s);
    DotMinus(l, s, m);
    DotSymmetric(l, m);
    DotMinus(l, s, l);
    DotSymmetric(s, m);
    DotMinus(l, s, s);
    DotScaled(x, r, l);
    DotSymmetric(l, r);
    DotSymmetric(l, s);
    NormScaled(x, r);
  }

  /** What is left of `a` at the best multiple. */
  lemma BestMultiple(a: real, d: real, b: real, x: real, rest: real)
    requires b > 0.0 && rest >= 0.0
    requires x * b == d && rest == Remaining(a, d, b, x)
    ensures d * d <= a * b && (d * d == a * b <==> rest == 0.0)
  {
    assert x * x * b == x * d by { assert x * x * b == x * (x * b); }
    assert 2.0 * x * d == 2.0 * (x * d);
    assert rest == a - x * d;
    assert x * d * b == d * d by { assert x * d * b == (x * b) * d; }
    assert rest * b == a * b - d * d by { assert rest * b == a * b - x * d * b; }
    assert rest > 0.0 ==> rest * b > 0.0;
  }

  lemma NoDistance(l: seq<real>, r: seq<real>)
    requires |l| == |r|
    ensures Norm(Minus(l, r)) >= 0.0 && (Norm(Minus(l, r)) == 0.0 <==> l == r)
  {
    NormPositive(Minus(l, r));
  }

  lemma DistanceToMultiple(l: seq<real>, r: seq<real>, x: real)
    requires |l| == |r| && Norm(r) > 0.0 && x * Norm(r) == Dot(l, r)
    ensures Dot(l, r) * Dot(l, r) <= Norm(l) * Norm(r)
    ensures Dot(l, r) * Dot(l, r) == Norm(l) * Norm(r) <==> l == Scaled(x, r)
  {
    hide Dot, Norm, Scaled, Minus, Remaining;
    NormOfMinus(l, r, x);
    NoDistance(l, Scaled(x, r));
    BestMultiple(Norm(l), Dot(l, r), Norm(r), x, Norm(Minus(l, Scaled(x, r))));
  }

  lemma QuotientTimes(d: real, b: real)
    requires b != 0.0
    ensures d / b * b == d
  {
  }

  /** dot² is at most the product of the norms, and equal to it only for parallel vectors. */
  lemma CauchySchwarz(l: seq<real>, r: seq<real>)
    requires |l| == |r| && Norm(r) != 0.0
    ensures Dot(l, r) * Dot(l, r) <= Norm(l) * Norm(r)
    ensures Dot(l, r) * Dot(l, r) == Norm(l) * Norm(r) <==> l == Scaled(Dot(l, r) / Norm(r), r)
  {
    hide Dot, Norm, Scaled;
    NormPositive(r);
    QuotientTimes(Dot(l, r), Norm(r));
    DistanceToMultiple(l, r, Dot(l, r) / Norm(r));
  }

  /** It holds without the condition on the norm as well. */
  lemma CauchySchwarzAlways(l: seq<real>, r: seq<real>)
    requires |l| == |r|
    ensures Dot(l, r) * Dot(l, r) <= Norm(l) * Norm(r)
  {
    NormPositive(r);
    if Norm(r) == 0.0 {
      DotZero(l, r);
    } else {
      CauchySchwarz(l, r);
    }
  }

  // ------------------------------------------------------------- the score

  lemma SquareGrows(x: real, y: real)
    requires x > y >= 0.0
    ensures x * x > y * y
  {
    assert x * x - y * y == Times(x - y, x + y);
    TimesPositive(x - y, x + y);
  }

  lemma SquareOrder(d: real, p: real)
    requires p > 0.0 && d * d <= p * p
    ensures -p <= d <= p
  {
    if d > p {
      SquareGrows(d, p);
    } else if d < -p {
      SquareGrows(-d, p);
    }
  }

  lemma SquareOfProduct(x: real, y: real)
    ensures (x * y) * (x * y) == (x * x) * (y * y)
  {
    assert (x * y) * (x * y) == x * (y * (x * y)) == x * (x * (y * y));
  }

  lemma QuotientOrder(x: real, y: real, p: real)
    requires p > 0.0 && x <= y
    ensures x / p <= y / p
  {
    assert (y - x) / p >= 0.0;
    assert (y - x) / p == y / p - x / p;
  }

  lemma DivideInRange(d: real, p: real)
    requires p > 0.0 && -p <= d <= p
    ensures -1.0 <= d / p <= 1.0
  {
    QuotientOrder(d, p, p);
    QuotientOrder(-p, d, p);
  }

  lemma ScoreInRange(l: seq<real>, r: seq<real>, leftRoot: real, rightRoot: real)
    requires Roots(l, r, leftRoot, rightRoot)
    ensures -1.0 <= Score(l, r, leftRoot, rightRoot) <= 1.0
  {
    hide Dot;
    var n := Common(l, r);
    var a, b := l[..n], r[..n];
    hide Norm;
    if Norm(a) != 0.0 && Norm(b) != 0.0 {
      RootsPositive(leftRoot, rightRoot, Norm(a), Norm(b));
      CauchySchwarzAlways(a, b);
      var p := leftRoot * rightRoot;
      assert p * p == Norm(a) * Norm(b) by { SquareOfProduct(leftRoot, rightRoot); }
      SquareOrder(Dot(a, b), p);
      DivideInRange(Dot(a, b), p);
    }
  }

  /** The law of cosines: the squared distance of two vectors is the sum of their squared lengths
      less twice their lengths times the score. */
  lemma LawOfCosines(l: seq<real>, r: seq<real>, leftRoot: real, rightRoot: real)
    requires Roots(l, r, leftRoot, rightRoot)
    ensures var n := Common(l, r);
      Norm(Minus(l[..n], r[..n])) ==
        Norm(l[..n]) + Norm(r[..n]) - 2.0 * (Score(l, r, leftRoot, rightRoot) * (leftRoot * rightRoot))
    ensures var n := Common(l, r);
      Norm(l[..n]) == 0.0 || Norm(r[..n]) == 0.0 ==> Score(l, r, leftRoot, rightRoot) == 0.0
  {
    var n := Common(l, r);
    var a, b := l[..n], r[..n];
    assert Scaled(1.0, b) == b;
    NormOfMinus(a, b, 1.0);
    NormPositive(a);
    NormPositive(b);
    if Norm(a) == 0.0 || Norm(b) == 0.0 {
      if Norm(b) == 0.0 {
        DotZero(a, b);
      } else {
        DotZero(b, a);
        DotSymmetric(a, b);
      }
    } else {
      hide Dot, Norm;
      RootsPositive(leftRoot, rightRoot, Norm(a), Norm(b));
      QuotientTimes(Dot(a, b), leftRoot * rightRoot);
    }
  }

  /** `cosineSimilarity`; the square roots it takes are given. */
  method CosineSimilarity(left: seq<real>, right: seq<real>, leftRoot: real, rightRoot: real)
      returns (score: real)
    requires Roots(left, right, leftRoot, rightRoot)
    ensures score == Score(left, right, leftRoot, rightRoot)
    ensures -1.0 <= score <= 1.0
  {
    ScoreInRange(left, right, leftRoot, rightRoot);
    var size := |left|;
    if |right| < size {
      size := |right|;
    }
    if size == 0 {
      return 0.0;
    }
    var dot, leftNorm, rightNorm := 0.0, 0.0, 0.0;
    for index := 0 to size
      invariant dot == Dot(left[..index], right[..index])
      invariant leftNorm == Norm(left[..index]) && rightNorm == Norm(right[..index])
    {
      var l, r := left[index], right[index];
      assert left[..index + 1][..index] == left[..index] && right[..index + 1][..index] == right[..index];
      dot := dot + l * r;
      leftNorm := leftNorm + l * l;
      rightNorm := rightNorm + r * r;
    }
    if leftNorm == 0.0 || rightNorm == 0.0 {
      return 0.0;
    }
    RootsPositive(leftRoot, rightRoot, leftNorm, rightNorm);
    return dot / (leftRoot * rightRoot);
  }

  lemma ScoreSymmetric(l: seq<real>, r: seq<real>, leftRoot: real, rightRoot: real)
    requires Roots(l, r, leftRoot, rightRoot)
    ensures Roots(r, l, rightRoot, leftRoot)
    ensures Score(r, l, rightRoot, leftRoot) == Score(l, r, leftRoot, rightRoot)
  {
    hide Dot, Norm;
    var n := Common(l, r);
    DotSymmetric(l[..n], r[..n]);
  }

  lemma ScaledZero(c: real, x: real)
    requires c != 0.0
    ensures c * c * x == 0.0 <==> x == 0.0
  {
    assert Times(Times(c, c), x) == c * c * x;
    hide Times;
    SquarePositive(c);
    ProductZero(Times(c, c), x);
  }

  lemma RootScaled(c: real, root: real, x: real)
    requires IsRoot(root, x) && c != 0.0
    ensures IsRoot((if c > 0.0 then c else -c) * root, c * c * x)
    ensures c * c * x == 0.0 <==> x == 0.0
  {
    SquareOfProduct(c, root);
    SquareOfProduct(-c, root);
    ScaledZero(c, x);
  }

  lemma CancelFactor(c: real, d: real, x: real, y: real)
    requires c != 0.0 && x > 0.0 && y > 0.0 && x * y > 0.0
    ensures var k := if c > 0.0 then c else -c;
      && (k * x) * y > 0.0
      && c * d / ((k * x) * y) == if c > 0.0 then d / (x * y) else -(d / (x * y))
  {
    var k := if c > 0.0 then c else -c;
    var p := x * y;
    assert (k * x) * y == k * p;
    assert k * p > 0.0;
    var q := d / p;
    assert q * p == d;
    if c > 0.0 {
      assert q * (k * p) == c * d;
    } else {
      assert -q * (k * p) == c * d;
    }
  }

  lemma ScaledRoots(c: real, l: seq<real>, r: seq<real>, leftRoot: real, rightRoot: real)
    requires Roots(l, r, leftRoot, rightRoot) && c != 0.0
    ensures Roots(Scaled(c, l), r, (if c > 0.0 then c else -c) * leftRoot, rightRoot)
  {
    var n := Common(l, r);
    ScaledPrefix(c, l, n);
    NormScaled(c, l[..n]);
    hide Dot, Norm, Scaled, IsRoot;
    RootScaled(c, leftRoot, Norm(l[..n]));
  }

  lemma ScaledQuotient(c: real, d: real, e: real, x: real, y: real, s: real, t: real)
    requires c != 0.0 && x > 0.0 && y > 0.0 && x * y > 0.0 && e == c * d && s == d / (x * y)
    requires var root := (if c > 0.0 then c else -c) * x; root * y > 0.0 && t == e / (root * y)
    ensures t == if c > 0.0 then s else -s
  {
    CancelFactor(c, d, x, y);
  }

  lemma ScoreIs(l: seq<real>, r: seq<real>, leftRoot: real, rightRoot: real, a: seq<real>, b: seq<real>)
    requires Roots(l, r, leftRoot, rightRoot) && a == l[..Common(l, r)] && b == r[..Common(l, r)]
    ensures Norm(a) == 0.0 || Norm(b) == 0.0 ==> Score(l, r, leftRoot, rightRoot) == 0.0
    ensures Norm(a) != 0.0 && Norm(b) != 0.0 ==>
      leftRoot * rightRoot > 0.0 && Score(l, r, leftRoot, rightRoot) == Dot(a, b) / (leftRoot * rightRoot)
  {
    hide Dot, Norm;
    if Norm(a) != 0.0 && Norm(b) != 0.0 {
      RootsPositive(leftRoot, rightRoot, Norm(a), Norm(b));
    }
  }

  /** Scaling a vector by a positive factor does not change its score, and scaling it by a
      negative one negates it. */
  lemma ScoreScaled(c: real, l: seq<real>, r: seq<real>, leftRoot: real, rightRoot: real)
    requires Roots(l, r, leftRoot, rightRoot) && c != 0.0
    ensures var root := (if c > 0.0 then c else -c) * leftRoot;
      && Roots(Scaled(c, l), r, root, rightRoot)
      && Score(Scaled(c, l), r, root, rightRoot) ==
           if c > 0.0 then Score(l, r, leftRoot, rightRoot) else -Score(l, r, leftRoot, rightRoot)
  {
    var n := Common(l, r);
    var a, b := l[..n], r[..n];
    ScaledRoots(c, l, r, leftRoot, rightRoot);
    ScaledPrefix(c, l, n);
    NormScaled(c, a);
    DotScaled(c, a, b);
    RootScaled(c, leftRoot, Norm(a));
    var root := (if c > 0.0 then c else -c) * leftRoot;
    ScoreIs(l, r, leftRoot, rightRoot, a, b);
    ScoreIs(Scaled(c, l), r, root, rightRoot, Scaled(c, a), b);
    if Norm(a) != 0.0 && Norm(b) != 0.0 {
      RootsPositive(leftRoot, rightRoot, Norm(a), Norm(b));
      hide Dot, Norm, Scaled, Roots, Score;
      ScaledQuotient(c, Dot(a, b), Dot(Scaled(c, a), b), leftRoot, rightRoot,
                     Score(l, r, leftRoot, rightRoot), Score(Scaled(c, l), r, root, rightRoot));
    }
  }

  lemma OneIsEqual(d: real, p: real)
    requires p > 0.0
    ensures d / p == 1.0 <==> d == p
  {
    assert d / p * p == d;
  }

  lemma QuotientPositive(d: real, b: real)
    requires d > 0.0 && b > 0.0
    ensures d / b > 0.0
  {
  }

  lemma ParallelWhenFull(a: seq<real>, b: seq<real>, p: real)
    requires |a| == |b| && Norm(b) != 0.0 && p * p == Norm(a) * Norm(b) && Dot(a, b) == p
    ensures a == Scaled(Dot(a, b) / Norm(b), b)
  {
    hide Dot, Norm, Scaled;
    CauchySchwarz(a, b);
  }

  lemma NormIs(v: seq<real>)
    ensures Norm(v) == Dot(v, v)
  {
    hide Dot;
  }

  lemma SameSquare(d: real, c: real, m: real, n: real, p: real)
    requires c > 0.0 && m > 0.0 && p > 0.0 && d == c * m && n == c * c * m && p * p == n * m
    ensures d == p
  {
    SquareOfProduct(c, m);
    assert (c * c * m) * m == (c * c) * (m * m);
    TimesPositive(c, m);
    assert Times(c, m) == d;
    SquareOrder(d, p);
    SquareOrder(p, d);
  }

  lemma FullWhenParallel(a: seq<real>, b: seq<real>, p: real, c: real)
    requires |a| == |b| && Norm(b) > 0.0 && p > 0.0 && p * p == Norm(a) * Norm(b)
    requires c > 0.0 && a == Scaled(c, b)
    ensures Dot(a, b) == p
  {
    DotScaled(c, b, b);
    NormScaled(c, b);
    NormIs(b);
    hide Dot, Scaled, Norm;
    SameSquare(Dot(a, b), c, Norm(b), Norm(a), p);
  }

  /** The score is 1 exactly if one vector is a positive multiple of the other on the
      common positions: nothing scores higher than a vector's own direction. */
  lemma FullScoreIsParallel(l: seq<real>, r: seq<real>, leftRoot: real, rightRoot: real)
    requires Roots(l, r, leftRoot, rightRoot)
    requires var n := Common(l, r); Norm(l[..n]) != 0.0 && Norm(r[..n]) != 0.0
    ensures var n := Common(l, r);
      Score(l, r, leftRoot, rightRoot) == 1.0 <==>
        exists c: real :: c > 0.0 && l[..n] == Scaled(c, r[..n])
  {
    var n := Common(l, r);
    var a, b, p := l[..n], r[..n], leftRoot * rightRoot;
    NormPositive(b);
    RootsPositive(leftRoot, rightRoot, Norm(a), Norm(b));
    SquareOfProduct(leftRoot, rightRoot);
    ScoreIs(l, r, leftRoot, rightRoot, a, b);
    hide Dot, Norm, Score, Scaled, Roots;
    OneIsEqual(Dot(a, b), p);
    if Dot(a, b) == p {
      ParallelWhenFull(a, b, p);
      QuotientPositive(p, Norm(b));
    }
    if c: real :| c > 0.0 && a == Scaled(c, b) {
      FullWhenParallel(a, b, p, c);
    }
  }
}
