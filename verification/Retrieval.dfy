/** app/ai/embeddings.py, app/ai/retrieval.py: cosine similarity over exact reals. The square root is a
    parameter, of which only its defining law is used; so is the hash. */
module Vectors {

  ghost predicate IsSqrt(sqrt: real -> real) {
    forall x: real {:trigger sqrt(x)} :: x >= 0.0 ==> sqrt(x) >= 0.0 && sqrt(x) * sqrt(x) == x
  }

  /** `sum(x * y for x, y in zip(a, b))`: the longer vector is cut to the shorter. */
  function Dot(a: seq<real>, b: seq<real>): real {
    if a == [] || b == [] then 0.0 else a[0] * b[0] + Dot(a[1..], b[1..])
  }

  function Norm(sqrt: real -> real, a: seq<real>): real {
    sqrt(Dot(a, a))
  }

  function CosineSimilarity(sqrt: real -> real, a: seq<real>, b: seq<real>): real {
    Ratio(Dot(a, b), Norm(sqrt, a), Norm(sqrt, b))
  }

  /** The dot product over the norms, and 0 when one of them is 0. */
  function Ratio(dot: real, na: real, nb: real): real {
    if na == 0.0 || nb == 0.0 then 0.0 else dot / (na * nb)
  }

  /** The inequality of Cauchy and Schwarz, for a dot product and two squared norms. */
  predicate Bounded(dot: real, aa: real, bb: real) {
    dot * dot <= aa * bb
  }

  // ----- real arithmetic

  lemma SquareIsNonNegative(x: real)
    ensures x * x >= 0.0
  {
  }

  lemma StrictSquares(p: real, q: real)
    requires 0.0 <= p < q
    ensures p * p < q * q
  {
    assert q * q - p * p == (q - p) * (q + p);
    PositiveProduct(q - p, q + p);
  }

  lemma PositiveProduct(x: real, y: real)
    requires x > 0.0 && y > 0.0
    ensures x * y > 0.0
  {
  }

  lemma SquareOrder(p: real, q: real)
    requires p >= 0.0 && q * q <= p * p
    ensures -p <= q <= p
  {
    if q > p {
      StrictSquares(p, q);
    } else if -q > p {
      StrictSquares(p, -q);
      NegativeSquare(q);
    }
  }

  lemma NegativeSquare(q: real)
    ensures (-q) * (-q) == q * q
  {
  }

  lemma ProductOrder(u: real, v: real, w: real)
    requires u >= 0.0 && v <= w
    ensures u * v <= u * w
  {
    assert u * (w - v) >= 0.0;
  }

  /** The cross terms of the induction step. */
  lemma CrossTerms(s: real, t: real, a: real, b: real, m: real)
    requires s >= 0.0 && t >= 0.0 && a >= 0.0 && b >= 0.0
    requires m * m <= (s * t) * (a * b)
    ensures 2.0 * m <= s * b + a * t
  {
    var u, v := s * b, a * t;
    assert u >= 0.0 && v >= 0.0;
    assert u * v == (s * t) * (a * b);
    SquareIsNonNegative(u - v);
    assert (u + v) * (u + v) - 4.0 * (u * v) == (u - v) * (u - v);
    assert (2.0 * m) * (2.0 * m) == 4.0 * (m * m);
    SquareOrder(u + v, 2.0 * m);
  }

  lemma SquareOfProduct(x: real, y: real)
    ensures (x * y) * (x * y) == (x * x) * (y * y)
  {
  }

  lemma CrossBound(p: real, d: real, s: real, t: real, a: real, b: real)
    requires s >= 0.0 && t >= 0.0 && a >= 0.0 && b >= 0.0
    requires p * p == s * t && d * d <= a * b
    ensures 2.0 * (p * d) <= s * b + a * t
  {
    SquareOfProduct(p, d);
    SquareIsNonNegative(p);
    ProductOrder(p * p, d * d, a * b);
    CrossTerms(s, t, a, b, p * d);
  }

  lemma ExpandStep(p: real, d: real, s: real, t: real, a: real, b: real)
    requires p * p == s * t && d * d <= a * b && 2.0 * (p * d) <= s * b + a * t
    ensures (p + d) * (p + d) <= (s + a) * (t + b)
  {
    assert (p + d) * (p + d) == p * p + 2.0 * (p * d) + d * d;
    assert (s + a) * (t + b) == s * t + s * b + a * t + a * b;
  }

  lemma CauchySchwarzStep(x: real, y: real, d: real, a: real, b: real)
    requires a >= 0.0 && b >= 0.0 && Bounded(d, a, b)
    ensures Bounded(x * y + d, x * x + a, y * y + b)
  {
    SquareIsNonNegative(x);
    SquareIsNonNegative(y);
    SquareOfProduct(x, y);
    CrossBound(x * y, d, x * x, y * y, a, b);
    ExpandStep(x * y, d, x * x, y * y, a, b);
  }

  // ----- vectors

  lemma {:induction false} SquaresAreNonNegative(a: seq<real>)
    ensures Dot(a, a) >= 0.0
  {
    if a != [] {
      SquaresAreNonNegative(a[1..]);
      SquareIsNonNegative(a[0]);
    }
  }

  /** Cauchy-Schwarz, for vectors of any two lengths. */
  lemma {:induction false} CauchySchwarz(a: seq<real>, b: seq<real>)
    ensures Bounded(Dot(a, b), Dot(a, a), Dot(b, b))
  {
    SquaresAreNonNegative(a);
    SquaresAreNonNegative(b);
    if a == [] || b == [] {
      assert Dot(a, b) == 0.0;
      ProductOrder(Dot(a, a), 0.0, Dot(b, b));
    } else {
      CauchySchwarz(a[1..], b[1..]);
      SquaresAreNonNegative(a[1..]);
      SquaresAreNonNegative(b[1..]);
      CauchySchwarzStep(a[0], b[0], Dot(a[1..], b[1..]), Dot(a[1..], a[1..]), Dot(b[1..], b[1..]));
    }
  }

  lemma QuotientRange(d: real, n: real)
    requires n > 0.0 && -n <= d <= n
    ensures -1.0 <= d / n <= 1.0
    ensures d / n > 0.0 <==> d > 0.0
    ensures d / n < 0.0 <==> d < 0.0
  {
    assert d / n * n == d;
  }

  lemma ProductOfNorms(na: real, nb: real, d: real)
    requires na >= 0.0 && nb >= 0.0 && Bounded(d, na * na, nb * nb)
    ensures -(na * nb) <= d <= na * nb
    ensures na == 0.0 || nb == 0.0 ==> d == 0.0
    ensures na != 0.0 && nb != 0.0 ==> na * nb > 0.0
  {
    SquareOfProduct(na, nb);
    SquareOrder(na * nb, d);
  }

  // ----- what a similarity is worth

  lemma NormIsLength(sqrt: real -> real, a: seq<real>)
    requires IsSqrt(sqrt)
    ensures Norm(sqrt, a) >= 0.0 && Norm(sqrt, a) * Norm(sqrt, a) == Dot(a, a)
  {
    SquaresAreNonNegative(a);
  }

  /** One more pair of coordinates adds its product. */
  lemma {:induction false} DotSnoc(a: seq<real>, b: seq<real>, x: real, y: real)
    requires |a| == |b|
    ensures Dot(a + [x], b + [y]) == Dot(a, b) + x * y
  {
    if a != [] {
      assert (a + [x])[1..] == a[1..] + [x] && (b + [y])[1..] == b[1..] + [y];
      DotSnoc(a[1..], b[1..], x, y);
    } else {
      assert (a + [x])[1..] == [] && (b + [y])[1..] == [];
    }
  }

  /** Coordinates without a partner do not count. */
  lemma {:induction false} DotCuts(a: seq<real>, b: seq<real>, n: nat)
    requires n <= |a| && n <= |b| && (n == |a| || n == |b|)
    ensures Dot(a, b) == Dot(a[..n], b[..n])
  {
    if n > 0 {
      DotCuts(a[1..], b[1..], n - 1);
      assert a[..n][1..] == a[1..][..n - 1] && b[..n][1..] == b[1..][..n - 1];
    }
  }

  lemma QuotientTimes(d: real, n: real)
    requires n != 0.0
    ensures d / n * n == d
  {
  }

  lemma NonZeroProduct(x: real, y: real)
    requires x != 0.0 && y != 0.0
    ensures x * y != 0.0
  {
  }

  /** A number that times both lengths is the dot product. */
  predicate IsQuotient(r: real, na: real, nb: real, dot: real) {
    r * (na * nb) == dot
  }

  lemma RatioIsQuotient(dot: real, na: real, nb: real)
    requires na != 0.0 && nb != 0.0
    ensures IsQuotient(Ratio(dot, na, nb), na, nb, dot)
  {
    NonZeroProduct(na, nb);
    QuotientTimes(dot, na * nb);
  }

  /** The similarity times both lengths is the dot product; without a length it is 0. */
  lemma CosineIsQuotient(sqrt: real -> real, a: seq<real>, b: seq<real>)
    ensures Norm(sqrt, a) != 0.0 && Norm(sqrt, b) != 0.0 ==>
      IsQuotient(CosineSimilarity(sqrt, a, b), Norm(sqrt, a), Norm(sqrt, b), Dot(a, b))
    ensures Norm(sqrt, a) == 0.0 || Norm(sqrt, b) == 0.0 ==> CosineSimilarity(sqrt, a, b) == 0.0
  {
    if Norm(sqrt, a) != 0.0 && Norm(sqrt, b) != 0.0 {
      RatioIsQuotient(Dot(a, b), Norm(sqrt, a), Norm(sqrt, b));
    }
  }

  lemma ScaleOrder(u: real, v: real, w: real)
    requires w > 0.0
    ensures u >= v <==> u * w >= v * w
  {
    assert (u - v) * w == u * w - v * w;
  }

  lemma Regroup(u: real, q: real, x: real, y: real)
    ensures u * (q * x) * y == u * (q * x * y)
  {
  }

  lemma Swap(q: real, x: real, y: real)
    ensures q * y * x == q * x * y
  {
  }

  /** A dot product that is as large for its length as another: dx / x >= dy / y, without dividing. */
  predicate AsClose(dx: real, x: real, dy: real, y: real) {
    dx * y >= dy * x
  }

  lemma QuotientOrder(u: real, v: real, q: real, x: real, y: real, dx: real, dy: real)
    requires q > 0.0 && x > 0.0 && y > 0.0
    requires IsQuotient(u, q, x, dx) && IsQuotient(v, q, y, dy)
    ensures u >= v <==> AsClose(dx, x, dy, y)
  {
    PositiveProduct(q, x);
    PositiveProduct(q * x, y);
    ScaleOrder(u, v, q * x * y);
    Regroup(u, q, x, y);
    Regroup(v, q, y, x);
    Swap(q, x, y);
  }

  lemma ZeroIsAsClose(x: real, y: real)
    ensures AsClose(0.0, x, 0.0, y)
  {
  }

  /** Which of two vectors a query is closer to, told by dot products and lengths alone. */
  lemma CosineOrder(sqrt: real -> real, q: seq<real>, x: seq<real>, y: seq<real>)
    requires IsSqrt(sqrt) && Norm(sqrt, x) != 0.0 && Norm(sqrt, y) != 0.0
    ensures CosineSimilarity(sqrt, q, x) >= CosineSimilarity(sqrt, q, y) <==>
      AsClose(Dot(q, x), Norm(sqrt, x), Dot(q, y), Norm(sqrt, y))
  {
    NormIsLength(sqrt, q);
    NormIsLength(sqrt, x);
    NormIsLength(sqrt, y);
    CosineIsQuotient(sqrt, q, x);
    CosineIsQuotient(sqrt, q, y);
    if Norm(sqrt, q) == 0.0 {
      NothingAlongZero(sqrt, q, x);
      NothingAlongZero(sqrt, q, y);
      ZeroIsAsClose(Norm(sqrt, x), Norm(sqrt, y));
    } else {
      QuotientOrder(CosineSimilarity(sqrt, q, x), CosineSimilarity(sqrt, q, y),
                    Norm(sqrt, q), Norm(sqrt, x), Norm(sqrt, y), Dot(q, x), Dot(q, y));
    }
  }

  lemma NothingAlongZero(sqrt: real -> real, q: seq<real>, x: seq<real>)
    requires IsSqrt(sqrt) && Norm(sqrt, q) == 0.0
    ensures Dot(q, x) == 0.0
  {
    NormIsLength(sqrt, q);
    NormIsLength(sqrt, x);
    CauchySchwarz(q, x);
    ProductOfNorms(Norm(sqrt, q), Norm(sqrt, x), Dot(q, x));
  }

  /** Cosine similarity lies between -1 and 1, has the sign of the dot product, and is the dot product
      over both lengths. */
  lemma CosineRange(sqrt: real -> real, a: seq<real>, b: seq<real>)
    requires IsSqrt(sqrt)
    ensures -1.0 <= CosineSimilarity(sqrt, a, b) <= 1.0
    ensures CosineSimilarity(sqrt, a, b) > 0.0 <==> Dot(a, b) > 0.0
    ensures Dot(a, b) >= 0.0 ==> CosineSimilarity(sqrt, a, b) >= 0.0
    ensures Norm(sqrt, a) != 0.0 && Norm(sqrt, b) != 0.0 ==>
      IsQuotient(CosineSimilarity(sqrt, a, b), Norm(sqrt, a), Norm(sqrt, b), Dot(a, b))
  {
    CosineIsQuotient(sqrt, a, b);
    SquaresAreNonNegative(a);
    SquaresAreNonNegative(b);
    CauchySchwarz(a, b);
    RangeFromNorms(Dot(a, b), Norm(sqrt, a), Norm(sqrt, b));
  }

  lemma RangeFromNorms(d: real, na: real, nb: real)
    requires na >= 0.0 && nb >= 0.0 && Bounded(d, na * na, nb * nb)
    ensures -1.0 <= Ratio(d, na, nb) <= 1.0
    ensures Ratio(d, na, nb) > 0.0 <==> d > 0.0
    ensures d >= 0.0 ==> Ratio(d, na, nb) >= 0.0
  {
    ProductOfNorms(na, nb, d);
    if na != 0.0 && nb != 0.0 {
      QuotientRange(d, na * nb);
    }
  }

  predicate NonNegative(a: seq<real>) {
    forall i :: 0 <= i < |a| ==> a[i] >= 0.0
  }

  predicate Overlap(a: seq<real>, b: seq<real>) {
    exists i :: 0 <= i < |a| && i < |b| && a[i] > 0.0 && b[i] > 0.0
  }

  lemma ProductSign(x: real, y: real)
    requires x >= 0.0 && y >= 0.0
    ensures x * y >= 0.0
    ensures x * y > 0.0 <==> x > 0.0 && y > 0.0
  {
  }

  lemma OverlapStep(a: seq<real>, b: seq<real>)
    requires a != [] && b != []
    ensures Overlap(a, b) <==> (a[0] > 0.0 && b[0] > 0.0) || Overlap(a[1..], b[1..])
  {
    if Overlap(a, b) {
      var i :| 0 <= i < |a| && i < |b| && a[i] > 0.0 && b[i] > 0.0;
      if i > 0 {
        assert a[1..][i - 1] > 0.0 && b[1..][i - 1] > 0.0;
      }
    }
    if Overlap(a[1..], b[1..]) {
      var i :| 0 <= i < |a[1..]| && i < |b[1..]| && a[1..][i] > 0.0 && b[1..][i] > 0.0;
      assert a[i + 1] > 0.0 && b[i + 1] > 0.0;
    }
  }

  /** Of non-negative vectors, the dot product is positive exactly when they overlap. */
  lemma {:induction false} PositiveIffOverlap(a: seq<real>, b: seq<real>)
    requires NonNegative(a) && NonNegative(b)
    ensures Dot(a, b) >= 0.0
    ensures Dot(a, b) > 0.0 <==> Overlap(a, b)
  {
    if a != [] && b != [] {
      PositiveIffOverlap(a[1..], b[1..]);
      OverlapStep(a, b);
      ProductSign(a[0], b[0]);
    }
  }
}

module Embeddings {
  import opened Vectors

  const EMBEDDING_DIM: nat := 256

  function Bucket(md5: string -> nat, token: string): nat {
    md5(token) % EMBEDDING_DIM
  }

  /** How many tokens hash to a bucket. */
  function CountIn(md5: string -> nat, tokens: seq<string>, bucket: nat): nat {
    if tokens == [] then 0
    else
      var n := |tokens| - 1;
      CountIn(md5, tokens[..n], bucket) + if Bucket(md5, tokens[n]) == bucket then 1 else 0
  }

  function Counts(md5: string -> nat, tokens: seq<string>): seq<real> {
    seq(EMBEDDING_DIM, b requires 0 <= b < EMBEDDING_DIM => CountIn(md5, tokens, b) as real)
  }

  function Scaled(vec: seq<real>, norm: real): seq<real>
    requires norm != 0.0
  {
    seq(|vec|, i requires 0 <= i < |vec| => vec[i] / norm)
  }

  function Normalized(sqrt: real -> real, vec: seq<real>): seq<real> {
    var norm := Norm(sqrt, vec);
    if norm == 0.0 then vec else Scaled(vec, norm)
  }

  /** `embed`, given the tokens of the text. */
  function Embed(md5: string -> nat, sqrt: real -> real, tokens: seq<string>): seq<real> {
    Normalized(sqrt, Counts(md5, tokens))
  }

  /** Adds 1 to the bucket of each token, then divides by the norm. */
  method EmbedTokens(md5: string -> nat, sqrt: real -> real, tokens: seq<string>) returns (embedding: seq<real>)
    ensures embedding == Embed(md5, sqrt, tokens)
  {
    var vec := new real[EMBEDDING_DIM](_ => 0.0);
    for i := 0 to |tokens|
      invariant forall b :: 0 <= b < EMBEDDING_DIM ==> vec[b] == CountIn(md5, tokens[..i], b) as real
    {
      assert tokens[..i + 1][..i] == tokens[..i];
      var b := Bucket(md5, tokens[i]);
      vec[b] := vec[b] + 1.0;
    }
    assert tokens[..|tokens|] == tokens;
    assert vec[..] == Counts(md5, tokens);
    var norm := Norm(sqrt, vec[..]);
    if norm == 0.0 {
      return vec[..];
    }
    embedding := Scaled(vec[..], norm);
  }

  predicate SharesBucket(md5: string -> nat, x: seq<string>, y: seq<string>) {
    exists i, j :: 0 <= i < |x| && 0 <= j < |y| && md5(x[i]) % 256 == md5(y[j]) % 256
  }

  lemma {:induction false} CountedIffPresent(md5: string -> nat, tokens: seq<string>, bucket: nat)
    ensures CountIn(md5, tokens, bucket) > 0 <==> exists i :: 0 <= i < |tokens| && Bucket(md5, tokens[i]) == bucket
  {
    if tokens != [] {
      var n := |tokens| - 1;
      CountedIffPresent(md5, tokens[..n], bucket);
      if CountIn(md5, tokens[..n], bucket) > 0 {
        var i :| 0 <= i < n && Bucket(md5, tokens[..n][i]) == bucket;
        assert Bucket(md5, tokens[i]) == bucket;
      }
      if i :| 0 <= i < |tokens| && Bucket(md5, tokens[i]) == bucket {
        assert i < n ==> tokens[..n][i] == tokens[i];
      }
    }
  }

  /** The tokens of a text that hash to a bucket. */
  function TokensIn(md5: string -> nat, tokens: seq<string>, bucket: nat): set<nat> {
    set i | 0 <= i < |tokens| && md5(tokens[i]) % 256 == bucket
  }

  lemma {:induction false} CountIsTheirNumber(md5: string -> nat, tokens: seq<string>, bucket: nat)
    ensures CountIn(md5, tokens, bucket) == |TokensIn(md5, tokens, bucket)|
  {
    if tokens != [] {
      var n := |tokens| - 1;
      CountIsTheirNumber(md5, tokens[..n], bucket);
      var here := if md5(tokens[n]) % 256 == bucket then {n} else {};
      assert TokensIn(md5, tokens, bucket) == TokensIn(md5, tokens[..n], bucket) + here;
    } else {
      assert TokensIn(md5, tokens, bucket) == {};
    }
  }

  /** Entry by entry: the number of tokens in the bucket, over the length of these numbers. */
  lemma EmbedEntry(md5: string -> nat, sqrt: real -> real, tokens: seq<string>, bucket: nat) returns (length: real)
    requires IsSqrt(sqrt) && tokens != [] && bucket < 256
    ensures |Embed(md5, sqrt, tokens)| == 256 && length > 0.0
    ensures length * length == Dot(Counts(md5, tokens), Counts(md5, tokens))
    ensures Embed(md5, sqrt, tokens)[bucket] * length == |TokensIn(md5, tokens, bucket)| as real
  {
    var counts := Counts(md5, tokens);
    length := Norm(sqrt, counts);
    NormIsLength(sqrt, counts);
    SomethingCounted(md5, tokens);
    QuotientTimes(counts[bucket], length);
    CountIsTheirNumber(md5, tokens, bucket);
  }

  lemma SomethingCounted(md5: string -> nat, tokens: seq<string>)
    requires tokens != []
    ensures Dot(Counts(md5, tokens), Counts(md5, tokens)) > 0.0
  {
    var vec, b := Counts(md5, tokens), Bucket(md5, tokens[0]);
    CountedIffPresent(md5, tokens, b);
    assert vec[b] > 0.0;
    assert Overlap(vec, vec);
    PositiveIffOverlap(vec, vec);
  }

  lemma DivisionSign(x: real, n: real)
    requires x >= 0.0 && n > 0.0
    ensures x / n >= 0.0
    ensures x / n > 0.0 <==> x > 0.0
  {
    assert x / n * n == x;
  }

  /** Normalizing keeps which entries are positive. */
  lemma NormalizedSigns(sqrt: real -> real, vec: seq<real>)
    requires IsSqrt(sqrt) && NonNegative(vec)
    ensures |Normalized(sqrt, vec)| == |vec| && NonNegative(Normalized(sqrt, vec))
    ensures forall i :: 0 <= i < |vec| ==> (Normalized(sqrt, vec)[i] > 0.0 <==> vec[i] > 0.0)
  {
    SquaresAreNonNegative(vec);
    var norm := Norm(sqrt, vec);
    if norm != 0.0 {
      forall i | 0 <= i < |vec|
        ensures Normalized(sqrt, vec)[i] >= 0.0 && (Normalized(sqrt, vec)[i] > 0.0 <==> vec[i] > 0.0)
      {
        DivisionSign(vec[i], norm);
      }
    }
  }

  predicate IsProduct(x: real, y: real, xy: real) {
    x * y == xy
  }

  lemma ScaledProduct(x: real, norm: real, squares: real)
    requires norm != 0.0 && squares == norm * norm
    ensures (x / norm) * (x / norm) * squares == x * x
  {
    var y := x / norm;
    assert y * norm == x;
    assert y * y * (norm * norm) == (y * norm) * (y * norm);
  }

  lemma Factor(a: real, b: real, c: real)
    ensures (a + b) * c == a * c + b * c
  {
  }

  lemma {:induction false} ScaledSquares(vec: seq<real>, norm: real, squares: real)
    requires norm != 0.0 && squares == norm * norm
    ensures IsProduct(Dot(Scaled(vec, norm), Scaled(vec, norm)), squares, Dot(vec, vec))
  {
    if vec != [] {
      var scaled := Scaled(vec, norm);
      ScaledSquares(vec[1..], norm, squares);
      assert scaled[1..] == Scaled(vec[1..], norm);
      ScaledProduct(vec[0], norm, squares);
      Factor(scaled[0] * scaled[0], Dot(scaled[1..], scaled[1..]), squares);
    }
  }

  lemma CancelFactor(u: real, q: real)
    requires q > 0.0 && IsProduct(u, q, q)
    ensures u == 1.0
  {
    assert (u - 1.0) * q == 0.0;
  }

  /** The embedding of a text has length one, unless the text has no tokens: then it is all zeros. */
  lemma EmbedIsUnit(md5: string -> nat, sqrt: real -> real, tokens: seq<string>)
    requires IsSqrt(sqrt)
    ensures |Embed(md5, sqrt, tokens)| == EMBEDDING_DIM
    ensures tokens != [] ==> Dot(Embed(md5, sqrt, tokens), Embed(md5, sqrt, tokens)) == 1.0
    ensures tokens == [] ==> forall i :: 0 <= i < EMBEDDING_DIM ==> Embed(md5, sqrt, tokens)[i] == 0.0
  {
    var vec := Counts(md5, tokens);
    var norm := Norm(sqrt, vec);
    SquaresAreNonNegative(vec);
    PositiveIffOverlap(vec, vec);
    if tokens == [] {
      assert !Overlap(vec, vec);
      assert norm * norm == 0.0;
    } else {
      var b := Bucket(md5, tokens[0]);
      CountedIffPresent(md5, tokens, b);
      assert vec[b] > 0.0;
      assert Overlap(vec, vec);
      ScaledSquares(vec, norm, Dot(vec, vec));
      CancelFactor(Dot(Scaled(vec, norm), Scaled(vec, norm)), Dot(vec, vec));
    }
  }

  /** The similarity of two texts lies between 0 and 1, and is positive exactly when some token of one
      shares a hash bucket with some token of the other. */
  lemma SimilarIffBucketShared(md5: string -> nat, sqrt: real -> real, x: seq<string>, y: seq<string>)
    requires IsSqrt(sqrt)
    ensures var similarity := CosineSimilarity(sqrt, Embed(md5, sqrt, x), Embed(md5, sqrt, y));
      0.0 <= similarity <= 1.0 && (similarity > 0.0 <==> SharesBucket(md5, x, y))
  {
    var a, b := Embed(md5, sqrt, x), Embed(md5, sqrt, y);
    NormalizedSigns(sqrt, Counts(md5, x));
    NormalizedSigns(sqrt, Counts(md5, y));
    CosineRange(sqrt, a, b);
    PositiveIffOverlap(a, b);
    OverlapIffBucketShared(md5, sqrt, x, y);
  }

  lemma OverlapIffBucketShared(md5: string -> nat, sqrt: real -> real, x: seq<string>, y: seq<string>)
    requires IsSqrt(sqrt)
    ensures Overlap(Embed(md5, sqrt, x), Embed(md5, sqrt, y)) <==> SharesBucket(md5, x, y)
  {
    var a, b := Embed(md5, sqrt, x), Embed(md5, sqrt, y);
    NormalizedSigns(sqrt, Counts(md5, x));
    NormalizedSigns(sqrt, Counts(md5, y));
    if Overlap(a, b) {
      var k :| 0 <= k < |a| && k < |b| && a[k] > 0.0 && b[k] > 0.0;
      CountedIffPresent(md5, x, k);
      CountedIffPresent(md5, y, k);
    }
    if SharesBucket(md5, x, y) {
      var i, j :| 0 <= i < |x| && 0 <= j < |y| && md5(x[i]) % 256 == md5(y[j]) % 256;
      var k := Bucket(md5, x[i]);
      CountedIffPresent(md5, x, k);
      CountedIffPresent(md5, y, k);
      assert a[k] > 0.0 && b[k] > 0.0;
    }
  }

  lemma {:induction false} CountWithout(md5: string -> nat, tokens: seq<string>, j: nat, bucket: nat)
    requires j < |tokens|
    ensures CountIn(md5, tokens, bucket) ==
      CountIn(md5, tokens[..j] + tokens[j + 1..], bucket) + if Bucket(md5, tokens[j]) == bucket then 1 else 0
  {
    var n := |tokens| - 1;
    if j == n {
      assert tokens[..j] + tokens[j + 1..] == tokens[..n];
    } else {
      CountWithout(md5, tokens[..n], j, bucket);
      assert (tokens[..j] + tokens[j + 1..])[..n - 1] == tokens[..n][..j] + tokens[..n][j + 1..];
    }
  }

  lemma CancelOne(a: multiset<string>, b: multiset<string>, e: string)
    requires a + multiset{e} == b + multiset{e}
    ensures a == b
  {
    assert a == (a + multiset{e}) - multiset{e};
    assert b == (b + multiset{e}) - multiset{e};
  }

  lemma {:induction false} CountIgnoresOrder(md5: string -> nat, x: seq<string>, y: seq<string>, bucket: nat)
    requires multiset(x) == multiset(y)
    ensures CountIn(md5, x, bucket) == CountIn(md5, y, bucket)
    decreases |x|
  {
    if x == [] {
      assert |multiset(y)| == 0;
    } else {
      var n := |x| - 1;
      assert x == x[..n] + [x[n]];
      assert x[n] in multiset(y);
      var j :| 0 <= j < |y| && y[j] == x[n];
      var rest := y[..j] + y[j + 1..];
      assert y == y[..j] + [y[j]] + y[j + 1..];
      assert multiset(rest) + multiset{y[j]} == multiset(y);
      assert multiset(x[..n]) + multiset{x[n]} == multiset(x);
      CancelOne(multiset(rest), multiset(x[..n]), x[n]);
      CountIgnoresOrder(md5, x[..n], rest, bucket);
      CountWithout(md5, y, j, bucket);
    }
  }

  /** The embedding does not depend on the order of the tokens. */
  lemma EmbedIgnoresOrder(md5: string -> nat, sqrt: real -> real, x: seq<string>, y: seq<string>)
    requires multiset(x) == multiset(y)
    ensures Embed(md5, sqrt, x) == Embed(md5, sqrt, y)
  {
    forall b | 0 <= b < EMBEDDING_DIM ensures CountIn(md5, x, b) == CountIn(md5, y, b) {
      CountIgnoresOrder(md5, x, y, b);
    }
    assert Counts(md5, x) == Counts(md5, y);
  }
}

/** Ranking by score: Python's stable `sort(reverse=True)`, the slice, and the filter of the chat. */
module Ranking {
  import opened Vectors

  datatype Item = Item(id: string, embedding: seq<real>, content: string)

  datatype Scored = Scored(id: string, score: real, content: string)

  function Score(sqrt: real -> real, query: seq<real>, item: Item): Scored {
    Scored(item.id, CosineSimilarity(sqrt, query, item.embedding), item.content)
  }

  function Scores(sqrt: real -> real, query: seq<real>, items: seq<Item>): seq<Scored> {
    seq(|items|, i requires 0 <= i < |items| => Score(sqrt, query, items[i]))
  }

  /** Before the first item that does not score higher. */
  function Insert(x: Scored, ys: seq<Scored>): seq<Scored> {
    if ys == [] || ys[0].score <= x.score then [x] + ys else [ys[0]] + Insert(x, ys[1..])
  }

  /** `sort(key=score, reverse=True)`: highest first, equal scores in their old order. */
  function SortDesc(xs: seq<Scored>): seq<Scored> {
    if xs == [] then [] else Insert(xs[0], SortDesc(xs[1..]))
  }

  /** `xs[:k]`; a negative k drops from the end. */
  function Slice(xs: seq<Scored>, k: int): seq<Scored> {
    if k >= |xs| then xs else if k >= 0 then xs[..k] else if |xs| + k > 0 then xs[..|xs| + k] else []
  }

  /** The items with a positive score. */
  function Related(xs: seq<Scored>): seq<Scored> {
    if xs == [] then [] else (if xs[0].score > 0.0 then [xs[0]] else []) + Related(xs[1..])
  }

  /** The items with one score, in order. */
  function WithScore(xs: seq<Scored>, score: real): seq<Scored> {
    if xs == [] then [] else (if xs[0].score == score then [xs[0]] else []) + WithScore(xs[1..], score)
  }

  predicate Descending(xs: seq<Scored>) {
    forall i, j :: 0 <= i < j < |xs| ==> xs[i].score >= xs[j].score
  }

  /** `rank`. */
  method Rank(sqrt: real -> real, query: seq<real>, items: seq<Item>, topK: int) returns (ranked: seq<Scored>)
    ensures ranked == Slice(SortDesc(Scores(sqrt, query, items)), topK)
    ensures exists at: seq<nat> :: IsRanking(sqrt, query, items, topK, ranked, at)
  {
    var scored := [];
    for i := 0 to |items|
      invariant scored == Scores(sqrt, query, items)[..i]
    {
      scored := scored + [Score(sqrt, query, items[i])];
    }
    assert scored == Scores(sqrt, query, items);
    ranked := Slice(SortDesc(scored), topK);
    ghost var at := RankingIs(sqrt, query, items, topK);
  }

  /** What the chat keeps of the ranking. */
  method RankedSources(sqrt: real -> real, query: seq<real>, items: seq<Item>, topK: int) returns (sources: seq<Scored>)
    ensures sources == Related(Slice(SortDesc(Scores(sqrt, query, items)), topK))
    ensures topK >= 0 ==> sources == Slice(SortDesc(Related(Scores(sqrt, query, items))), topK)
  {
    var ranked := Rank(sqrt, query, items, topK);
    sources := Related(ranked);
    if topK >= 0 {
      DropCommutesWithTopK(Scores(sqrt, query, items), topK);
    }
  }

  // ----- the sort

  lemma {:induction false} InsertKeepsItems(x: Scored, ys: seq<Scored>)
    ensures multiset(Insert(x, ys)) == multiset{x} + multiset(ys)
  {
    if ys != [] && ys[0].score > x.score {
      InsertKeepsItems(x, ys[1..]);
      assert ys == [ys[0]] + ys[1..];
    }
  }

  predicate AllAtMost(xs: seq<Scored>, top: real) {
    forall i :: 0 <= i < |xs| ==> xs[i].score <= top
  }

  lemma {:induction false} InsertStaysBelow(x: Scored, ys: seq<Scored>, top: real)
    requires x.score <= top && AllAtMost(ys, top)
    ensures AllAtMost(Insert(x, ys), top)
  {
    if ys != [] && ys[0].score > x.score {
      InsertStaysBelow(x, ys[1..], top);
    }
  }

  lemma {:induction false} InsertKeepsOrder(x: Scored, ys: seq<Scored>)
    requires Descending(ys)
    ensures Descending(Insert(x, ys))
  {
    if ys != [] && ys[0].score > x.score {
      InsertKeepsOrder(x, ys[1..]);
      InsertStaysBelow(x, ys[1..], ys[0].score);
      DescendingCons(ys[0], Insert(x, ys[1..]));
    }
  }

  lemma DescendingCons(x: Scored, ys: seq<Scored>)
    requires Descending(ys) && AllAtMost(ys, x.score)
    ensures Descending([x] + ys)
  {
  }

  lemma {:induction false} SortDescSorts(xs: seq<Scored>)
    ensures Descending(SortDesc(xs))
    ensures multiset(SortDesc(xs)) == multiset(xs)
  {
    if xs != [] {
      SortDescSorts(xs[1..]);
      InsertKeepsOrder(xs[0], SortDesc(xs[1..]));
      InsertKeepsItems(xs[0], SortDesc(xs[1..]));
      assert xs == [xs[0]] + xs[1..];
    }
  }

  lemma WithScoreCons(x: Scored, ys: seq<Scored>, score: real)
    ensures WithScore([x] + ys, score) == (if x.score == score then [x] else []) + WithScore(ys, score)
  {
    assert ([x] + ys)[1..] == ys;
  }

  lemma {:induction false} InsertIsStable(x: Scored, ys: seq<Scored>, score: real)
    requires Descending(ys)
    ensures WithScore(Insert(x, ys), score) == (if x.score == score then [x] else []) + WithScore(ys, score)
  {
    if ys == [] || ys[0].score <= x.score {
      WithScoreCons(x, ys, score);
    } else {
      InsertIsStable(x, ys[1..], score);
      WithScoreCons(ys[0], Insert(x, ys[1..]), score);
      assert x.score == score ==> ys[0].score != score;
      assert ys == [ys[0]] + ys[1..];
      WithScoreCons(ys[0], ys[1..], score);
    }
  }

  /** Equal scores keep their order. */
  lemma {:induction false} SortDescIsStable(xs: seq<Scored>, score: real)
    ensures WithScore(SortDesc(xs), score) == WithScore(xs, score)
  {
    if xs != [] {
      SortDescIsStable(xs[1..], score);
      SortDescSorts(xs[1..]);
      InsertIsStable(xs[0], SortDesc(xs[1..]), score);
    }
  }

  // ----- where the ranked items come from

  /** One item is listed before another: it scores higher, or as high and came first. */
  predicate Before(xs: seq<Scored>, i: nat, j: nat)
    requires i < |xs| && j < |xs|
  {
    xs[i].score > xs[j].score || (xs[i].score == xs[j].score && i < j)
  }

  /** All positions of a list, each once, in the order of the ranking. */
  predicate Ranks(xs: seq<Scored>, at: seq<nat>) {
    && |at| == |xs|
    && (forall k :: 0 <= k < |at| ==> at[k] < |xs|)
    && (forall j, k :: 0 <= j < k < |at| ==> Before(xs, at[j], at[k]))
  }

  /** The list at some positions. */
  function Pick(xs: seq<Scored>, at: seq<nat>): seq<Scored>
    requires forall k :: 0 <= k < |at| ==> at[k] < |xs|
  {
    seq(|at|, k requires 0 <= k < |at| => xs[at[k]])
  }

  /** Where an item is inserted. */
  function Place(x: Scored, ys: seq<Scored>): (p: nat)
    ensures p <= |ys|
  {
    if ys == [] || ys[0].score <= x.score then 0 else Place(x, ys[1..]) + 1
  }

  lemma {:induction false} InsertAtPlace(x: Scored, ys: seq<Scored>)
    ensures Insert(x, ys) == ys[..Place(x, ys)] + [x] + ys[Place(x, ys)..]
  {
    if ys != [] && ys[0].score > x.score {
      InsertAtPlace(x, ys[1..]);
      var p := Place(x, ys[1..]);
      assert ys[..p + 1] == [ys[0]] + ys[1..][..p] && ys[p + 1..] == ys[1..][p..];
    }
  }

  lemma {:induction false} PlaceDivides(x: Scored, ys: seq<Scored>)
    ensures forall k :: 0 <= k < Place(x, ys) ==> ys[k].score > x.score
    ensures Place(x, ys) < |ys| ==> ys[Place(x, ys)].score <= x.score
  {
    if ys != [] && ys[0].score > x.score {
      PlaceDivides(x, ys[1..]);
      var p := Place(x, ys[1..]);
      forall k | 0 <= k < p + 1 ensures ys[k].score > x.score {
        if k > 0 { assert ys[k] == ys[1..][k - 1]; }
      }
      assert p < |ys[1..]| ==> ys[p + 1] == ys[1..][p];
    }
  }

  function Shifted(at: seq<nat>): seq<nat> {
    seq(|at|, k requires 0 <= k < |at| => at[k] + 1)
  }

  lemma ShiftedRanks(xs: seq<Scored>, at: seq<nat>)
    requires xs != [] && Ranks(xs[1..], at)
    ensures forall k :: 0 <= k < |at| ==> 0 < Shifted(at)[k] < |xs| && xs[Shifted(at)[k]] == xs[1..][at[k]]
    ensures forall j, k :: 0 <= j < k < |at| ==> Before(xs, Shifted(at)[j], Shifted(at)[k])
  {
    forall j, k | 0 <= j < k < |at| ensures Before(xs, Shifted(at)[j], Shifted(at)[k]) {
      assert Before(xs[1..], at[j], at[k]);
    }
  }

  /** The first item of a list goes behind those that score higher, and before all others. */
  lemma FirstPlaced(xs: seq<Scored>, at: seq<nat>, p: nat)
    requires xs != [] && Ranks(xs[1..], at) && p <= |at|
    requires forall k :: 0 <= k < p ==> Pick(xs[1..], at)[k].score > xs[0].score
    requires p < |at| ==> Pick(xs[1..], at)[p].score <= xs[0].score
    ensures Ranks(xs, Shifted(at)[..p] + [0] + Shifted(at)[p..])
  {
    ShiftedRanks(xs, at);
    var s := Shifted(at);
    var all := s[..p] + [0] + s[p..];
    forall k | 0 <= k < p ensures xs[s[k]].score > xs[0].score {
      assert Pick(xs[1..], at)[k] == xs[s[k]];
    }
    forall k | p <= k < |at| ensures xs[s[k]].score <= xs[0].score {
      assert Pick(xs[1..], at)[p] == xs[s[p]];
      if p < k { assert Before(xs, s[p], s[k]); }
    }
    forall j, k | 0 <= j < k < |all| ensures Before(xs, all[j], all[k]) {
      if j != p && k != p {
        var j', k' := if j < p then j else j - 1, if k < p then k else k - 1;
        assert all[j] == s[j'] && all[k] == s[k'];
      }
    }
  }

  lemma FirstPicked(xs: seq<Scored>, at: seq<nat>, p: nat)
    requires xs != [] && Ranks(xs[1..], at) && p <= |at|
    requires Ranks(xs, Shifted(at)[..p] + [0] + Shifted(at)[p..])
    ensures var sorted := Pick(xs[1..], at);
      Pick(xs, Shifted(at)[..p] + [0] + Shifted(at)[p..]) == sorted[..p] + [xs[0]] + sorted[p..]
  {
    ShiftedRanks(xs, at);
  }

  /** The sorted list is the given one in the order of the ranking: by score, and by position at a tie. */
  lemma {:induction false} SortDescRanks(xs: seq<Scored>) returns (at: seq<nat>)
    ensures Ranks(xs, at) && SortDesc(xs) == Pick(xs, at)
  {
    at := [];
    if xs != [] {
      var rest := SortDescRanks(xs[1..]);
      var sorted := SortDesc(xs[1..]);
      var p := Place(xs[0], sorted);
      InsertAtPlace(xs[0], sorted);
      PlaceDivides(xs[0], sorted);
      FirstPlaced(xs, rest, p);
      FirstPicked(xs, rest, p);
      at := Shifted(rest)[..p] + [0] + Shifted(rest)[p..];
    }
  }

  function SimilarityTo(sqrt: real -> real, query: seq<real>, item: Item): real {
    CosineSimilarity(sqrt, query, item.embedding)
  }

  /** How many of n items `xs[:k]` takes. */
  function Taken(n: nat, k: int): nat {
    if k >= n then n else if k >= 0 then k else if n + k > 0 then n + k else 0
  }

  /** A ranking in full: positions of all items, ordered by similarity and by position at a tie; the
      first of them are listed, each with its id, its similarity to the query and its content. */
  predicate IsRanking(sqrt: real -> real, query: seq<real>, items: seq<Item>, topK: int, ranked: seq<Scored>,
                      at: seq<nat>)
  {
    && |at| == |items|
    && (forall k :: 0 <= k < |at| ==> at[k] < |items|)
    && (forall j, k :: 0 <= j < k < |at| ==>
          var a, b := SimilarityTo(sqrt, query, items[at[j]]), SimilarityTo(sqrt, query, items[at[k]]);
          a > b || (a == b && at[j] < at[k]))
    && |ranked| == Taken(|items|, topK)
    && (forall k :: 0 <= k < |ranked| ==>
          var item := items[at[k]];
          ranked[k] == Scored(item.id, SimilarityTo(sqrt, query, item), item.content))
  }

  lemma RankingIs(sqrt: real -> real, query: seq<real>, items: seq<Item>, topK: int) returns (at: seq<nat>)
    ensures IsRanking(sqrt, query, items, topK, Slice(SortDesc(Scores(sqrt, query, items)), topK), at)
  {
    var scores := Scores(sqrt, query, items);
    at := SortDescRanks(scores);
    forall j, k | 0 <= j < k < |at|
      ensures var a, b := SimilarityTo(sqrt, query, items[at[j]]), SimilarityTo(sqrt, query, items[at[k]]);
        a > b || (a == b && at[j] < at[k])
    {
      assert Before(scores, at[j], at[k]);
    }
  }

  /** Nearer items come first: of two items of a ranking that have a length, the earlier one has at
      least as large a dot product for its length. */
  lemma RankedByDirection(sqrt: real -> real, query: seq<real>, items: seq<Item>, topK: int, ranked: seq<Scored>,
                          at: seq<nat>, j: nat, k: nat)
    requires IsSqrt(sqrt) && IsRanking(sqrt, query, items, topK, ranked, at) && j < k < |items|
    ensures var x, y := items[at[j]].embedding, items[at[k]].embedding;
      Norm(sqrt, x) != 0.0 && Norm(sqrt, y) != 0.0 ==>
        AsClose(Dot(query, x), Norm(sqrt, x), Dot(query, y), Norm(sqrt, y))
  {
    var x, y := items[at[j]].embedding, items[at[k]].embedding;
    if Norm(sqrt, x) != 0.0 && Norm(sqrt, y) != 0.0 {
      CosineOrder(sqrt, query, x, y);
    }
  }

  /** The filter keeps what has a positive score, as often as it occurs, in order. */
  lemma {:induction false} RelatedIsFilter(xs: seq<Scored>, x: Scored)
    ensures multiset(Related(xs))[x] == if x.score > 0.0 then multiset(xs)[x] else 0
    ensures forall c: real :: WithScore(Related(xs), c) == if c > 0.0 then WithScore(xs, c) else []
  {
    if xs != [] {
      RelatedIsFilter(xs[1..], x);
      assert xs == [xs[0]] + xs[1..];
      if xs[0].score > 0.0 {
        assert ([xs[0]] + Related(xs[1..]))[1..] == Related(xs[1..]);
      } else {
        assert Related(xs) == Related(xs[1..]);
      }
    }
  }

  lemma {:induction false} NoneWithScore(xs: seq<Scored>, score: real)
    requires forall i :: 0 <= i < |xs| ==> xs[i].score != score
    ensures WithScore(xs, score) == []
  {
    if xs != [] { NoneWithScore(xs[1..], score); }
  }

  /** The highest score of a non-empty list in descending order is the first one's. */
  lemma HeadIsTop(xs: seq<Scored>, ys: seq<Scored>)
    requires Descending(xs) && Descending(ys) && xs != []
    requires forall c: real :: WithScore(xs, c) == WithScore(ys, c)
    ensures ys != [] && ys[0].score >= xs[0].score
  {
    assert WithScore(ys, xs[0].score) == WithScore(xs, xs[0].score) != [];
    if ys == [] || ys[0].score < xs[0].score {
      NoneWithScore(ys, xs[0].score);
    }
  }

  lemma TailWithScore(xs: seq<Scored>, c: real)
    requires xs != []
    ensures xs[0].score == c ==> WithScore(xs, c) != [] && WithScore(xs[1..], c) == WithScore(xs, c)[1..]
    ensures xs[0].score != c ==> WithScore(xs[1..], c) == WithScore(xs, c)
  {
  }

  /** Order and stability leave only one list: any sort with both gives this one. */
  lemma {:induction false} StableSortIsUnique(xs: seq<Scored>, ys: seq<Scored>)
    requires Descending(xs) && Descending(ys)
    requires forall c: real :: WithScore(xs, c) == WithScore(ys, c)
    ensures xs == ys
  {
    if xs != [] {
      HeadIsTop(xs, ys);
      HeadIsTop(ys, xs);
      var top := xs[0].score;
      assert WithScore(xs, top)[0] == xs[0] && WithScore(ys, top)[0] == ys[0];
      forall c: real ensures WithScore(xs[1..], c) == WithScore(ys[1..], c) {
        assert WithScore(xs, c) == WithScore(ys, c);
        TailWithScore(xs, c);
        TailWithScore(ys, c);
      }
      StableSortIsUnique(xs[1..], ys[1..]);
      assert xs == [xs[0]] + xs[1..] && ys == [ys[0]] + ys[1..];
    } else if ys != [] {
      HeadIsTop(ys, xs);
    }
  }

  // ----- the filter

  lemma {:induction false} InsertThenDrop(x: Scored, ys: seq<Scored>)
    requires Descending(ys)
    ensures Related(Insert(x, ys)) == if x.score > 0.0 then Insert(x, Related(ys)) else Related(ys)
  {
    if ys == [] || ys[0].score <= x.score {
      assert ([x] + ys)[1..] == ys;
      if x.score > 0.0 { HeadOfRelated(ys); }
    } else {
      InsertThenDrop(x, ys[1..]);
      assert ([ys[0]] + Insert(x, ys[1..]))[1..] == Insert(x, ys[1..]);
      if ys[0].score > 0.0 {
        assert ([ys[0]] + Related(ys[1..]))[1..] == Related(ys[1..]);
      }
    }
  }

  lemma {:induction false} HeadOfRelated(ys: seq<Scored>)
    requires Descending(ys)
    ensures Related(ys) == [] || Related(ys)[0].score <= ys[0].score
  {
    if ys != [] && ys[0].score <= 0.0 {
      NothingRelated(ys);
    }
  }

  lemma {:induction false} NothingRelated(ys: seq<Scored>)
    requires forall i :: 0 <= i < |ys| ==> ys[i].score <= 0.0
    ensures Related(ys) == []
  {
    if ys != [] { NothingRelated(ys[1..]); }
  }

  lemma {:induction false} SortThenDrop(xs: seq<Scored>)
    ensures Related(SortDesc(xs)) == SortDesc(Related(xs))
  {
    if xs != [] {
      SortThenDrop(xs[1..]);
      SortDescSorts(xs[1..]);
      InsertThenDrop(xs[0], SortDesc(xs[1..]));
      if xs[0].score > 0.0 {
        SortCons(xs[0], Related(xs[1..]));
      } else {
        assert Related(xs) == Related(xs[1..]);
      }
    }
  }

  lemma SortCons(x: Scored, rest: seq<Scored>)
    ensures SortDesc([x] + rest) == Insert(x, SortDesc(rest))
  {
    assert ([x] + rest)[1..] == rest;
  }

  lemma {:induction false} SliceThenDrop(xs: seq<Scored>, k: nat)
    requires Descending(xs)
    ensures Related(Slice(xs, k)) == Slice(Related(xs), k)
  {
    if k < |xs| {
      if xs[0].score <= 0.0 {
        NothingRelated(xs);
        NothingRelated(xs[..k]);
      } else if k > 0 {
        SliceThenDrop(xs[1..], k - 1);
        assert xs[..k][1..] == xs[1..][..k - 1];
        assert Slice(xs[1..], k - 1) == xs[1..][..k - 1];
        SliceCons(xs[0], Related(xs[1..]), k);
      } 
    } else {
      RelatedIsShorter(xs);
    }
  }

  lemma SliceCons(x: Scored, rest: seq<Scored>, k: nat)
    requires k > 0
    ensures Slice([x] + rest, k) == [x] + Slice(rest, k - 1)
  {
  }

  lemma {:induction false} RelatedIsShorter(xs: seq<Scored>)
    ensures |Related(xs)| <= |xs|
  {
    if xs != [] { RelatedIsShorter(xs[1..]); }
  }

  /** Taking the top k and then dropping what is unrelated is dropping first and then taking the top k. */
  lemma DropCommutesWithTopK(xs: seq<Scored>, k: nat)
    ensures Related(Slice(SortDesc(xs), k)) == Slice(SortDesc(Related(xs)), k)
  {
    SortDescSorts(xs);
    SliceThenDrop(SortDesc(xs), k);
    SortThenDrop(xs);
  }

  function Zeros(n: nat): seq<Scored> {
    seq(n, _ => Scored("", 0.0, ""))
  }

  lemma {:induction false} SortedAlready(xs: seq<Scored>)
    requires Descending(xs)
    ensures SortDesc(xs) == xs
  {
    SortDescSorts(xs);
    forall c: real ensures WithScore(SortDesc(xs), c) == WithScore(xs, c) {
      SortDescIsStable(xs, c);
    }
    StableSortIsUnique(SortDesc(xs), xs);
  }

  /** With a negative k the two differ on some list: k is the exact condition. */
  lemma DropCommutesIffNonNegative(k: int)
    ensures (forall xs: seq<Scored> :: Related(Slice(SortDesc(xs), k)) == Slice(SortDesc(Related(xs)), k)) <==> k >= 0
  {
    if k >= 0 {
      forall xs: seq<Scored> ensures Related(Slice(SortDesc(xs), k)) == Slice(SortDesc(Related(xs)), k) {
        DropCommutesWithTopK(xs, k);
      }
    } else {
      var top := Scored("", 1.0, "");
      var xs := [top] + Zeros(-k);
      SortedAlready(xs);
      assert xs[1..] == Zeros(-k);
      NothingRelated(Zeros(-k));
      assert Related(xs) == [top];
      SortedAlready([top]);
      assert Slice(xs, k) == [top];
      assert Related([top]) == [top] by { assert [top][1..] == []; }
      assert Related(Slice(SortDesc(xs), k)) != Slice(SortDesc(Related(xs)), k);
    }
  }

  /** Nothing that was cut off scores higher than anything that was kept. */
  lemma TopKIsTop(xs: seq<Scored>, k: nat)
    ensures var all, kept := SortDesc(xs), Slice(SortDesc(xs), k);
      && kept <= all && |kept| == (if k < |xs| then k else |xs|)
      && multiset(all) == multiset(xs)
      && forall i, j :: 0 <= i < |kept| <= j < |all| ==> kept[i].score >= all[j].score
  {
    SortDescSorts(xs);
    assert |SortDesc(xs)| == |multiset(SortDesc(xs))| == |multiset(xs)| == |xs|;
  }
}
