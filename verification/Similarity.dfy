/** The lexical similarity of two descriptions: the cosine of their token counts. Tokens are given;
  the square roots are avoided by stating the cosine through its square. */
module Similarity {
  import opened Products
  import opened Sums

  type Token = string

  /** How often each token occurs. */
  type Counts = map<Token, nat>

  function Count(tokens: seq<Token>, t: Token): nat {
    if tokens == [] then 0 else Count(tokens[..|tokens| - 1], t) + if tokens[|tokens| - 1] == t then 1 else 0
  }

  ghost predicate CountsOf(c: Counts, tokens: seq<Token>) {
    (forall t :: t in c <==> t in tokens) && (forall t | t in c :: c[t] == Count(tokens, t) && c[t] > 0)
  }

  method TermFrequencies(tokens: seq<Token>) returns (tf: Counts)
    ensures CountsOf(tf, tokens)
  {
    tf := map[];
    var i := 0;
    while i < |tokens|
      invariant 0 <= i <= |tokens| && CountsOf(tf, tokens[..i])
    {
      var t := tokens[i];
      assert tokens[..i + 1] == tokens[..i] + [t];
      assert forall u :: Count(tokens[..i + 1], u) == Count(tokens[..i], u) + if u == t then 1 else 0 by {
        assert tokens[..i + 1][..i] == tokens[..i];
      }
      if t !in tf { Absent(tokens[..i], t); }
      tf := tf[t := (if t in tf then tf[t] else 0) + 1];
      i := i + 1;
    }
    assert tokens[..|tokens|] == tokens;
  }

  lemma {:induction false} Absent(tokens: seq<Token>, t: Token)
    requires t !in tokens
    ensures Count(tokens, t) == 0
    decreases |tokens|
  {
    if tokens != [] { Absent(tokens[..|tokens| - 1], t); }
  }

  function At(c: Counts, t: Token): real {
    if t in c then c[t] as real else 0.0
  }

  function Product(a: Counts, b: Counts): Token -> real {
    (t: Token) => Mul(At(a, t), At(b, t))
  }

  ghost function Dot(a: Counts, b: Counts): real {
    Sum(a.Keys, Product(a, b))
  }

  lemma NoTerm(x: real)
    ensures Mul(x, 0.0) == 0.0
  {
  }

  /** The loop over a's terms that skips the ones b lacks. */
  method DotProduct(a: Counts, b: Counts) returns (dot: real)
    ensures dot == Dot(a, b)
  {
    dot := 0.0;
    var left := a.Keys;
    while left != {}
      invariant left <= a.Keys && dot == Dot(a, b) - Sum(left, Product(a, b))
      decreases left
    {
      var t :| t in left;
      SumRemove(left, Product(a, b), t);
      if t in b {
        dot := dot + Mul(a[t] as real, b[t] as real);
      } else {
        NoTerm(At(a, t));
      }
      hide *;
      left := left - {t};
    }
  }

  /** `s` is the similarity of two descriptions with these counts. */
  ghost predicate IsSimilarity(s: real, a: Counts, b: Counts) {
    if a == map[] || b == map[] || Dot(a, b) == 0.0 then s == 0.0
    else s >= 0.0 && Mul(Mul(s, s), Mul(Dot(a, a), Dot(b, b))) == Mul(Dot(a, b), Dot(a, b))
  }

  // ---- over one set of tokens -------------------------------------------------------------

  lemma {:induction false} SumOutside(s: set<Token>, u: set<Token>, f: Token -> real)
    requires s <= u && forall t | t in u && t !in s :: f(t) == 0.0
    ensures Sum(u, f) == Sum(s, f)
    decreases u - s
  {
    if t :| t in u && t !in s {
      SumAdd(s, f, t);
      SumOutside(s + {t}, u, f);
    } else {
      assert s == u;
    }
  }

  lemma DotOver(a: Counts, b: Counts, u: set<Token>)
    requires a.Keys <= u
    ensures Dot(a, b) == Sum(u, Product(a, b))
  {
    SumOutside(a.Keys, u, Product(a, b));
  }

  lemma DotSymmetric(a: Counts, b: Counts)
    ensures Dot(a, b) == Dot(b, a)
  {
    var u := a.Keys + b.Keys;
    DotOver(a, b, u);
    DotOver(b, a, u);
    forall t | t in u ensures Product(a, b)(t) == Product(b, a)(t) { MulSigns(At(a, t), At(b, t)); }
    SumCongruent(u, Product(a, b), Product(b, a));
  }

  lemma {:induction false} SumNonnegative(u: set<Token>, f: Token -> real)
    requires forall t | t in u :: f(t) >= 0.0
    ensures Sum(u, f) >= 0.0
    decreases u
  {
    if u != {} {
      var t :| t in u;
      SumRemove(u, f, t);
      SumNonnegative(u - {t}, f);
    }
  }

  lemma {:induction false} CauchyOver(a: Counts, b: Counts, u: set<Token>)
    ensures Sum(u, Product(a, b)) >= 0.0 && Sum(u, Product(a, a)) >= 0.0 && Sum(u, Product(b, b)) >= 0.0
    ensures Mul(Sum(u, Product(a, b)), Sum(u, Product(a, b))) <= Mul(Sum(u, Product(a, a)), Sum(u, Product(b, b)))
    decreases u
  {
    if u == {} {
    } else {
      var t :| t in u;
      CauchyOver(a, b, u - {t});
      SumRemove(u, Product(a, b), t);
      SumRemove(u, Product(a, a), t);
      SumRemove(u, Product(b, b), t);
      var d, p, q := Sum(u - {t}, Product(a, b)), Sum(u - {t}, Product(a, a)), Sum(u - {t}, Product(b, b));
      var x, y := At(a, t), At(b, t);
      hide Mul, Sum;
      CauchyStep(d, p, q, x, y);
      MulSigns(x, y);
      MulSigns(x, x);
      MulSigns(y, y);
    }
  }

  /** Cauchy-Schwarz for token counts. */
  lemma CauchySchwarz(a: Counts, b: Counts)
    ensures 0.0 <= Dot(a, b) && 0.0 <= Dot(a, a) && 0.0 <= Dot(b, b)
    ensures Mul(Dot(a, b), Dot(a, b)) <= Mul(Dot(a, a), Dot(b, b))
  {
    var u := a.Keys + b.Keys;
    DotOver(a, b, u);
    DotOver(a, a, u);
    DotOver(b, b, u);
    CauchyOver(a, b, u);
  }

  /** Any number that is the similarity lies between 0 and 1. */
  lemma SimilarityBounded(s: real, a: Counts, b: Counts)
    requires IsSimilarity(s, a, b)
    ensures 0.0 <= s <= 1.0
  {
    CauchySchwarz(a, b);
    var n, d := Mul(Dot(a, a), Dot(b, b)), Dot(a, b);
    MulSigns(d, d);
    MulSigns(n, n);
    MulSigns(1.0, 1.0);
    MulMonotone(1.0, Mul(s, s), n);
    if s > 1.0 { SquareOrder(s, 1.0); }
    hide Mul, Dot;
  }

  /** There is at most one such number, and it does not depend on the order of the descriptions. */
  lemma SimilaritySymmetric(s: real, r: real, a: Counts, b: Counts)
    requires IsSimilarity(s, a, b) && IsSimilarity(r, b, a)
    ensures s == r
  {
    DotSymmetric(a, b);
    CauchySchwarz(a, b);
    var n, d := Mul(Dot(a, a), Dot(b, b)), Dot(a, b);
    MulSigns(d, d);
    MulSigns(Dot(a, a), Dot(b, b));
    hide Mul, Dot;
    if a != map[] && b != map[] && d != 0.0 { SameSquare(s, r, n); }
  }

  lemma SelfDotPositive(a: Counts, t: Token)
    requires t in a && a[t] > 0
    ensures Dot(a, a) > 0.0
  {
    SumRemove(a.Keys, Product(a, a), t);
    forall u | u in a.Keys - {t} ensures Product(a, a)(u) >= 0.0 { MulSigns(At(a, u), At(a, u)); }
    SumNonnegative(a.Keys - {t}, Product(a, a));
    MulSigns(At(a, t), At(a, t));
    hide Mul;
  }

  /** Equal texts with at least one token have similarity 1. */
  lemma EqualTextsAlike(s: real, a: Counts, tokens: seq<Token>)
    requires CountsOf(a, tokens) && tokens != [] && IsSimilarity(s, a, a)
    ensures s == 1.0
  {
    assert tokens[0] in a;
    SelfDotPositive(a, tokens[0]);
    var n := Mul(Dot(a, a), Dot(a, a));
    MulSigns(Dot(a, a), Dot(a, a));
    MulSigns(1.0, 1.0);
    MulSigns(n, n);
    hide Mul, Dot;
    SameSquare(s, 1.0, n);
  }

  /** The 0.5 threshold, decided without a square root. */
  predicate AtLeastHalf(dot: real, normA: real, normB: real) {
    dot > 0.0 && 4.0 * Mul(dot, dot) >= Mul(normA, normB)
  }

  lemma HalfDecided(s: real, a: Counts, b: Counts)
    requires IsSimilarity(s, a, b)
    ensures s >= 0.5 <==> AtLeastHalf(Dot(a, b), Dot(a, a), Dot(b, b))
  {
    CauchySchwarz(a, b);
    DotSymmetric(a, b);
    var n, d := Mul(Dot(a, a), Dot(b, b)), Dot(a, b);
    MulSigns(d, d);
    MulSigns(n, n);
    MulMonotone(0.25, Mul(s, s), n);
    MulMonotone(Mul(s, s), 0.25, n);
    MulSigns(0.5, 0.5);
    assert Mul(0.5, 0.5) == 0.25;
    if s >= 0.0 {
      SquareOrder(0.5, s);
    }
    hide Mul;
  }
}
