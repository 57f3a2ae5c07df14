/** The order JavaScript's `<` and `>` put on strings: lexicographic over
    characters, a proper prefix coming first. (Dafny's own `<` on sequences
    means "proper prefix" only, so the game cannot use it.) */
module LexOrder {

  /** `a < b` on JavaScript strings. */
  predicate LexLess(a: string, b: string) {
    if b == [] then false
    else if a == [] then true
    else if a[0] != b[0] then a[0] < b[0]
    else LexLess(a[1..], b[1..])
  }

  /** `a <= b` on JavaScript strings. */
  predicate LexLessEq(a: string, b: string) {
    a == b || LexLess(a, b)
  }

  lemma {:induction false} LexLessIrreflexive(a: string)
    ensures !LexLess(a, a)
  {
    if a != [] {
      LexLessIrreflexive(a[1..]);
    }
  }

  lemma {:induction false} LexLessAsymmetric(a: string, b: string)
    requires LexLess(a, b)
    ensures !LexLess(b, a)
  {
    if a != [] && a[0] == b[0] {
      LexLessAsymmetric(a[1..], b[1..]);
    }
  }

  lemma {:induction false} LexLessTransitive(a: string, b: string, c: string)
    requires LexLess(a, b) && LexLess(b, c)
    ensures LexLess(a, c)
  {
    if a != [] && a[0] == b[0] && b[0] == c[0] {
      LexLessTransitive(a[1..], b[1..], c[1..]);
    }
  }

  /** Two different strings are always ordered one way or the other. */
  lemma {:induction false} LexLessTotal(a: string, b: string)
    requires a != b
    ensures LexLess(a, b) || LexLess(b, a)
  {
    if a != [] && b != [] && a[0] == b[0] {
      assert a == [a[0]] + a[1..] && b == [b[0]] + b[1..];
      LexLessTotal(a[1..], b[1..]);
    }
  }

  /** Exactly one of `a < b`, `a == b`, `a > b` holds. */
  lemma Trichotomy(a: string, b: string)
    ensures LexLess(a, b) <==> (a != b && !LexLess(b, a))
  {
    LexLessIrreflexive(a);
    if LexLess(a, b) {
      LexLessAsymmetric(a, b);
    }
    if a != b {
      LexLessTotal(a, b);
    }
  }

  /** A proper prefix sorts before the longer string, so the order extends
      Dafny's prefix order. */
  lemma {:induction false} PrefixIsLess(a: string, b: string)
    requires a < b
    ensures LexLess(a, b)
  {
    if a != [] {
      assert a[1..] < b[1..];
      PrefixIsLess(a[1..], b[1..]);
    }
  }
}
