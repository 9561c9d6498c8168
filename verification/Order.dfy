/** Python's order on strings and on tuples of strings: lexicographic, and total. */
module Order {

  ghost predicate StrictTotal<T(!new)>(less: (T, T) -> bool) {
    && (forall x :: !less(x, x))
    && (forall x, y, z :: less(x, y) && less(y, z) ==> less(x, z))
    && (forall x, y :: less(x, y) || x == y || less(y, x))
  }

  predicate Lex<T(==)>(less: (T, T) -> bool, a: seq<T>, b: seq<T>) {
    if b == [] then false
    else if a == [] then true
    else less(a[0], b[0]) || (a[0] == b[0] && Lex(less, a[1..], b[1..]))
  }

  predicate CharLess(a: char, b: char) { a < b }

  predicate StrLess(a: string, b: string) { Lex(CharLess, a, b) }

  predicate TupleLess(a: seq<string>, b: seq<string>) { Lex(StrLess, a, b) }

  lemma {:induction false} LexIrreflexive<T(!new)>(less: (T, T) -> bool, a: seq<T>)
    requires StrictTotal(less)
    ensures !Lex(less, a, a)
  {
    if a != [] { LexIrreflexive(less, a[1..]); }
  }

  lemma {:induction false} LexTransitive<T(!new)>(less: (T, T) -> bool, a: seq<T>, b: seq<T>, c: seq<T>)
    requires StrictTotal(less) && Lex(less, a, b) && Lex(less, b, c)
    ensures Lex(less, a, c)
  {
    if a != [] && a[0] == b[0] && b[0] == c[0] {
      LexTransitive(less, a[1..], b[1..], c[1..]);
    }
  }

  lemma {:induction false} LexTotal<T(!new)>(less: (T, T) -> bool, a: seq<T>, b: seq<T>)
    requires StrictTotal(less)
    ensures Lex(less, a, b) || a == b || Lex(less, b, a)
  {
    if a != [] && b != [] && a[0] == b[0] {
      LexTotal(less, a[1..], b[1..]);
      assert a == [a[0]] + a[1..] && b == [b[0]] + b[1..];
    }
  }

  /** Python's order on strings is a strict total order. */
  lemma StrLessStrictTotal()
    ensures StrictTotal(StrLess)
  {
    assert StrictTotal(CharLess);
    forall a: string ensures !StrLess(a, a) { LexIrreflexive(CharLess, a); }
    forall a: string, b: string, c: string | StrLess(a, b) && StrLess(b, c) ensures StrLess(a, c) {
      LexTransitive(CharLess, a, b, c);
    }
    forall a: string, b: string ensures StrLess(a, b) || a == b || StrLess(b, a) { LexTotal(CharLess, a, b); }
  }

  /** Python's order on tuples of strings is a strict total order. */
  lemma TupleLessStrictTotal()
    ensures StrictTotal(TupleLess)
  {
    StrLessStrictTotal();
    forall a: seq<string> ensures !TupleLess(a, a) { LexIrreflexive(StrLess, a); }
    forall a: seq<string>, b: seq<string>, c: seq<string> | TupleLess(a, b) && TupleLess(b, c)
      ensures TupleLess(a, c)
    {
      LexTransitive(StrLess, a, b, c);
    }
    forall a: seq<string>, b: seq<string> ensures TupleLess(a, b) || a == b || TupleLess(b, a) {
      LexTotal(StrLess, a, b);
    }
  }
}
