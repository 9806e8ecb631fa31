/** Maps that respect an exclusive-or-like addition, and the arithmetic of
    feeding words through one in a single lane or in four.

    `SwathStep` and `RotateStep` are the algebra of the two strided loops: a word
    fed to its own lane, and advanced past the other lanes' words, has the effect
    it has in a single lane.  Nothing here depends on the polynomial. */
module LinearMaps {

  ghost predicate XorLike<T(!new)>(plus: (T, T) -> T, zero: T) {
    (forall a, b :: plus(a, b) == plus(b, a)) &&
    (forall a, b, c :: plus(plus(a, b), c) == plus(a, plus(b, c))) &&
    (forall a :: plus(zero, a) == a) &&
    (forall a :: plus(a, a) == zero)
  }

  ghost predicate Linear<T(!new)>(plus: (T, T) -> T, f: T -> T) {
    forall a, b :: f(plus(a, b)) == plus(f(a), f(b))
  }

  lemma Interchange<T(!new)>(plus: (T, T) -> T, zero: T, a: T, b: T, c: T, d: T)
    requires XorLike(plus, zero)
    ensures plus(plus(a, b), plus(c, d)) == plus(plus(a, c), plus(b, d))
  {
    assert plus(plus(a, b), plus(c, d)) == plus(a, plus(b, plus(c, d)));
    assert plus(b, plus(c, d)) == plus(plus(b, c), d) == plus(plus(c, b), d) == plus(c, plus(b, d));
  }

  lemma AssociateFive<T(!new)>(plus: (T, T) -> T, zero: T, w: T, a: T, b: T, c: T, d: T)
    requires XorLike(plus, zero)
    ensures plus(plus(plus(plus(w, a), b), c), d) == plus(w, plus(plus(plus(a, b), c), d))
  {
    assert plus(plus(w, a), b) == plus(w, plus(a, b));
  }

  lemma LinearZero<T(!new)>(plus: (T, T) -> T, zero: T, f: T -> T)
    requires XorLike(plus, zero) && Linear(plus, f)
    ensures f(zero) == zero
  {
    assert f(plus(zero, zero)) == plus(f(zero), f(zero));
  }

  function Iter<T>(f: T -> T, x: T, n: nat): (r: T)
    decreases n
  {
    if n == 0 then x else Iter(f, f(x), n - 1)
  }

  lemma {:induction false} IterAdd<T(!new)>(f: T -> T, x: T, m: nat, n: nat)
    ensures Iter(f, Iter(f, x, m), n) == Iter(f, x, m + n)
    decreases m
  {
    if m > 0 { IterAdd(f, f(x), m - 1, n); }
  }

  lemma {:induction false} IterIsLinear<T(!new)>(plus: (T, T) -> T, f: T -> T, x: T, y: T, n: nat)
    requires Linear(plus, f)
    ensures Iter(f, plus(x, y), n) == plus(Iter(f, x, n), Iter(f, y, n))
    decreases n
  {
    if n > 0 { IterIsLinear(plus, f, f(x), f(y), n - 1); }
  }

  lemma {:induction false} IterIsInjective<T(!new)>(f: T -> T, x: T, y: T, n: nat)
    requires forall a, b :: f(a) == f(b) ==> a == b
    requires Iter(f, x, n) == Iter(f, y, n)
    ensures x == y
    decreases n
  {
    if n > 0 { IterIsInjective(f, f(x), f(y), n - 1); }
  }

  /** The register after one word; `f` advances it by a word of zero bits. */
  function Word<T>(plus: (T, T) -> T, f: T -> T, l: T, w: T): (r: T) {
    f(plus(w, l))
  }

  datatype Four<T> = Four(a: T, b: T, c: T, d: T)

  function Words<T>(plus: (T, T) -> T, f: T -> T, l: T, w: Four<T>): (r: T) {
    Word(plus, f, Word(plus, f, Word(plus, f, Word(plus, f, l, w.a), w.b), w.c), w.d)
  }

  function Plus4<T>(plus: (T, T) -> T, u: Four<T>, v: Four<T>): (r: Four<T>) {
    Four(plus(u.a, v.a), plus(u.b, v.b), plus(u.c, v.c), plus(u.d, v.d))
  }

  function Map4<T>(f: T -> T, u: Four<T>): (r: Four<T>) {
    Four(f(u.a), f(u.b), f(u.c), f(u.d))
  }

  lemma WordIsLinear<T(!new)>(plus: (T, T) -> T, zero: T, f: T -> T, l: T, m: T, u: T, v: T)
    requires XorLike(plus, zero) && Linear(plus, f)
    ensures Word(plus, f, plus(l, m), plus(u, v)) == plus(Word(plus, f, l, u), Word(plus, f, m, v))
  {
    Interchange(plus, zero, u, v, l, m);
  }

  lemma WordsAreLinear<T(!new)>(plus: (T, T) -> T, zero: T, f: T -> T, l: T, m: T, u: Four<T>, v: Four<T>)
    requires XorLike(plus, zero) && Linear(plus, f)
    ensures Words(plus, f, plus(l, m), Plus4(plus, u, v)) == plus(Words(plus, f, l, u), Words(plus, f, m, v))
  {
    var l1, m1 := Word(plus, f, l, u.a), Word(plus, f, m, v.a);
    var l2, m2 := Word(plus, f, l1, u.b), Word(plus, f, m1, v.b);
    var l3, m3 := Word(plus, f, l2, u.c), Word(plus, f, m2, v.c);
    WordIsLinear(plus, zero, f, l, m, u.a, v.a);
    WordIsLinear(plus, zero, f, l1, m1, u.b, v.b);
    WordIsLinear(plus, zero, f, l2, m2, u.c, v.c);
    WordIsLinear(plus, zero, f, l3, m3, u.d, v.d);
  }

  /** `g` advances by four words of zero bits. */
  ghost predicate Strides<T(!new)>(f: T -> T, g: T -> T) {
    forall a :: g(a) == f(f(f(f(a))))
  }

  lemma WordsCommute<T(!new)>(plus: (T, T) -> T, zero: T, f: T -> T, g: T -> T, c: Four<T>)
    requires XorLike(plus, zero) && Linear(plus, f) && Strides(f, g) && Linear(plus, g)
    ensures Words(plus, f, zero, Map4(g, c)) == g(Words(plus, f, zero, c))
  {
    LinearZero(plus, zero, g);
    WordCommutes(plus, zero, f, g, zero, c.a);
    var l1 := Word(plus, f, zero, c.a);
    WordCommutes(plus, zero, f, g, l1, c.b);
    var l2 := Word(plus, f, l1, c.b);
    WordCommutes(plus, zero, f, g, l2, c.c);
    var l3 := Word(plus, f, l2, c.c);
    WordCommutes(plus, zero, f, g, l3, c.d);
  }

  lemma WordCommutes<T(!new)>(plus: (T, T) -> T, zero: T, f: T -> T, g: T -> T, l: T, w: T)
    requires XorLike(plus, zero) && Linear(plus, f) && Strides(f, g) && Linear(plus, g)
    ensures Word(plus, f, g(l), g(w)) == g(Word(plus, f, l, w))
  {
    assert g(plus(w, l)) == plus(g(w), g(l));
    var x := plus(w, l);
    assert g(f(x)) == f(g(x));
  }

  lemma WordsOfZeros<T(!new)>(plus: (T, T) -> T, zero: T, f: T -> T, g: T -> T, l: T)
    requires XorLike(plus, zero) && Strides(f, g)
    ensures Words(plus, f, l, Four(zero, zero, zero, zero)) == g(l)
  {}

  /** Sixteen bytes on: each lane takes its own word after a stride of zeros, and
      the lanes together stand for the register that read all four in order. */
  lemma SwathStep<T(!new)>(plus: (T, T) -> T, zero: T, f: T -> T, g: T -> T, c: Four<T>, w: Four<T>)
    requires XorLike(plus, zero) && Linear(plus, f) && Strides(f, g) && Linear(plus, g)
    ensures Words(plus, f, zero, Plus4(plus, w, Map4(g, c))) == Words(plus, f, Words(plus, f, zero, c), w)
  {
    var r, z := Words(plus, f, zero, c), Four(zero, zero, zero, zero);
    WordsAreLinear(plus, zero, f, zero, zero, w, Map4(g, c));
    WordsCommute(plus, zero, f, g, c);
    WordsOfZeros(plus, zero, f, g, r);
    WordsAreLinear(plus, zero, f, zero, r, w, z);
    ZeroUnits(plus, zero, r, w);
    PlusCommutes(plus, zero, Words(plus, f, zero, w), g(r));
  }

  lemma PlusCommutes<T(!new)>(plus: (T, T) -> T, zero: T, a: T, b: T)
    requires XorLike(plus, zero)
    ensures plus(a, b) == plus(b, a)
  {}

  lemma ZeroUnits<T(!new)>(plus: (T, T) -> T, zero: T, r: T, w: Four<T>)
    requires XorLike(plus, zero)
    ensures plus(zero, zero) == zero && plus(zero, r) == r
    ensures Plus4(plus, w, Four(zero, zero, zero, zero)) == w
  {
    forall x ensures plus(x, zero) == x { assert plus(x, zero) == plus(zero, x); }
  }

  /** Four bytes on: the first lane takes the word and becomes the last. */
  lemma RotateStep<T(!new)>(plus: (T, T) -> T, zero: T, f: T -> T, g: T -> T, c: Four<T>, w: T)
    requires XorLike(plus, zero) && Linear(plus, f) && Strides(f, g)
    ensures Words(plus, f, zero, Four(c.b, c.c, c.d, plus(w, g(c.a)))) == Word(plus, f, Words(plus, f, zero, c), w)
  {
    var first := f(plus(c.a, zero));
    var l2 := Word(plus, f, zero, c.b);
    var l3 := Word(plus, f, l2, c.c);
    var l4 := Word(plus, f, l3, c.d);
    assert plus(zero, c.a) == c.a == plus(c.a, zero);
    Carried(plus, zero, f, zero, first, c.b);
    Carried(plus, zero, f, l2, f(first), c.c);
    Carried(plus, zero, f, l3, f(f(first)), c.d);
    assert plus(zero, first) == first;
    var four := f(f(f(first)));
    assert g(c.a) == four;
    assert plus(plus(w, four), l4) == plus(w, plus(four, l4)) == plus(w, plus(l4, four));
  }

  /** What another lane contributes passes through a word unchanged but for the advance. */
  lemma Carried<T(!new)>(plus: (T, T) -> T, zero: T, f: T -> T, l: T, x: T, w: T)
    requires XorLike(plus, zero) && Linear(plus, f)
    ensures Word(plus, f, plus(l, x), w) == plus(Word(plus, f, l, w), f(x))
  {
    assert plus(w, plus(l, x)) == plus(plus(w, l), x);
  }
}
