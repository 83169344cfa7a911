/** Products of reals under a name of their own, and the few laws the scores need of them. */
module Products {

  function Times(x: real, y: real): real { x * y }

  lemma TimesMono(x: real, y: real, k: real)
    requires x <= y && k >= 0.0
    ensures Times(x, k) <= Times(y, k) && Times(k, x) <= Times(k, y)
  {
  }

  lemma TimesStrict(x: real, y: real, k: real)
    requires x < y && k > 0.0
    ensures Times(x, k) < Times(y, k)
  {
  }

  lemma TimesUnit(x: real)
    ensures Times(1.0, x) == x == Times(x, 1.0) && Times(0.0, x) == 0.0 == Times(x, 0.0)
  {
  }

  lemma TimesAssoc(x: real, y: real, k: real)
    ensures Times(x, Times(y, k)) == Times(Times(x, y), k)
  {
  }

  lemma TimesPlus(x: real, y: real, k: real)
    ensures Times(x, y + k) == Times(x, y) + Times(x, k) && Times(y + k, x) == Times(y, x) + Times(k, x)
  {
  }

  lemma TimesCommutes(x: real, y: real)
    ensures Times(x, y) == Times(y, x)
  {
  }

  lemma TimesNotPositive(x: real, y: real)
    requires x >= 0.0 && y <= 0.0
    ensures Times(x, y) <= 0.0
  {
  }

  lemma TimesFlips(x: real, y: real, k: real)
    requires x <= y && k <= 0.0
    ensures Times(y, k) <= Times(x, k)
  {
  }
}
