/** Weighted sums over finite sets and maps. */
module Sums {

  /** The summed weight of the members of `s`. */
  ghost function Sum<K(!new)>(w: map<K, nat>, s: set<K>): nat
    requires s <= w.Keys
  {
    if s == {} then 0
    else
      var x :| x in s;
      w[x] + Sum(w, s - {x})
  }

  lemma {:induction false} SumRemove<K(!new)>(w: map<K, nat>, s: set<K>, y: K)
    requires s <= w.Keys && y in s
    ensures Sum(w, s) == w[y] + Sum(w, s - {y})
    decreases |s|
  {
    var x :| x in s && Sum(w, s) == w[x] + Sum(w, s - {x});
    if x != y {
      SumRemove(w, s - {x}, y);
      assert s - {x} - {y} == s - {y} - {x};
      SumRemove(w, s - {y}, x);
    }
  }

  lemma SumAdd<K(!new)>(w: map<K, nat>, s: set<K>, y: K)
    requires s <= w.Keys && y in w && y !in s
    ensures Sum(w, s + {y}) == Sum(w, s) + w[y]
  {
    SumRemove(w, s + {y}, y);
    assert s + {y} - {y} == s;
  }

  lemma {:induction false} SumMonotone<K(!new)>(w: map<K, nat>, s: set<K>, t: set<K>)
    requires s <= t <= w.Keys
    ensures Sum(w, s) <= Sum(w, t)
    decreases |t|
  {
    if s != t {
      var y :| y in t && y !in s;
      SumRemove(w, t, y);
      SumMonotone(w, s, t - {y});
    }
  }

  /** Inclusion and exclusion: two sets of voters overlap by at least their sum less the whole. */
  lemma {:induction false} SumOverlap<K(!new)>(w: map<K, nat>, s: set<K>, t: set<K>)
    requires s <= w.Keys && t <= w.Keys
    ensures Sum(w, s) + Sum(w, t) == Sum(w, s + t) + Sum(w, s * t)
    decreases |s|
  {
    if s == {} {
      assert s + t == t && s * t == {};
    } else {
      var y :| y in s;
      SumRemove(w, s, y);
      SumOverlap(w, s - {y}, t);
      if y in t {
        assert (s - {y}) + t == s + t && (s - {y}) * t == s * t - {y};
        SumRemove(w, s * t, y);
      } else {
        assert (s - {y}) + t == s + t - {y} && (s - {y}) * t == s * t;
        SumRemove(w, s + t, y);
      }
    }
  }

  /** Weights that agree on a set give it the same sum. */
  lemma {:induction false} SumCongruent<K(!new)>(v: map<K, nat>, w: map<K, nat>, s: set<K>)
    requires s <= v.Keys && s <= w.Keys
    requires forall x :: x in s ==> v[x] == w[x]
    ensures Sum(v, s) == Sum(w, s)
    decreases |s|
  {
    if s != {} {
      var y :| y in s;
      SumRemove(v, s, y);
      SumRemove(w, s, y);
      SumCongruent(v, w, s - {y});
    }
  }

  /** Everything a map holds. */
  ghost function Total<K(!new)>(w: map<K, nat>): nat {
    Sum(w, w.Keys)
  }

  /** Writing one key changes the total by exactly what that key gained. */
  lemma TotalUpdate<K(!new)>(w: map<K, nat>, k: K, v: nat)
    ensures Total(w[k := v]) == Total(w) - (if k in w then w[k] else 0) + v
  {
    var rest := w.Keys - {k};
    var u := w[k := v];
    assert u.Keys - {k} == rest;
    SumRemove(u, u.Keys, k);
    SumCongruent(u, w, rest);
    if k in w {
      SumRemove(w, w.Keys, k);
    } else {
      assert rest == w.Keys;
    }
  }
}
