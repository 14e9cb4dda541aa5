/**
 * The `bimap::BiHashMap<String, String>` the rename table is kept in: a one-to-one
 * relation between left values (visible macro names) and right values (expanded,
 * linkable names), held as two maps that are each other's inverse.
 */
module BiMaps {
  import opened Wrappers

  datatype BiMap = BiMap(left: map<string, string>, right: map<string, string>)
  {
    /** The two views agree: `right` is exactly the inverse of `left`. */
    ghost predicate Valid() {
      && (forall l :: l in left ==> left[l] in right && right[left[l]] == l)
      && (forall r :: r in right ==> right[r] in left && left[right[r]] == r)
    }

    /** The pair `(l, r)` is in the relation. */
    predicate Has(l: string, r: string) {
      l in left && left[l] == r
    }

    /**
     * `insert(l, r)`: the pair is added, and any pair that shares its left value or
     * its right value is removed first.
     */
    function Insert(l: string, r: string): (m: BiMap)
      requires Valid()
      ensures m.Valid()
      ensures forall a, b :: m.Has(a, b) <==> (a == l && b == r) || (a != l && b != r && Has(a, b))
    {
      var left1 := if l in left then left - {l} else left;
      var right1 := if l in left then right - {left[l]} else right;
      var left2 := if r in right1 then left1 - {right1[r]} else left1;
      var right2 := if r in right1 then right1 - {r} else right1;
      BiMap(left2[l := r], right2[r := l])
    }

    /** `get_by_left(l)` */
    function GetByLeft(l: string): (r: Option<string>)
      ensures r.None? ==> forall b :: !Has(l, b)
      ensures r.Some? ==> Has(l, r.value)
    {
      if l in left then Some(left[l]) else None
    }

    /** `get_by_right(r)` */
    function GetByRight(r: string): (res: Option<string>)
      requires Valid()
      ensures res.None? ==> forall a :: !Has(a, r)
      ensures res.Some? ==> Has(res.value, r)
    {
      if r in right then Some(right[r]) else None
    }
  }

  /** `BiHashMap::new()` */
  function Empty(): (m: BiMap)
    ensures m.Valid()
    ensures forall a, b :: !m.Has(a, b)
  {
    BiMap(map[], map[])
  }

  /** Inserting a pair that is already present changes nothing. */
  lemma InsertPresent(m: BiMap, l: string, r: string)
    requires m.Valid() && m.Has(l, r)
    ensures m.Insert(l, r) == m
  {
    var m' := m.Insert(l, r);
    assert m'.left == m.left by {
      forall a | a in m.left ensures a in m'.left && m'.left[a] == m.left[a] {
        assert m.Has(a, m.left[a]);
        assert m'.Has(a, m.left[a]);
      }
      forall a | a in m'.left ensures a in m.left {
        assert m'.Has(a, m'.left[a]);
      }
    }
    assert m'.right == m.right by {
      forall b | b in m.right ensures b in m'.right && m'.right[b] == m.right[b] {
        assert m.Has(m.right[b], b);
        assert m'.Has(m.right[b], b);
      }
      forall b | b in m'.right ensures b in m.right {
        assert m'.Has(m'.right[b], b);
      }
    }
  }

  /** Inserting the same pair twice is the same as inserting it once. */
  lemma InsertIdempotent(m: BiMap, l: string, r: string)
    requires m.Valid()
    ensures m.Insert(l, r).Insert(l, r) == m.Insert(l, r)
  {
    InsertPresent(m.Insert(l, r), l, r);
  }

  /** The two bimaps hold the same pairs, except possibly pairs sharing a side with `(l, r)`. */
  ghost predicate AgreeExcept(m1: BiMap, m2: BiMap, l: string, r: string) {
    forall a, b :: a != l && b != r ==> (m1.Has(a, b) <==> m2.Has(a, b))
  }

  /** Two consistent bimaps holding the same pairs are the same bimap. */
  lemma Extensional(m1: BiMap, m2: BiMap)
    requires m1.Valid() && m2.Valid()
    requires forall a, b :: m1.Has(a, b) <==> m2.Has(a, b)
    ensures m1 == m2
  {
    assert m1.left == m2.left by {
      forall a | a in m1.left ensures a in m2.left && m2.left[a] == m1.left[a] {
        assert m1.Has(a, m1.left[a]);
      }
      forall a | a in m2.left ensures a in m1.left {
        assert m2.Has(a, m2.left[a]);
      }
    }
    assert m1.right == m2.right by {
      forall b | b in m1.right ensures b in m2.right && m2.right[b] == m1.right[b] {
        assert m1.Has(m1.right[b], b);
      }
      forall b | b in m2.right ensures b in m1.right {
        assert m2.Has(m2.right[b], b);
      }
    }
  }

  /** Inserting the same pair into two bimaps keeps whatever agreement they had. */
  lemma InsertKeepsAgreement(m1: BiMap, m2: BiMap, x: string, y: string, l: string, r: string)
    requires m1.Valid() && m2.Valid() && AgreeExcept(m1, m2, l, r)
    ensures AgreeExcept(m1.Insert(x, y), m2.Insert(x, y), l, r)
  {
  }

  /**
   * Inserting `(l, r)` overwrites every pair sharing a side with it, so it erases any
   * difference between two bimaps that agree except on such pairs.
   */
  lemma InsertAbsorbs(m1: BiMap, m2: BiMap, l: string, r: string)
    requires m1.Valid() && m2.Valid() && AgreeExcept(m1, m2, l, r)
    ensures m1.Insert(l, r) == m2.Insert(l, r)
  {
    Extensional(m1.Insert(l, r), m2.Insert(l, r));
  }
}
