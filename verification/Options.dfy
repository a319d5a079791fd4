/** The conventional optional value, used for the source's `Option` and for its panics. */
module Options {
  datatype Option<+T> = None | Some(value: T)
}

/** Facts about finite sets that hold for any element type. */
module Sets {
  lemma Outside<T>(x: set<T>, z: set<T>) returns (a: T)
    requires !(x <= z)
    ensures a in x && a !in z
  {
    assert x - z != {} by {
      if x - z == {} {
        forall b | b in x ensures b in z {
          assert b !in x - z;
        }
      }
    }
    a :| a in x - z;
  }

  lemma Pick<T>(s: set<T>) returns (a: T)
    requires s != {}
    ensures a in s
  {
    a :| a in s;
  }

  lemma SubsetSize<T>(s: set<T>, t: set<T>)
    requires s <= t
    ensures |s| <= |t| && (s != t ==> |s| < |t|)
  {
    assert t == s + (t - s);
    assert |t| == |s| + |t - s|;
  }
}

/** A little arithmetic on natural numbers. */
module Naturals {
  function Min(a: nat, b: nat): nat {
    if a < b then a else b
  }

  function Max(a: nat, b: nat): nat {
    if a < b then b else a
  }

  function Pow2(n: nat): nat {
    if n == 0 then 1 else 2 * Pow2(n - 1)
  }
}
