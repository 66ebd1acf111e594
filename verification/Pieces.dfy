/** Sequences assembled from one piece per position of an input. */
module Pieces {
  /** The pieces of positions 0..n, joined in order. */
  ghost function Join<T>(piece: nat -> seq<T>, n: nat): seq<T> {
    if n == 0 then [] else Join(piece, n - 1) + piece(n - 1)
  }

  lemma {:induction false} JoinGrows<T>(piece: nat -> seq<T>, a: nat, b: nat)
    requires a <= b
    ensures Join(piece, a) <= Join(piece, b)
    decreases b - a
  {
    if a < b {
      JoinGrows(piece, a, b - 1);
    }
  }

  /** A one-element piece lands at the length of what precedes it, and later pieces land later. */
  lemma LandsAt<T>(piece: nat -> seq<T>, k: nat, n: nat)
    requires k < n && |piece(k)| == 1
    ensures |Join(piece, k + 1)| == |Join(piece, k)| + 1 <= |Join(piece, n)|
    ensures Join(piece, n)[|Join(piece, k)|] == piece(k)[0]
  {
    JoinGrows(piece, k + 1, n);
  }

  /** When no piece is longer than one, every joined element is the piece of some position. */
  lemma {:induction false} ComesFrom<T>(piece: nat -> seq<T>, n: nat, o: nat) returns (k: nat)
    requires forall i: nat :: |piece(i)| <= 1
    requires o < |Join(piece, n)|
    ensures k < n && |Join(piece, k)| == o && piece(k) == [Join(piece, n)[o]]
  {
    if o < |Join(piece, n - 1)| {
      k := ComesFrom(piece, n - 1, o);
    } else {
      k := n - 1;
    }
  }

  lemma {:induction false} JoinIsShort<T>(piece: nat -> seq<T>, n: nat)
    requires forall i: nat :: |piece(i)| <= 1
    ensures |Join(piece, n)| <= n
  {
    if n == 0 {
    } else {
      JoinIsShort(piece, n - 1);
    }
  }

  /** When no piece is longer than one, the pieces join to `s` exactly when each is the element of `s` there. */
  lemma {:induction false} JoinsTo<T>(piece: nat -> seq<T>, s: seq<T>)
    requires forall i: nat :: |piece(i)| <= 1
    ensures Join(piece, |s|) == s <==> forall k: nat :: k < |s| ==> piece(k) == [s[k]]
  {
    if |s| == 0 {
    } else {
      var n := |s| - 1;
      JoinsTo(piece, s[..n]);
      JoinIsShort(piece, n);
      assert s == s[..n] + [s[n]];
      if Join(piece, n + 1) == s {
        assert |Join(piece, n)| == n;
        assert Join(piece, n) == s[..n] && piece(n) == [s[n]];
        forall k: nat | k < |s| ensures piece(k) == [s[k]] {
          assert k < n ==> s[..n][k] == s[k];
        }
      }
    }
  }

  /** Two one-element pieces land one before the other. */
  lemma LandApart<T>(piece: nat -> seq<T>, j: nat, k: nat, n: nat)
    requires j < k < n && |piece(j)| == 1 && |piece(k)| == 1
    ensures |Join(piece, j)| < |Join(piece, k)| < |Join(piece, n)|
    ensures |Join(piece, k + 1)| == |Join(piece, k)| + 1
    ensures Join(piece, n)[|Join(piece, k)|] == piece(k)[0]
  {
    LandsAt(piece, j, k);
    LandsAt(piece, k, n);
  }
}
