/** Big-endian integers and joined byte strings, as Python's struct lays them out. */
module Bytes {

  type Byte = x: int | 0 <= x < 256

  type Bytes = seq<Byte>

  datatype Result<T> = Ok(value: T) | Err

  /** 256 to the power of a width. */
  function Limit(width: nat): nat {
    if width == 0 then 1 else 256 * Limit(width - 1)
  }

  function Pack(n: nat, width: nat): (r: Bytes)
    ensures |r| == width
  {
    if width == 0 then [] else Pack(n / 256, width - 1) + [n % 256]
  }

  function Unpack(b: Bytes): nat {
    if b == [] then 0 else Unpack(b[..|b| - 1]) * 256 + b[|b| - 1]
  }

  lemma {:induction false} UnpackPack(n: nat, width: nat)
    requires n < Limit(width)
    ensures Unpack(Pack(n, width)) == n
  {
    if width > 0 {
      UnpackPack(n / 256, width - 1);
      assert Pack(n, width)[..width - 1] == Pack(n / 256, width - 1);
    }
  }

  function Zeros(n: nat): (r: Bytes)
    ensures |r| == n
  {
    seq(n, i => 0)
  }

  /** A slice past the front of a sum is a slice of the rest. */
  lemma SliceRight<T>(a: seq<T>, b: seq<T>, lo: nat, hi: nat)
    requires |a| <= lo <= hi <= |a| + |b|
    ensures (a + b)[lo..hi] == b[lo - |a|..hi - |a|]
  {
  }

  lemma SliceLeft<T>(a: seq<T>, b: seq<T>, lo: nat, hi: nat)
    requires lo <= hi <= |a|
    ensures (a + b)[lo..hi] == a[lo..hi]
  {
  }

  // ---------------------------------------------------------------- whole pages

  /** The length of `n` pages. */
  function Times(n: nat, size: nat): nat {
    if n == 0 then 0 else Times(n - 1, size) + size
  }

  /** How many whole pages `n` bytes fill, and how many bytes are left over. */
  function Whole(n: nat, size: nat): nat
    requires size > 0
  {
    n / size
  }

  function Rest(n: nat, size: nat): nat
    requires size > 0
  {
    n % size
  }

  lemma {:induction false} TimesAdd(a: nat, b: nat, size: nat)
    ensures Times(a + b, size) == Times(a, size) + Times(b, size)
  {
    if b > 0 { TimesAdd(a, b - 1, size); }
  }

  lemma {:induction false} TimesIsProduct(n: nat, size: nat)
    ensures Times(n, size) == n * size
  {
    if n > 0 {
      TimesIsProduct(n - 1, size);
      assert n * size == (n - 1) * size + size;
    }
  }

  lemma DivMod(x: nat, size: nat)
    requires size > 0
    ensures x == Times(Whole(x, size), size) + Rest(x, size) && Rest(x, size) < size
  {
    TimesIsProduct(x / size, size);
  }

  lemma {:induction false} TimesStrict(a: nat, b: nat, size: nat)
    requires a < b
    ensures Times(a, size) + size <= Times(b, size)
  {
    if a + 1 < b { TimesStrict(a, b - 1, size); }
  }

  lemma SameQuotient(q: nat, q': nat, r: nat, r': nat, size: nat)
    requires Times(q, size) + r == Times(q', size) + r' && r < size && r' < size
    ensures q == q' && r == r'
  {
    if q < q' {
      TimesStrict(q, q', size);
    } else if q' < q {
      TimesStrict(q', q, size);
    }
  }

  /** `n` whole pages and `k` bytes. */
  lemma WholePages(n: nat, k: nat, size: nat)
    requires size > 0
    ensures Rest(Times(n, size) + k, size) == Rest(k, size) && Whole(Times(n, size) + k, size) == n + Whole(k, size)
    ensures Times(n, size) + k - Rest(k, size) == Times(n + Whole(k, size), size)
  {
    hide Times, Whole, Rest;
    var total := Times(n, size) + k;
    DivMod(k, size);
    DivMod(total, size);
    TimesAdd(n, Whole(k, size), size);
    SameQuotient(Whole(total, size), n + Whole(k, size), Rest(total, size), Rest(k, size), size);
  }

  lemma CutFits(more: nat, cut: nat, size: nat)
    requires size > 0 && cut <= Times(more, size)
    ensures Whole(cut, size) <= more
  {
    hide Whole, Rest;
    DivMod(cut, size);
    if Whole(cut, size) > more {
      TimesStrict(more, Whole(cut, size), size);
    }
  }

  lemma BelowOnePage(n: nat, size: nat)
    requires n < size
    ensures Whole(n, size) == 0 && Rest(n, size) == n
  {
  }
}
