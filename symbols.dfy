/** Token symbols and pool keys: Python's ordering of `str` values, the
    canonical key `min-max` the registry files a pool under, and `str.split`,
    which the aggregate views use to recover the two symbols from a key. */
module Symbols {

  /** Python's `x < y` on strings: lexicographic by code point, with a proper
      prefix ordered before the longer string. (Dafny's own `<` on sequences
      means "proper prefix", which is a different relation.) */
  predicate Less(x: string, y: string)
  {
    if |x| == 0 then 0 < |y|
    else if |y| == 0 then false
    else if x[0] != y[0] then x[0] < y[0]
    else Less(x[1..], y[1..])
  }

  lemma {:induction false} LessIrreflexive(x: string)
    ensures !Less(x, x)
  {
    if |x| > 0 {
      LessIrreflexive(x[1..]);
    }
  }

  lemma {:induction false} LessAsymmetric(x: string, y: string)
    ensures !(Less(x, y) && Less(y, x))
  {
    if |x| > 0 && |y| > 0 && x[0] == y[0] {
      LessAsymmetric(x[1..], y[1..]);
    }
  }

  /** Any two different symbols are ordered one way or the other. */
  lemma {:induction false} LessTotal(x: string, y: string)
    ensures x == y || Less(x, y) || Less(y, x)
  {
    if |x| > 0 && |y| > 0 && x[0] == y[0] {
      LessTotal(x[1..], y[1..]);
      if x[1..] == y[1..] {
        assert x == [x[0]] + x[1..] && y == [y[0]] + y[1..];
      }
    }
  }

  lemma {:induction false} LessTransitive(x: string, y: string, z: string)
    requires Less(x, y) && Less(y, z)
    ensures Less(x, z)
  {
    if |x| > 0 && x[0] == y[0] && y[0] == z[0] {
      LessTransitive(x[1..], y[1..], z[1..]);
    }
  }

  /** Python's `min(a, b)`: `a` unless `b` sorts strictly before it. */
  function MinSymbol(a: string, b: string): string
  {
    if Less(b, a) then b else a
  }

  /** Python's `max(a, b)`: `a` unless `b` sorts strictly after it. */
  function MaxSymbol(a: string, b: string): string
  {
    if Less(a, b) then b else a
  }

  /** `AMM._get_pool_key`: the smaller symbol, a dash, the larger symbol. */
  function PoolKey(a: string, b: string): string
  {
    MinSymbol(a, b) + "-" + MaxSymbol(a, b)
  }

  /** The key does not depend on the order in which the two symbols are given,
      and it always puts the symbol that sorts first on the left. */
  lemma PoolKeyCanonical(a: string, b: string)
    ensures PoolKey(a, b) == PoolKey(b, a)
    ensures !Less(b, a) ==> PoolKey(a, b) == a + "-" + b
    ensures Less(b, a) ==> PoolKey(a, b) == b + "-" + a
  {
    LessTotal(a, b);
    LessAsymmetric(a, b);
  }

  /** Python's `s.split(sep)` for a one-character separator: the maximal runs
      between separators, so there is always one part more than there are
      separators. */
  function Split(s: string, sep: char): (parts: seq<string>)
    ensures 1 <= |parts|
    decreases |s|
  {
    if |s| == 0 then [""]
    else
      var rest := Split(s[1..], sep);
      if s[0] == sep then [""] + rest
      else [[s[0]] + rest[0]] + rest[1..]
  }

  /** The number of occurrences of `c` in `s`. */
  function Occurrences(s: string, c: char): nat
  {
    if |s| == 0 then 0 else (if s[0] == c then 1 else 0) + Occurrences(s[1..], c)
  }

  lemma {:induction false} OccurrencesAppend(s: string, t: string, c: char)
    ensures Occurrences(s + t, c) == Occurrences(s, c) + Occurrences(t, c)
  {
    if |s| > 0 {
      assert (s + t)[1..] == s[1..] + t;
      OccurrencesAppend(s[1..], t, c);
    } else {
      assert s + t == t;
    }
  }

  lemma {:induction false} OccurrencesZero(s: string, c: char)
    ensures Occurrences(s, c) == 0 <==> c !in s
  {
    if |s| > 0 {
      OccurrencesZero(s[1..], c);
      assert s == [s[0]] + s[1..];
    }
  }

  /** `split` yields one part more than there are separators. */
  lemma {:induction false} SplitLength(s: string, sep: char)
    ensures |Split(s, sep)| == Occurrences(s, sep) + 1
  {
    if |s| > 0 {
      SplitLength(s[1..], sep);
    }
  }

  /** A string without the separator splits into itself. */
  lemma {:induction false} SplitWhole(s: string, sep: char)
    requires sep !in s
    ensures Split(s, sep) == [s]
  {
    if |s| > 0 {
      assert sep !in s[1..];
      SplitWhole(s[1..], sep);
      assert s == [s[0]] + s[1..];
    }
  }

  /** Splitting at the first separator peels off the part before it. */
  lemma {:induction false} SplitFirst(a: string, b: string, sep: char)
    requires sep !in a
    ensures Split(a + [sep] + b, sep) == [a] + Split(b, sep)
  {
    var s := a + [sep] + b;
    if |a| == 0 {
      assert s[1..] == b;
    } else {
      assert s[1..] == a[1..] + [sep] + b;
      assert sep !in a[1..];
      SplitFirst(a[1..], b, sep);
      assert [a[0]] + a[1..] == a;
    }
  }

  /** For dash-free symbols the key splits back into the two symbols, in
      canonical order. */
  lemma SplitPoolKey(a: string, b: string)
    requires '-' !in a && '-' !in b
    ensures Split(PoolKey(a, b), '-') == [MinSymbol(a, b), MaxSymbol(a, b)]
  {
    var lo, hi := MinSymbol(a, b), MaxSymbol(a, b);
    assert PoolKey(a, b) == lo + ['-'] + hi;
    SplitFirst(lo, hi, '-');
    SplitWhole(hi, '-');
  }

  /** A symbol containing a dash makes the key split into more than two parts. */
  lemma SplitPoolKeyMalformed(a: string, b: string)
    requires '-' in a || '-' in b
    ensures 2 < |Split(PoolKey(a, b), '-')|
  {
    var lo, hi := MinSymbol(a, b), MaxSymbol(a, b);
    LessTotal(a, b);
    LessAsymmetric(a, b);
    assert '-' in lo || '-' in hi;
    assert PoolKey(a, b) == lo + (['-'] + hi);
    OccurrencesAppend(lo, ['-'] + hi, '-');
    OccurrencesAppend(['-'], hi, '-');
    assert Occurrences(['-'], '-') == 1;
    OccurrencesZero(lo, '-');
    OccurrencesZero(hi, '-');
    SplitLength(PoolKey(a, b), '-');
  }

  /** For dash-free symbols two pairs share a key exactly when they are the
      same unordered pair. */
  lemma PoolKeyIdentifiesPair(a: string, b: string, c: string, d: string)
    requires '-' !in a && '-' !in b && '-' !in c && '-' !in d
    ensures PoolKey(a, b) == PoolKey(c, d) <==> ((a == c && b == d) || (a == d && b == c))
  {
    SplitPoolKey(a, b);
    SplitPoolKey(c, d);
    PoolKeyCanonical(a, b);
    PoolKeyCanonical(c, d);
    LessTotal(a, b);
    LessTotal(c, d);
    LessAsymmetric(a, b);
    LessAsymmetric(c, d);
  }
}
