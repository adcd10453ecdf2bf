/** The string operations of Go's `strings` package that the core relies on. */
module Text {
  import opened Wrappers
  import opened Collections

  /** `strings.Index(s, string(c))`: the first position of `c` in `s`, or -1. */
  function IndexOf(s: string, c: char): (r: int)
    ensures -1 <= r < |s|
    ensures r == -1 <==> c !in s
    ensures r >= 0 ==> s[r] == c && c !in s[..r]
  {
    if |s| == 0 then -1
    else if s[0] == c then 0
    else
      var k := IndexOf(s[1..], c);
      if k == -1 then -1
      else
        assert s[..k + 1] == [s[0]] + s[1..][..k];
        k + 1
  }

  /** `strings.SplitN(s, string(sep), 2)` when it yields two parts: the text before the
      first `sep` and the text after it; `None` when `sep` does not occur (one part). */
  function SplitFirst(s: string, sep: char): (r: Option<(string, string)>)
    ensures r.None? <==> sep !in s
    ensures r.Some? ==> s == r.value.0 + [sep] + r.value.1 && sep !in r.value.0
  {
    var i := IndexOf(s, sep);
    if i < 0 then None
    else
      assert s == s[..i] + [sep] + s[i + 1..];
      Some((s[..i], s[i + 1..]))
  }

  /** Splitting is at the first separator: any decomposition whose left part has no
      separator is the one `SplitFirst` returns. */
  lemma SplitFirstUnique(a: string, sep: char, b: string)
    requires sep !in a
    ensures SplitFirst(a + [sep] + b, sep) == Some((a, b))
  {
    var s := a + [sep] + b;
    assert s[|a|] == sep;
    var r := SplitFirst(s, sep);
    var a', b' := r.value.0, r.value.1;
    assert a' == s[..|a|] == a;
    assert b' == s[|a| + 1..] == b;
  }

  // ---------------------------------------------------------------------------
  // Byte positions: Go strings are UTF-8 bytes, and `strings.Index`, `len` and
  // slicing count bytes, not characters.
  // ---------------------------------------------------------------------------

  /** The number of bytes UTF-8 takes for `c`. */
  function Utf8Length(c: char): (n: nat)
    ensures 1 <= n <= 4
    ensures n == 1 <==> c as int < 0x80
  {
    if c as int < 0x80 then 1
    else if c as int < 0x800 then 2
    else if c as int < 0x1_0000 then 3
    else 4
  }

  /** `len(s)`: the length of the UTF-8 encoding of `s`. */
  function ByteLength(s: string): (n: nat)
    ensures |s| <= n <= 4 * |s|
  {
    if |s| == 0 then 0 else Utf8Length(s[0]) + ByteLength(s[1..])
  }

  lemma {:induction false} ByteLengthAppend(a: string, b: string)
    ensures ByteLength(a + b) == ByteLength(a) + ByteLength(b)
  {
    if |a| > 0 {
      assert (a + b)[0] == a[0] && (a + b)[1..] == a[1..] + b;
      ByteLengthAppend(a[1..], b);
    } else {
      assert a + b == b;
    }
  }

  /** On ASCII text bytes and characters coincide. */
  lemma {:induction false} AsciiByteLength(s: string)
    requires forall i :: 0 <= i < |s| ==> s[i] as int < 0x80
    ensures ByteLength(s) == |s|
  {
    if |s| > 0 {
      assert forall i :: 0 <= i < |s[1..]| ==> s[1..][i] == s[i + 1];
      AsciiByteLength(s[1..]);
    }
  }

  /** `strings.Index(s, string(c))`: the byte offset of the first `c`, or -1. UTF-8 is
      self-synchronizing, so the first match of the encoding of `c` is the encoding of
      the first character `c`. */
  function ByteIndexOf(s: string, c: char): (r: int)
    ensures r == -1 <==> c !in s
    ensures r >= 0 ==> r < ByteLength(s)
  {
    var i := IndexOf(s, c);
    if i < 0 then -1
    else
      assert s == s[..i] + s[i..];
      ByteLengthAppend(s[..i], s[i..]);
      ByteLength(s[..i])
  }

  /** The byte index of the first `c` is the byte length of what precedes it. */
  lemma ByteIndexOfSplit(p: string, c: char, t: string)
    requires c !in p
    ensures ByteIndexOf(p + [c] + t, c) == ByteLength(p)
  {
    var s := p + [c] + t;
    assert s[|p|] == c;
    var i := IndexOf(s, c);
    assert s[..|p|] == p;
    assert i == |p|;
    assert s[..i] == p;
  }

  /** The characters of `s` whose encoding ends within its first `b` bytes. */
  function TakeBytes(s: string, b: nat): (r: string)
  {
    if |s| == 0 || Utf8Length(s[0]) > b then []
    else [s[0]] + TakeBytes(s[1..], b - Utf8Length(s[0]))
  }

  /** The characters of `s` after its first `b` bytes; a character the cut falls inside
      is dropped whole. */
  function DropBytes(s: string, b: nat): (r: string)
  {
    if b == 0 || |s| == 0 then s
    else DropBytes(s[1..], if Utf8Length(s[0]) >= b then 0 else b - Utf8Length(s[0]))
  }

  /** Go's `s[lo:hi]` on a string, counting bytes. */
  function ByteSlice(s: string, lo: nat, hi: nat): (r: string)
  {
    DropBytes(TakeBytes(s, hi), lo)
  }

  lemma {:induction false} TakeBytesPrefix(p: string, t: string)
    ensures TakeBytes(p + t, ByteLength(p)) == p + TakeBytes(t, 0)
  {
    if |p| > 0 {
      assert (p + t)[0] == p[0] && (p + t)[1..] == p[1..] + t;
      TakeBytesPrefix(p[1..], t);
      assert p == [p[0]] + p[1..];
    }
  }

  lemma {:induction false} DropBytesPrefix(p: string, t: string)
    ensures DropBytes(p + t, ByteLength(p)) == t
  {
    if |p| > 0 {
      assert (p + t)[0] == p[0] && (p + t)[1..] == p[1..] + t;
      DropBytesPrefix(p[1..], t);
    }
  }

  /** Slicing between two character boundaries gives the characters between them. */
  lemma ByteSliceBetween(p: string, m: string, t: string)
    ensures ByteSlice(p + m + t, ByteLength(p), ByteLength(p) + ByteLength(m)) == m
  {
    var pm := p + m;
    var hi := ByteLength(p) + ByteLength(m);
    ByteLengthAppend(p, m);
    assert hi == ByteLength(pm);
    TakeBytesPrefix(pm, t);
    TakeNothing(t);
    var taken := TakeBytes(pm + t, hi);
    assert taken == pm + [];
    assert taken == pm;
    DropBytesPrefix(p, m);
    assert DropBytes(taken, ByteLength(p)) == m;
    assert ByteSlice(pm + t, ByteLength(p), hi) == m;
    assert p + m + t == pm + t;
  }

  lemma TakeNothing(t: string)
    ensures TakeBytes(t, 0) == []
  {
    if |t| > 0 {
      assert Utf8Length(t[0]) > 0;
    }
  }

  /** `strings.Compare(a, b) < 0`: byte-wise lexicographic order. UTF-8 preserves the
      order of code points, so comparing characters gives the same order. */
  predicate LexLess(a: string, b: string) {
    if |a| == 0 then |b| > 0
    else if |b| == 0 then false
    else if a[0] != b[0] then a[0] < b[0]
    else LexLess(a[1..], b[1..])
  }

  lemma {:induction false} LexLessIrreflexive(a: string)
    ensures !LexLess(a, a)
  {
    if |a| > 0 {
      LexLessIrreflexive(a[1..]);
    }
  }

  lemma {:induction false} LexLessTransitive(a: string, b: string, c: string)
    requires LexLess(a, b) && LexLess(b, c)
    ensures LexLess(a, c)
  {
    if |a| > 0 && a[0] == b[0] && b[0] == c[0] {
      LexLessTransitive(a[1..], b[1..], c[1..]);
    }
  }

  lemma {:induction false} LexLessTotal(a: string, b: string)
    requires a != b
    ensures LexLess(a, b) || LexLess(b, a)
  {
    if |a| > 0 && |b| > 0 && a[0] == b[0] {
      assert a == [a[0]] + a[1..] && b == [b[0]] + b[1..];
      LexLessTotal(a[1..], b[1..]);
    }
  }

  lemma {:induction false} LexLessAsymmetric(a: string, b: string)
    requires LexLess(a, b)
    ensures !LexLess(b, a)
  {
    if |a| > 0 && |b| > 0 && a[0] == b[0] {
      LexLessAsymmetric(a[1..], b[1..]);
    }
  }

  /** "Not greater" is transitive, since `LexLess` is a strict total order. */
  lemma LexLeqTransitive(a: string, b: string, c: string)
    requires !LexLess(b, a) && !LexLess(c, b)
    ensures !LexLess(c, a)
  {
    if LexLess(c, a) {
      if a == b {
      } else {
        LexLessTotal(a, b);
        LexLessTransitive(c, a, b);
      }
    }
  }

  /** Non-decreasing in `LexLess`: what `sort.Slice` with `strings.Compare(x, y) < 0` produces. */
  predicate Sorted(s: seq<string>) {
    forall i, j :: 0 <= i < j < |s| ==> !LexLess(s[j], s[i])
  }

  predicate StrictlyAscending(s: seq<string>) {
    forall i, j :: 0 <= i < j < |s| ==> LexLess(s[i], s[j])
  }

  function Insert(x: string, s: seq<string>): (r: seq<string>) {
    if |s| == 0 then [x]
    else if LexLess(s[0], x) then [s[0]] + Insert(x, s[1..])
    else [x] + s
  }

  lemma {:induction false} InsertSorted(x: string, s: seq<string>)
    requires Sorted(s)
    ensures Sorted(Insert(x, s))
    ensures multiset(Insert(x, s)) == multiset(s) + multiset{x}
  {
    if |s| == 0 {
    } else if LexLess(s[0], x) {
      var t := Insert(x, s[1..]);
      assert Sorted(s[1..]);
      InsertSorted(x, s[1..]);
      assert s == [s[0]] + s[1..];
      forall j | 0 <= j < |t| ensures !LexLess(t[j], s[0]) {
        assert t[j] in multiset(t);
        if t[j] == x {
          LexLessAsymmetric(s[0], x);
        } else {
          assert t[j] in multiset(s[1..]);
          var k :| 0 <= k < |s[1..]| && s[1..][k] == t[j];
          assert s[k + 1] == t[j];
        }
      }
      SortedCons(s[0], t);
      assert Insert(x, s) == [s[0]] + t;
    } else {
      forall j | 0 <= j < |s| ensures !LexLess(s[j], x) {
        if j > 0 {
          LexLeqTransitive(x, s[0], s[j]);
        }
      }
      SortedCons(x, s);
      assert Insert(x, s) == [x] + s;
    }
  }

  /** A head no greater than anything after it keeps a sorted sequence sorted. */
  lemma SortedCons(h: string, t: seq<string>)
    requires Sorted(t) && forall j :: 0 <= j < |t| ==> !LexLess(t[j], h)
    ensures Sorted([h] + t)
  {
    var r := [h] + t;
    forall i, j | 0 <= i < j < |r| ensures !LexLess(r[j], r[i]) {
      assert r[j] == t[j - 1];
      if i > 0 {
        assert r[i] == t[i - 1];
      }
    }
  }

  /** Insertion sort: a definition of what `sort.Slice` returns for the ordering above. */
  function SortStrings(s: seq<string>): (r: seq<string>) {
    if |s| == 0 then [] else Insert(s[0], SortStrings(s[1..]))
  }

  lemma {:induction false} SortStringsCorrect(s: seq<string>)
    ensures Sorted(SortStrings(s))
    ensures multiset(SortStrings(s)) == multiset(s)
  {
    if |s| > 0 {
      SortStringsCorrect(s[1..]);
      InsertSorted(s[0], SortStrings(s[1..]));
      assert s == [s[0]] + s[1..];
    }
  }

  /** Sorting distinct strings orders them strictly. */
  lemma SortedDistinctAscending(s: seq<string>)
    requires Sorted(s) && NoDuplicates(s)
    ensures StrictlyAscending(s)
  {
    forall i, j | 0 <= i < j < |s| ensures LexLess(s[i], s[j]) {
      LexLessTotal(s[i], s[j]);
    }
  }

  /** A permutation of a sequence without repeats has no repeats either. */
  lemma PermutationKeepsDistinct<T>(a: seq<T>, b: seq<T>)
    requires multiset(a) == multiset(b) && NoDuplicates(a)
    ensures NoDuplicates(b)
  {
    assert |a| == |multiset(a)| == |multiset(b)| == |b|;
    assert ToSet(a) == ToSet(b) by {
      forall x ensures x in a <==> x in b {
        assert x in a <==> x in multiset(a);
        assert x in b <==> x in multiset(b);
      }
    }
    DistinctCount(a);
    DistinctCount(b);
  }

  /** Sorting distinct strings gives the same values, strictly ascending. */
  lemma SortDistinct(keys: seq<string>)
    requires NoDuplicates(keys)
    ensures var ids := SortStrings(keys);
      StrictlyAscending(ids) && ToSet(ids) == ToSet(keys) && NoDuplicates(ids) && |ids| == |keys|
  {
    var ids := SortStrings(keys);
    SortStringsCorrect(keys);
    PermutationKeepsDistinct(keys, ids);
    SortedDistinctAscending(ids);
    assert |ids| == |multiset(ids)| == |multiset(keys)| == |keys|;
    forall id ensures id in ids <==> id in keys {
      assert id in ids <==> id in multiset(ids);
      assert id in keys <==> id in multiset(keys);
    }
  }

  /** Strictly ascending order is determined by the set of values alone. */
  lemma {:induction false} StrictlyAscendingUnique(a: seq<string>, b: seq<string>)
    requires StrictlyAscending(a) && StrictlyAscending(b) && ToSet(a) == ToSet(b)
    ensures a == b
  {
    EmptyToSet(a);
    EmptyToSet(b);
    if |a| == 0 || |b| == 0 {
    } else {
      assert a[0] in ToSet(b) && b[0] in ToSet(a);
      if a[0] != b[0] {
        var i :| 0 <= i < |b| && b[i] == a[0];
        var j :| 0 <= j < |a| && a[j] == b[0];
        assert i > 0 && j > 0;
        LexLessAsymmetric(b[0], a[0]);
        assert false;
      }
      assert ToSet(a[1..]) == ToSet(b[1..]) by {
        forall x ensures x in a[1..] <==> x in b[1..] {
          if x in a[1..] {
            var k :| 0 <= k < |a[1..]| && a[1..][k] == x;
            assert a[k + 1] == x && LexLess(a[0], x);
            LexLessIrreflexive(x);
            assert x in ToSet(b);
            var m :| 0 <= m < |b| && b[m] == x;
            assert m > 0;
            assert b[1..][m - 1] == x;
          }
          if x in b[1..] {
            var k :| 0 <= k < |b[1..]| && b[1..][k] == x;
            assert b[k + 1] == x && LexLess(b[0], x);
            LexLessIrreflexive(x);
            assert x in ToSet(a);
            var m :| 0 <= m < |a| && a[m] == x;
            assert m > 0;
            assert a[1..][m - 1] == x;
          }
        }
      }
      StrictlyAscendingUnique(a[1..], b[1..]);
      assert a == [a[0]] + a[1..] && b == [b[0]] + b[1..];
    }
  }
}
