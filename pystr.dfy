/** The Python string, list and path operations that the image preloader
    relies on, on `string` (= seq<char>) and sequences. */
module PyStr {

  // ---------------------------------------------------------------------
  // Substrings: `needle in hay` on two strings

  /** `needle` occurs in `hay` starting at index `i`. */
  predicate OccursAt(needle: string, hay: string, i: int)
  {
    var n := |needle|;
    0 <= i && i + n <= |hay| && hay[i..i + n] == needle
  }

  /** Python `needle in hay` for two strings. */
  predicate Contains(needle: string, hay: string)
  {
    exists i | 0 <= i <= |hay| :: OccursAt(needle, hay, i)
  }

  /** A substring of a substring is a substring. */
  lemma ContainsTransitive(a: string, b: string, c: string)
    requires Contains(a, b) && Contains(b, c)
    ensures Contains(a, c)
  {
    var i :| 0 <= i <= |b| && OccursAt(a, b, i);
    var j :| 0 <= j <= |c| && OccursAt(b, c, j);
    var k, n := j + i, |a|;
    assert 0 <= i && i + n <= |b| && 0 <= j && j + |b| <= |c|;
    forall t | 0 <= t < n
      ensures c[k + t] == a[t]
    {
      assert a[t] == b[i + t];
      assert b[i + t] == c[j + i + t];
    }
    assert c[k..k + n] == a;
    assert OccursAt(a, c, k);
  }

  /** A string contains every one of its own pieces. */
  lemma ContainsPiece(x: string, y: string, z: string)
    ensures Contains(y, x + y + z)
  {
    assert (x + y + z)[|x|..|x| + |y|] == y;
    assert OccursAt(y, x + y + z, |x|);
  }

  // ---------------------------------------------------------------------
  // str.split with a one-character separator

  /** Python `s.split(sep)` for a one-character `sep`: the pieces between
      separators, empty pieces included, so there is always at least one. */
  function Split(s: string, sep: char): (parts: seq<string>)
    ensures |parts| >= 1
    ensures forall k :: 0 <= k < |parts| ==> sep !in parts[k]
  {
    if s == [] then [[]]
    else
      var rest := Split(s[1..], sep);
      if s[0] == sep then [[]] + rest
      else [[s[0]] + rest[0]] + rest[1..]
  }

  /** Python `sep.join(parts)`. */
  function Join(parts: seq<string>, sep: char): string
  {
    if parts == [] then []
    else if |parts| == 1 then parts[0]
    else parts[0] + [sep] + Join(parts[1..], sep)
  }

  /** Splitting loses nothing: joining the pieces back gives the string. */
  lemma {:induction false} JoinSplit(s: string, sep: char)
    ensures Join(Split(s, sep), sep) == s
  {
    if s != [] {
      var rest := Split(s[1..], sep);
      JoinSplit(s[1..], sep);
      if s[0] == sep {
        assert ([[]] + rest)[1..] == rest;
      } else {
        var parts := [[s[0]] + rest[0]] + rest[1..];
        if |rest| == 1 {
          assert parts == [[s[0]] + rest[0]];
        } else {
          assert parts[1..] == rest[1..];
          assert Join(rest, sep) == rest[0] + [sep] + Join(rest[1..], sep);
        }
      }
    }
  }

  // ---------------------------------------------------------------------
  // posixpath.join for two components

  /** `os.path.join(a, b)` on POSIX: `b` alone if it is absolute, otherwise
      `a` and `b` with one '/' between them unless `a` is empty or ends in '/'. */
  function PathJoin(a: string, b: string): (r: string)
    ensures |r| >= |b| && r[|r| - |b|..] == b
    ensures (b == [] || b[0] != '/') ==> a <= r
    ensures (b == [] || b[0] != '/') && a != [] && a[|a| - 1] != '/' ==> r == a + "/" + b
  {
    if b != [] && b[0] == '/' then b
    else if a == [] || a[|a| - 1] == '/' then a + b
    else a + "/" + b
  }

  // ---------------------------------------------------------------------
  // Appending to a list only what it does not hold yet

  predicate NoDups<T(==)>(xs: seq<T>)
  {
    forall i, j :: 0 <= i < j < |xs| ==> xs[i] != xs[j]
  }

  /** The list built by `for x in xs: if x not in out: out.append(x)`. */
  function Dedup<T(==)>(xs: seq<T>): (r: seq<T>)
    ensures NoDups(r)
    ensures forall i :: 0 <= i < |r| ==> r[i] in xs
    ensures forall i :: 0 <= i < |xs| ==> xs[i] in r
  {
    if xs == [] then []
    else
      var init := xs[..|xs| - 1];
      var d := Dedup(init);
      assert xs == init + [xs[|xs| - 1]];
      if xs[|xs| - 1] in d then d else d + [xs[|xs| - 1]]
  }

  /** `Dedup` keeps every element and adds none. */
  lemma DedupSameElements<T>(xs: seq<T>)
    ensures forall x :: x in Dedup(xs) <==> x in xs
  {
    var d := Dedup(xs);
    forall x | x in xs
      ensures x in d
    {
      var k :| 0 <= k < |xs| && xs[k] == x;
    }
  }

  /** One more step of the append-if-absent loop. */
  lemma DedupSnoc<T>(xs: seq<T>, x: T)
    ensures Dedup(xs + [x]) == if x in Dedup(xs) then Dedup(xs) else Dedup(xs) + [x]
  {
    assert (xs + [x])[..|xs|] == xs;
  }

  /** Index of the first occurrence of `x` in `xs`. */
  function FirstIndex<T(==)>(xs: seq<T>, x: T): (k: nat)
    requires x in xs
    ensures k < |xs| && xs[k] == x && x !in xs[..k]
  {
    var n := |xs| - 1;
    if x in xs[..n] then
      var k := FirstIndex(xs[..n], x);
      assert xs[..n][..k] == xs[..k];
      k
    else n
  }

  /** `Dedup` lists the elements in the order of their first occurrences. */
  lemma {:induction false} DedupFirstOccurrenceOrder<T>(xs: seq<T>)
    ensures forall i, j :: 0 <= i < j < |Dedup(xs)| ==>
      Dedup(xs)[i] in xs && Dedup(xs)[j] in xs &&
      FirstIndex(xs, Dedup(xs)[i]) < FirstIndex(xs, Dedup(xs)[j])
  {
    if xs != [] {
      var n := |xs| - 1;
      var init := xs[..n];
      var d := Dedup(init);
      DedupFirstOccurrenceOrder(init);
      assert xs == init + [xs[n]];
      forall y | y in init
        ensures y in xs && FirstIndex(xs, y) == FirstIndex(init, y)
      {
      }
      var r := Dedup(xs);
      forall i, j | 0 <= i < j < |r|
        ensures r[i] in xs && r[j] in xs && FirstIndex(xs, r[i]) < FirstIndex(xs, r[j])
      {
        assert r[i] == d[i] && r[i] in init;
        if j < |d| {
          assert r[j] == d[j] && r[j] in init;
        } else {
          assert r[j] == xs[n] && r[j] !in init;
          assert FirstIndex(xs, r[j]) == n;
        }
      }
    } else {
      assert Dedup(xs) == [];
    }
  }
}
