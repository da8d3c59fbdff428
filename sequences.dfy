/** Small library shared by the model: the Option wrapper, and the sequence
    operations the relay performs on its socket lists and admission queues. */
module Wrappers {
  datatype Option<+T> = None | Some(value: T)
}

module Sequences {

  /** No element occurs twice. */
  ghost predicate NoDups<T>(s: seq<T>) {
    forall i, j :: 0 <= i < j < |s| ==> s[i] != s[j]
  }

  /** The elements of `q` that differ from `x`, in their original order:
      what remains of a list once every occurrence of `x` is taken out. */
  function Without<T(==)>(q: seq<T>, x: T): (r: seq<T>)
    ensures |r| <= |q|
  {
    if q == [] then []
    else if q[0] == x then Without(q[1..], x)
    else [q[0]] + Without(q[1..], x)
  }

  /** What a forward index loop that splices each match out of `q` leaves
      behind. After a splice at position `i` the next element slides into
      position `i` and the index then steps past it, so of two adjacent
      matches only the first is removed. */
  function Spliced<T(==)>(q: seq<T>, x: T): (r: seq<T>)
    ensures |r| <= |q|
  {
    if q == [] then []
    else if q[0] == x then (if |q| == 1 then [] else [q[1]] + Spliced(q[2..], x))
    else [q[0]] + Spliced(q[1..], x)
  }

  lemma {:induction false} WithoutMembers<T>(q: seq<T>, x: T, y: T)
    ensures y in Without(q, x) <==> y in q && y != x
  {
    if q != [] {
      WithoutMembers(q[1..], x, y);
      assert q == [q[0]] + q[1..];
    }
  }

  lemma {:induction false} WithoutAbsent<T>(q: seq<T>, x: T)
    requires x !in q
    ensures Without(q, x) == q
  {
    if q != [] {
      WithoutAbsent(q[1..], x);
    }
  }

  lemma {:induction false} WithoutConcat<T>(a: seq<T>, b: seq<T>, x: T)
    ensures Without(a + b, x) == Without(a, x) + Without(b, x)
  {
    if a == [] {
      assert a + b == b;
    } else {
      assert (a + b)[1..] == a[1..] + b;
      WithoutConcat(a[1..], b, x);
    }
  }

  /** Taking one occurrence of `x` out of `q` leaves `Without(q, x)` unchanged. */
  lemma {:induction false} WithoutSpliceAt<T>(q: seq<T>, i: nat, x: T)
    requires i < |q| && q[i] == x
    ensures Without(q[..i] + q[i + 1..], x) == Without(q, x)
  {
    if i == 0 {
      assert q[..0] + q[1..] == q[1..];
    } else {
      var r := q[..i] + q[i + 1..];
      WithoutSpliceAt(q[1..], i - 1, x);
      assert r[0] == q[0];
      assert r[1..] == q[1..][..i - 1] + q[1..][i..];
    }
  }

  lemma {:induction false} WithoutKeepsNoDups<T>(q: seq<T>, x: T)
    requires NoDups(q)
    ensures NoDups(Without(q, x))
  {
    if q != [] {
      assert NoDups(q[1..]) by {
        forall i, j | 0 <= i < j < |q[1..]| ensures q[1..][i] != q[1..][j] {
          assert q[1..][i] == q[i + 1] && q[1..][j] == q[j + 1];
        }
      }
      WithoutKeepsNoDups(q[1..], x);
      if q[0] != x {
        assert q[0] !in q[1..] by {
          forall k | 0 <= k < |q[1..]| ensures q[1..][k] != q[0] {
            assert q[1..][k] == q[k + 1];
          }
        }
        WithoutMembers(q[1..], x, q[0]);
        var w := Without(q[1..], x);
        forall i, j | 0 <= i < j < |[q[0]] + w| ensures ([q[0]] + w)[i] != ([q[0]] + w)[j] {
          if i == 0 {
            assert ([q[0]] + w)[j] == w[j - 1];
            assert w[j - 1] in w;
          } else {
            assert ([q[0]] + w)[i] == w[i - 1] && ([q[0]] + w)[j] == w[j - 1];
          }
        }
      }
    }
  }

  /** The first match is always removed, so a queue holding `x` gets shorter. */
  lemma {:induction false} SplicedShrinks<T>(q: seq<T>, x: T)
    requires x in q
    ensures |Spliced(q, x)| < |q|
  {
    if q[0] != x {
      assert x in q[1..] by {
        var k :| 0 <= k < |q| && q[k] == x;
        assert q[1..][k - 1] == x;
      }
      SplicedShrinks(q[1..], x);
    }
  }

  /** The splice loop only ever removes elements equal to `x`. */
  lemma {:induction false} SplicedKeepsOthers<T>(q: seq<T>, x: T, y: T)
    requires y != x
    ensures y in Spliced(q, x) <==> y in q
  {
    if q == [] {
    } else if q[0] == x {
      if |q| > 1 {
        SplicedKeepsOthers(q[2..], x, y);
        assert q == [q[0], q[1]] + q[2..];
      }
    } else {
      SplicedKeepsOthers(q[1..], x, y);
      assert q == [q[0]] + q[1..];
    }
  }

  lemma {:induction false} SplicedSubset<T>(q: seq<T>, x: T, y: T)
    ensures y in Spliced(q, x) ==> y in q
  {
    if q == [] {
    } else if q[0] == x {
      if |q| > 1 {
        SplicedSubset(q[2..], x, y);
        assert q == [q[0], q[1]] + q[2..];
      }
    } else {
      SplicedSubset(q[1..], x, y);
      assert q == [q[0]] + q[1..];
    }
  }

  /** On a queue without duplicates the splice loop does what it means to:
      it removes every entry for `x` and keeps the rest in order. */
  lemma {:induction false} SplicedWithoutDups<T>(q: seq<T>, x: T)
    requires NoDups(q)
    ensures Spliced(q, x) == Without(q, x)
  {
    if q != [] {
      assert NoDups(q[1..]) by {
        forall i, j | 0 <= i < j < |q[1..]| ensures q[1..][i] != q[1..][j] {
          assert q[1..][i] == q[i + 1] && q[1..][j] == q[j + 1];
        }
      }
      if q[0] == x {
        assert x !in q[1..] by {
          forall k | 0 <= k < |q[1..]| ensures q[1..][k] != x {
            assert q[1..][k] == q[k + 1];
          }
        }
        WithoutAbsent(q[1..], x);
        if |q| > 1 {
          assert q[2..] == q[1..][1..];
          assert x !in q[2..];
          WithoutAbsent(q[2..], x);
          assert NoDups(q[2..]) by {
            forall i, j | 0 <= i < j < |q[2..]| ensures q[2..][i] != q[2..][j] {
              assert q[2..][i] == q[i + 2] && q[2..][j] == q[j + 2];
            }
          }
          SplicedWithoutDups(q[2..], x);
          assert q[1..] == [q[1]] + q[2..];
        }
      } else {
        SplicedWithoutDups(q[1..], x);
      }
    }
  }

  /** The socket's first two entries, adjacent, wherever they sit: the loop
      removes the first and steps over the second. */
  lemma {:induction false} SplicedSkipsAdjacent<T>(p: seq<T>, x: T, t: seq<T>)
    requires x !in p
    ensures Spliced(p + [x, x] + t, x) == p + [x] + Spliced(t, x)
  {
    if p == [] {
      assert p + [x, x] + t == [x, x] + t;
      assert ([x, x] + t)[2..] == t;
    } else {
      SplicedSkipsAdjacent(p[1..], x, t);
      assert (p + [x, x] + t)[1..] == p[1..] + [x, x] + t;
      assert p == [p[0]] + p[1..];
    }
  }

  /** The first position holding `x`, or -1 when there is none. */
  method IndexOf<T(==)>(q: seq<T>, x: T) returns (index: int)
    ensures -1 <= index < |q|
    ensures index == -1 ==> x !in q
    ensures 0 <= index ==> q[index] == x && x !in q[..index]
  {
    index := 0;
    while index < |q|
      invariant 0 <= index <= |q|
      invariant x !in q[..index]
    {
      if q[index] == x {
        return;
      }
      assert q[..index + 1] == q[..index] + [q[index]];
      index := index + 1;
    }
    assert q[..index] == q;
    index := -1;
  }

  /** Repeatedly search for `s` and splice the hit out until the search fails. */
  method RemoveEvery<T(==)>(socks: seq<T>, s: T) returns (r: seq<T>)
    ensures r == Without(socks, s)
  {
    r := socks;
    var index := IndexOf(r, s);
    if index != -1 {
      WithoutSpliceAt(r, index, s);
      r := r[..index] + r[index + 1..];
    }
    while index != -1
      invariant Without(r, s) == Without(socks, s)
      invariant index == -1 ==> s !in r
      decreases |r| + (if index == -1 then 0 else 1)
    {
      index := IndexOf(r, s);
      if index != -1 {
        WithoutSpliceAt(r, index, s);
        r := r[..index] + r[index + 1..];
      }
    }
    WithoutAbsent(r, s);
  }

  lemma SpliceStepMatch<T>(r: seq<T>, i: nat, x: T)
    requires i < |r| && r[i] == x
    ensures var r' := r[..i] + r[i + 1..];
      (i + 1 <= |r'| ==> r[..i] + Spliced(r[i..], x) == r'[..i + 1] + Spliced(r'[i + 1..], x)) &&
      (i + 1 > |r'| ==> r[..i] + Spliced(r[i..], x) == r')
  {
    var r' := r[..i] + r[i + 1..];
    if i + 1 <= |r'| {
      assert r[i..][1] == r[i + 1];
      assert r[i..][2..] == r[i + 2..];
      assert r'[..i + 1] == r[..i] + [r[i + 1]];
      assert r'[i + 1..] == r[i + 2..];
    } else {
      assert r[i..] == [x];
      assert r' == r[..i];
    }
  }

  lemma SpliceStepKeep<T>(r: seq<T>, i: nat, x: T)
    requires i < |r| && r[i] != x
    ensures r[..i] + Spliced(r[i..], x) == r[..i + 1] + Spliced(r[i + 1..], x)
  {
    assert r[i..][1..] == r[i + 1..];
    assert r[..i + 1] == r[..i] + [r[i]];
  }

  /** The forward index loop that splices matching entries out of a queue. */
  method SpliceMatching<T(==)>(q: seq<T>, x: T) returns (r: seq<T>)
    ensures r == Spliced(q, x)
  {
    r := q;
    var i := 0;
    while i < |r|
      invariant 0 <= i <= |r| + 1
      invariant i <= |r| ==> Spliced(q, x) == r[..i] + Spliced(r[i..], x)
      invariant i == |r| + 1 ==> Spliced(q, x) == r
      decreases |r| + 1 - i
    {
      if r[i] == x {
        SpliceStepMatch(r, i, x);
        r := r[..i] + r[i + 1..];
      } else {
        SpliceStepKeep(r, i, x);
      }
      i := i + 1;
    }
    if i == |r| {
      assert r[..i] == r && r[i..] == [];
    }
  }

  /** Linear search that stops at the first hit. */
  method Contains<T(==)>(list: seq<T>, x: T) returns (found: bool)
    ensures found <==> x in list
  {
    found := false;
    for i := 0 to |list|
      invariant x !in list[..i]
    {
      if x == list[i] {
        found := true;
        break;
      }
      assert list[..i + 1] == list[..i] + [list[i]];
    }
    if !found {
      assert list[..|list|] == list;
    }
  }

  /** The keys of a table, each once, in some order. */
  method KeySeq<T(==)>(keys: set<T>) returns (ks: seq<T>)
    ensures NoDups(ks)
    ensures forall x :: x in ks <==> x in keys
  {
    ks := [];
    var rest := keys;
    while rest != {}
      invariant rest <= keys
      invariant NoDups(ks)
      invariant forall x :: x in ks <==> x in keys && x !in rest
      decreases rest
    {
      var x :| x in rest;
      ks := ks + [x];
      rest := rest - {x};
    }
  }

  lemma PrefixStep<T>(s: seq<T>, i: nat)
    requires i < |s|
    ensures s[..i + 1] == s[..i] + [s[i]]
  {
  }

  lemma ConcatAssoc<T>(a: seq<T>, b: seq<T>, c: seq<T>)
    ensures a + b + c == a + (b + c)
  {
  }

  lemma AppendFresh<T>(s: seq<T>, x: T)
    requires NoDups(s) && x !in s
    ensures NoDups(s + [x])
  {
    forall i, j | 0 <= i < j < |s + [x]| ensures (s + [x])[i] != (s + [x])[j] {
      if j == |s| {
        assert (s + [x])[i] == s[i];
      } else {
        assert (s + [x])[i] == s[i] && (s + [x])[j] == s[j];
      }
    }
  }

  /** A list without duplicates has as many distinct elements as entries. */
  lemma {:induction false} DistinctCard<T>(s: seq<T>)
    requires NoDups(s)
    ensures |set x | x in s| == |s|
  {
    if s != [] {
      var t := s[1..];
      assert NoDups(t) by {
        forall i, j | 0 <= i < j < |t| ensures t[i] != t[j] {
          assert t[i] == s[i + 1] && t[j] == s[j + 1];
        }
      }
      DistinctCard(t);
      assert s[0] !in t by {
        forall k | 0 <= k < |t| ensures t[k] != s[0] {
          assert t[k] == s[k + 1];
        }
      }
      assert (set x | x in s) == {s[0]} + (set x | x in t) by {
        assert s == [s[0]] + t;
      }
    }
  }
}
