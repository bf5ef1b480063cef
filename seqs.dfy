/** Sequence and string helpers shared by the pipeline: order-preserving filters,
    the subsequence relation, Python's `str.endswith` and `str.split`. */
module Seqs {
  import opened Wrappers

  /** `a` can be obtained from `b` by deleting elements, keeping the order. */
  ghost predicate IsSubseq<T>(a: seq<T>, b: seq<T>)
    decreases |b|
  {
    a == [] ||
    (b != [] && ((a[0] == b[0] && IsSubseq(a[1..], b[1..])) || IsSubseq(a, b[1..])))
  }

  predicate NoDup<T(==)>(s: seq<T>) {
    forall i, j :: 0 <= i < j < |s| ==> s[i] != s[j]
  }

  function ToSet<T>(s: seq<T>): set<T> {
    set x | x in s
  }

  /** The elements of `s` that satisfy `p`, in their order in `s`. */
  function Filter<T>(p: T -> bool, s: seq<T>): (r: seq<T>)
    ensures |r| <= |s|
    ensures forall i :: 0 <= i < |r| ==> r[i] in s && p(r[i])
    ensures forall i :: 0 <= i < |s| && p(s[i]) ==> s[i] in r
  {
    if s == [] then []
    else if p(s[0]) then [s[0]] + Filter(p, s[1..])
    else Filter(p, s[1..])
  }

  lemma {:induction false} FilterIsSubseq<T>(p: T -> bool, s: seq<T>)
    ensures IsSubseq(Filter(p, s), s)
  {
    if s != [] {
      FilterIsSubseq(p, s[1..]);
      var r := Filter(p, s[1..]);
      if p(s[0]) {
        assert ([s[0]] + r)[1..] == r;
      }
    }
  }

  lemma {:induction false} FilterExt<T>(p: T -> bool, q: T -> bool, s: seq<T>)
    requires forall i :: 0 <= i < |s| ==> p(s[i]) == q(s[i])
    ensures Filter(p, s) == Filter(q, s)
  {
    if s != [] {
      FilterExt(p, q, s[1..]);
    }
  }

  lemma {:induction false} FilterAll<T>(p: T -> bool, s: seq<T>)
    requires forall i :: 0 <= i < |s| ==> p(s[i])
    ensures Filter(p, s) == s
  {
    if s != [] {
      FilterAll(p, s[1..]);
      assert [s[0]] + s[1..] == s;
    }
  }

  lemma {:induction false} FilterAppend<T>(p: T -> bool, a: seq<T>, b: seq<T>)
    ensures Filter(p, a + b) == Filter(p, a) + Filter(p, b)
  {
    if a == [] {
      assert a + b == b;
    } else {
      assert (a + b)[1..] == a[1..] + b;
      FilterAppend(p, a[1..], b);
    }
  }

  /** `FilterR` evaluates a predicate that may raise on every element, stopping at
      the first error, as a Python comprehension with a raising condition does. */
  function FilterR<T>(p: T -> Result<bool>, s: seq<T>): (r: Result<seq<T>>)
    ensures r.Ok? <==> forall i :: 0 <= i < |s| ==> p(s[i]).Ok?
    ensures r.Err? ==>
      exists i :: 0 <= i < |s| && p(s[i]) == Err(r.error) && (forall k :: 0 <= k < i ==> p(s[k]).Ok?)
  {
    if s == [] then Ok([])
    else
      match p(s[0])
      case Err(e) => Err(e)
      case Ok(keep) =>
        var rest := FilterR(p, s[1..]);
        if rest.Err? then
          var i :| 0 <= i < |s[1..]| && p(s[1..][i]) == Err(rest.error) &&
            forall k :: 0 <= k < i ==> p(s[1..][k]).Ok?;
          assert p(s[i + 1]) == Err(rest.error);
          assert forall k :: 0 <= k < i + 1 ==> p(s[k]).Ok? by {
            forall k | 0 <= k < i + 1 ensures p(s[k]).Ok? {
              if k > 0 { assert s[k] == s[1..][k - 1]; }
            }
          }
          rest
        else if keep then Ok([s[0]] + rest.value) else rest
  }

  /** Without errors, `FilterR` keeps exactly the elements whose predicate holds. */
  lemma {:induction false} FilterRIsFilter<T>(p: T -> Result<bool>, q: T -> bool, s: seq<T>)
    requires forall i :: 0 <= i < |s| ==> p(s[i]) == Ok(q(s[i]))
    ensures FilterR(p, s) == Ok(Filter(q, s))
  {
    if s != [] {
      FilterRIsFilter(p, q, s[1..]);
    }
  }

  /** When no element raises, `FilterR` keeps exactly the elements whose predicate
      is true. */
  lemma {:induction false} FilterROk<T>(p: T -> Result<bool>, q: T -> bool, s: seq<T>)
    requires FilterR(p, s).Ok?
    requires forall i :: 0 <= i < |s| && p(s[i]).Ok? ==> p(s[i]).value == q(s[i])
    ensures FilterR(p, s).value == Filter(q, s)
  {
    if s != [] {
      FilterROk(p, q, s[1..]);
    }
  }

  lemma {:induction false} FilterNone<T>(p: T -> bool, s: seq<T>)
    requires forall i :: 0 <= i < |s| ==> !p(s[i])
    ensures Filter(p, s) == []
  {
    if s != [] {
      FilterNone(p, s[1..]);
    }
  }

  /** `MapR` applies an operation that may raise to every element in order; the
      first error is the result. */
  function MapR<T, U>(f: T -> Result<U>, s: seq<T>): (r: Result<seq<U>>)
    ensures r.Ok? <==> forall i :: 0 <= i < |s| ==> f(s[i]).Ok?
    ensures r.Ok? ==> |r.value| == |s| && forall i :: 0 <= i < |s| ==> f(s[i]) == Ok(r.value[i])
    ensures r.Err? ==>
      exists i :: 0 <= i < |s| && f(s[i]) == Err(r.error) && (forall k :: 0 <= k < i ==> f(s[k]).Ok?)
  {
    if s == [] then Ok([])
    else
      match f(s[0])
      case Err(e) => Err(e)
      case Ok(x) =>
        var rest := MapR(f, s[1..]);
        if rest.Err? then
          var i :| 0 <= i < |s[1..]| && f(s[1..][i]) == Err(rest.error) &&
            forall k :: 0 <= k < i ==> f(s[1..][k]).Ok?;
          assert f(s[i + 1]) == Err(rest.error);
          assert forall k :: 0 <= k < i + 1 ==> f(s[k]).Ok? by {
            forall k | 0 <= k < i + 1 ensures f(s[k]).Ok? {
              if k > 0 { assert s[k] == s[1..][k - 1]; }
            }
          }
          rest
        else
          var r := [x] + rest.value;
          assert forall i :: 1 <= i < |s| ==> f(s[i]) == Ok(r[i]) by {
            forall i | 1 <= i < |s| ensures f(s[i]) == Ok(r[i]) {
              assert s[i] == s[1..][i - 1];
            }
          }
          Ok(r)
  }

  /** `MapR` fails with the error of the first element that raises. */
  lemma MapRFirstErr<T, U>(f: T -> Result<U>, s: seq<T>, i: nat)
    requires i < |s| && f(s[i]).Err?
    requires forall k :: 0 <= k < i ==> f(s[k]).Ok?
    ensures MapR(f, s) == Err(f(s[i]).error)
  {
    var r := MapR(f, s);
    var j :| 0 <= j < |s| && f(s[j]) == Err(r.error) && (forall k :: 0 <= k < j ==> f(s[k]).Ok?);
    assert j == i;
  }

  /** `MapR` succeeds with the elementwise results when no element raises. */
  lemma MapROk<T, U>(f: T -> Result<U>, s: seq<T>, out: seq<U>)
    requires |out| == |s|
    requires forall k :: 0 <= k < |s| ==> f(s[k]) == Ok(out[k])
    ensures MapR(f, s) == Ok(out)
  {
    var r := MapR(f, s);
    assert r.Ok?;
    assert r.value == out;
  }

  /** A non-empty sequence is its prefix and its last element. */
  lemma InitLast<T>(s: seq<T>)
    requires s != []
    ensures s == s[..|s| - 1] + [s[|s| - 1]]
  {
  }

  /** A sequence around its `i`-th element. */
  lemma SplitAt<T>(s: seq<T>, i: nat)
    requires i < |s|
    ensures s == (s[..i] + [s[i]]) + s[i + 1..]
  {
  }

  /** One more element that succeeds extends a successful `MapR`. */
  lemma MapRSnoc<T, U>(f: T -> Result<U>, s: seq<T>, x: T, out: seq<U>)
    requires MapR(f, s) == Ok(out) && f(x).Ok?
    ensures MapR(f, s + [x]) == Ok(out + [f(x).value])
  {
    var t := s + [x];
    forall k | 0 <= k < |t| ensures f(t[k]) == Ok((out + [f(x).value])[k]) {
      if k < |s| { assert t[k] == s[k]; }
    }
    MapROk(f, t, out + [f(x).value]);
  }

  /** A filter whose condition is weaker keeps a subsequence of what a stronger one keeps. */
  lemma {:induction false} FilterMonotone<T>(p: T -> bool, q: T -> bool, s: seq<T>)
    requires forall i :: 0 <= i < |s| && p(s[i]) ==> q(s[i])
    ensures IsSubseq(Filter(p, s), Filter(q, s))
  {
    if s != [] {
      FilterMonotone(p, q, s[1..]);
      var a, b := Filter(p, s[1..]), Filter(q, s[1..]);
      if p(s[0]) {
        assert ([s[0]] + a)[1..] == a && ([s[0]] + b)[1..] == b;
      } else if q(s[0]) {
        assert ([s[0]] + b)[1..] == b;
        SubseqCons(a, b, s[0]);
      }
    }
  }

  lemma {:induction false} SubseqCons<T>(a: seq<T>, b: seq<T>, x: T)
    requires IsSubseq(a, b)
    ensures IsSubseq(a, [x] + b)
  {
    assert ([x] + b)[1..] == b;
  }

  /** Python's `s.endswith(suffix)`. */
  predicate EndsWith(s: string, suffix: string) {
    |suffix| <= |s| && s[|s| - |suffix|..] == suffix
  }

  lemma EndsWithAppend(s: string, suffix: string)
    ensures EndsWith(s + suffix, suffix)
  {
    assert (s + suffix)[|s|..] == suffix;
  }

  /** Python's `s.split(sep)` for a one-character separator: never empty. */
  function Split(s: string, sep: char): (r: seq<string>)
    ensures |r| >= 1
    ensures forall i :: 0 <= i < |r| ==> sep !in r[i]
  {
    if s == [] then [""]
    else if s[0] == sep then [""] + Split(s[1..], sep)
    else
      var rest := Split(s[1..], sep);
      [[s[0]] + rest[0]] + rest[1..]
  }

  /** Python's `sep.join(parts)`. */
  function Join(parts: seq<string>, sep: char): string
    requires |parts| >= 1
  {
    if |parts| == 1 then parts[0] else parts[0] + [sep] + Join(parts[1..], sep)
  }

  lemma {:induction false} JoinSplit(s: string, sep: char)
    ensures Join(Split(s, sep), sep) == s
  {
    if s != [] {
      JoinSplit(s[1..], sep);
      var rest := Split(s[1..], sep);
      if s[0] != sep {
        var r := [[s[0]] + rest[0]] + rest[1..];
        if |rest| == 1 {
          assert Join(r, sep) == [s[0]] + rest[0];
        } else {
          assert r[1..] == rest[1..];
          assert Join(rest, sep) == rest[0] + [sep] + Join(rest[1..], sep);
        }
      }
    }
  }

  lemma {:induction false} SplitJoin(parts: seq<string>, sep: char)
    requires |parts| >= 1
    requires forall i :: 0 <= i < |parts| ==> sep !in parts[i]
    ensures Split(Join(parts, sep), sep) == parts
  {
    if |parts| == 1 {
      SplitNoSep(parts[0], sep);
    } else {
      SplitJoin(parts[1..], sep);
      SplitPrefix(parts[0], Join(parts[1..], sep), sep);
      assert [parts[0]] + parts[1..] == parts;
    }
  }

  lemma {:induction false} SplitNoSep(s: string, sep: char)
    requires sep !in s
    ensures Split(s, sep) == [s]
  {
    if s != [] {
      SplitNoSep(s[1..], sep);
      assert [s[0]] + s[1..] == s;
    }
  }

  lemma {:induction false} SplitPrefix(p: string, t: string, sep: char)
    requires sep !in p
    ensures Split(p + [sep] + t, sep) == [p] + Split(t, sep)
  {
    if p == [] {
      assert p + [sep] + t == [sep] + t;
      assert ([sep] + t)[1..] == t;
    } else {
      assert (p + [sep] + t)[1..] == p[1..] + [sep] + t;
      SplitPrefix(p[1..], t, sep);
      assert [p[0]] + p[1..] == p;
    }
  }

  lemma NoDupTail<T>(s: seq<T>)
    requires s != [] && NoDup(s)
    ensures NoDup(s[1..]) && s[0] !in s[1..]
  {
    var rest := s[1..];
    forall i, j | 0 <= i < j < |rest| ensures rest[i] != rest[j] {
      assert rest[i] == s[i + 1] && rest[j] == s[j + 1];
    }
    forall i | 0 <= i < |rest| ensures rest[i] != s[0] {
      assert rest[i] == s[i + 1];
    }
  }

  /** The groups of a keyed collection concatenated in key order. */
  function Flatten<K, T>(keys: seq<K>, g: map<K, seq<T>>): seq<T>
    requires forall i :: 0 <= i < |keys| ==> keys[i] in g
  {
    if keys == [] then [] else g[keys[0]] + Flatten(keys[1..], g)
  }

  lemma {:induction false} FlattenHas<K, T>(keys: seq<K>, g: map<K, seq<T>>, t: K, k: nat)
    requires forall i :: 0 <= i < |keys| ==> keys[i] in g
    requires t in keys && t in g && k < |g[t]|
    ensures g[t][k] in Flatten(keys, g)
  {
    if keys[0] != t {
      FlattenHas(keys[1..], g, t, k);
    }
  }

  /** The multiset of all the groups' elements. */
  ghost function Bag<K, T>(keys: seq<K>, g: map<K, seq<T>>): multiset<T>
    requires forall i :: 0 <= i < |keys| ==> keys[i] in g
  {
    if keys == [] then multiset{} else multiset(g[keys[0]]) + Bag(keys[1..], g)
  }

  lemma {:induction false} BagFlatten<K, T>(keys: seq<K>, g: map<K, seq<T>>)
    requires forall i :: 0 <= i < |keys| ==> keys[i] in g
    ensures multiset(Flatten(keys, g)) == Bag(keys, g)
  {
    if keys != [] {
      BagFlatten(keys[1..], g);
    }
  }

  lemma {:induction false} FlattenOther<K, T>(keys: seq<K>, g: map<K, seq<T>>, t: K, x: seq<T>)
    requires forall i :: 0 <= i < |keys| ==> keys[i] in g
    requires t !in keys
    ensures Flatten(keys, g[t := x]) == Flatten(keys, g)
  {
    if keys != [] {
      FlattenOther(keys[1..], g, t, x);
    }
  }

  lemma {:induction false} BagOther<K, T>(keys: seq<K>, g: map<K, seq<T>>, t: K, x: seq<T>)
    requires forall i :: 0 <= i < |keys| ==> keys[i] in g
    requires t !in keys
    ensures Bag(keys, g[t := x]) == Bag(keys, g)
  {
    FlattenOther(keys, g, t, x);
    BagFlatten(keys, g[t := x]);
    BagFlatten(keys, g);
  }

  lemma {:induction false} FlattenSnoc<K, T>(keys: seq<K>, g: map<K, seq<T>>, t: K)
    requires forall i :: 0 <= i < |keys| ==> keys[i] in g
    requires t in g
    ensures Flatten(keys + [t], g) == Flatten(keys, g) + g[t]
  {
    if keys == [] {
      assert [t][1..] == [];
    } else {
      assert (keys + [t])[1..] == keys[1..] + [t];
      FlattenSnoc(keys[1..], g, t);
    }
  }

  /** Replacing one group changes the whole by exactly that group's difference. */
  lemma {:induction false} FlattenReplace<K, T>(keys: seq<K>, g: map<K, seq<T>>, t: K, x: seq<T>)
    requires forall i :: 0 <= i < |keys| ==> keys[i] in g
    requires NoDup(keys) && t in keys
    ensures Bag(keys, g[t := x]) + multiset(g[t]) == Bag(keys, g) + multiset(x)
    ensures |Flatten(keys, g[t := x])| + |g[t]| == |Flatten(keys, g)| + |x|
  {
    var rest := keys[1..];
    NoDupTail(keys);
    if keys[0] == t {
      FlattenOther(rest, g, t, x);
      BagFlatten(rest, g[t := x]);
      BagFlatten(rest, g);
    } else {
      FlattenReplace(rest, g, t, x);
      var h, r', r := multiset(g[keys[0]]), Bag(rest, g[t := x]), Bag(rest, g);
      calc {
        Bag(keys, g[t := x]) + multiset(g[t]);
        (h + r') + multiset(g[t]);
        h + (r' + multiset(g[t]));
        h + (r + multiset(x));
        (h + r) + multiset(x);
        Bag(keys, g) + multiset(x);
      }
    }
  }

  lemma Cancel<T>(a: multiset<T>, b: multiset<T>, c: multiset<T>)
    requires a + c == b + c
    ensures a == b
  {
    forall z ensures a[z] == b[z] {
      assert (a + c)[z] == (b + c)[z];
    }
  }

  /** Replacing one group by itself or by itself plus `y` grows the whole by at most `y`. */
  lemma GrowByOne<K, T>(keys: seq<K>, g: map<K, seq<T>>, t: K, x: seq<T>, y: T)
    requires forall i :: 0 <= i < |keys| ==> keys[i] in g
    requires NoDup(keys) && t in keys
    requires x == g[t] + [y] || x == g[t]
    ensures Bag(keys, g[t := x]) <= Bag(keys, g) + multiset{y}
    ensures |Flatten(keys, g[t := x])| <= |Flatten(keys, g)| + 1
  {
    FlattenReplace(keys, g, t, x);
    var a, b, c := Bag(keys, g[t := x]), Bag(keys, g), multiset(g[t]);
    if x == g[t] + [y] {
      assert multiset(x) == c + multiset{y};
      Cancel(a, b + multiset{y}, c);
    } else {
      Cancel(a, b, c);
    }
  }
}
