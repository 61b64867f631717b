/** Ranking of (name, score) pairs as the engine prints them: `zip` of names
    and scores, the `dict` built from such pairs (later duplicates overwrite
    earlier ones, in the position of the first), and Python's
    `sorted(..., key=lambda x: x[1], reverse=True)`, a stable sort into
    non-increasing score order. */
module Ranking {

  type Entry = (string, real)

  /** Pairs up names and scores, truncated to the shorter input as `zip` does. */
  function Zip(names: seq<string>, scores: seq<real>): (ps: seq<Entry>)
    ensures |ps| == if |names| <= |scores| then |names| else |scores|
    ensures forall i :: 0 <= i < |ps| ==> ps[i] == (names[i], scores[i])
  {
    var n := if |names| <= |scores| then |names| else |scores|;
    seq(n, i requires 0 <= i < n => (names[i], scores[i]))
  }

  /** Scores never increase from left to right. */
  predicate NonIncreasing(s: seq<Entry>)
  {
    forall i, j :: 0 <= i < j < |s| ==> s[i].1 >= s[j].1
  }

  /** The entries of `s` whose score is `v`, in their order in `s`. */
  function Ties(s: seq<Entry>, v: real): seq<Entry>
  {
    if s == [] then [] else (if s[0].1 == v then [s[0]] else []) + Ties(s[1..], v)
  }

  /** `out` is `input` sorted by non-increasing score, with entries of equal
      score kept in their input order. */
  ghost predicate IsStableRanking(out: seq<Entry>, input: seq<Entry>)
  {
    && multiset(out) == multiset(input)
    && NonIncreasing(out)
    && forall v :: Ties(out, v) == Ties(input, v)
  }

  /** Places `x` before the first entry whose score does not exceed its own. */
  function Insert(x: Entry, l: seq<Entry>): seq<Entry>
  {
    if l == [] || x.1 >= l[0].1 then [x] + l else [l[0]] + Insert(x, l[1..])
  }

  /** Stable sort by non-increasing score (insertion sort). */
  function SortDescending(s: seq<Entry>): seq<Entry>
  {
    if s == [] then [] else Insert(s[0], SortDescending(s[1..]))
  }

  lemma {:induction false} InsertPermutation(x: Entry, l: seq<Entry>)
    ensures multiset(Insert(x, l)) == multiset(l) + multiset{x}
    ensures |Insert(x, l)| == |l| + 1
  {
    if l != [] && x.1 < l[0].1 {
      InsertPermutation(x, l[1..]);
      assert l == [l[0]] + l[1..];
    }
  }

  /** The entries after insertion are `x` and the entries of `l`. */
  lemma {:induction false} InsertMembers(x: Entry, l: seq<Entry>)
    ensures forall e :: e in Insert(x, l) <==> e == x || e in l
  {
    if l != [] && x.1 < l[0].1 {
      InsertMembers(x, l[1..]);
      assert l == [l[0]] + l[1..];
    }
  }

  /** Inserting into a ranked list keeps it ranked. */
  lemma {:induction false} InsertNonIncreasing(x: Entry, l: seq<Entry>)
    requires NonIncreasing(l)
    ensures NonIncreasing(Insert(x, l))
  {
    if l != [] && x.1 < l[0].1 {
      var rest := Insert(x, l[1..]);
      InsertNonIncreasing(x, l[1..]);
      InsertMembers(x, l[1..]);
      forall k | 0 <= k < |rest|
        ensures l[0].1 >= rest[k].1
      {
        assert rest[k] in rest;
        if rest[k] != x {
          var j :| 0 <= j < |l[1..]| && l[1..][j] == rest[k];
          assert l[j + 1] == rest[k];
        }
      }
      assert Insert(x, l) == [l[0]] + rest;
    }
  }

  /** Inserting `x` puts it in front of the entries that tie with it. */
  lemma {:induction false} InsertTies(x: Entry, l: seq<Entry>, v: real)
    ensures Ties(Insert(x, l), v) == (if x.1 == v then [x] else []) + Ties(l, v)
  {
    if l == [] || x.1 >= l[0].1 {
      assert Insert(x, l)[1..] == l;
    } else {
      var rest := Insert(x, l[1..]);
      assert Insert(x, l)[1..] == rest;
      InsertTies(x, l[1..], v);
      var t := Ties(l[1..], v);
      assert Ties(l, v) == (if l[0].1 == v then [l[0]] else []) + t;
      if l[0].1 == v {
        assert Ties(Insert(x, l), v) == [l[0]] + t;
      } else if x.1 == v {
        assert Ties(Insert(x, l), v) == [x] + t;
      } else {
        assert Ties(Insert(x, l), v) == t;
      }
    }
  }

  lemma {:induction false} SortPermutation(s: seq<Entry>)
    ensures multiset(SortDescending(s)) == multiset(s)
  {
    if s != [] {
      SortPermutation(s[1..]);
      InsertPermutation(s[0], SortDescending(s[1..]));
      assert s == [s[0]] + s[1..];
    }
  }

  lemma {:induction false} SortNonIncreasing(s: seq<Entry>)
    ensures NonIncreasing(SortDescending(s))
  {
    if s != [] {
      SortNonIncreasing(s[1..]);
      InsertNonIncreasing(s[0], SortDescending(s[1..]));
    }
  }

  /** Entries of equal score keep their input order. */
  lemma {:induction false} SortTies(s: seq<Entry>, v: real)
    ensures Ties(SortDescending(s), v) == Ties(s, v)
  {
    if s != [] {
      SortTies(s[1..], v);
      InsertTies(s[0], SortDescending(s[1..]), v);
    }
  }

  /** The insertion sort meets the specification of a stable descending sort. */
  lemma SortIsStableRanking(s: seq<Entry>)
    ensures IsStableRanking(SortDescending(s), s)
  {
    SortPermutation(s);
    SortNonIncreasing(s);
    forall v
      ensures Ties(SortDescending(s), v) == Ties(s, v)
    {
      SortTies(s, v);
    }
  }

  /** An entry of `s` shows up among the ties of its own score. */
  lemma {:induction false} TiesNonEmpty(s: seq<Entry>, j: nat)
    requires j < |s|
    ensures Ties(s, s[j].1) != []
  {
    if j > 0 && s[0].1 != s[j].1 {
      TiesNonEmpty(s[1..], j - 1);
    }
  }

  /** Every entry among the ties of `v` has score `v` and comes from `s`. */
  lemma {:induction false} TiesMembers(s: seq<Entry>, v: real)
    ensures forall e :: e in Ties(s, v) ==> e.1 == v && e in s
  {
    if s != [] {
      TiesMembers(s[1..], v);
      assert s == [s[0]] + s[1..];
    }
  }

  /** The ties of `v`, when there are any, start at the front of a ranked
      list exactly when its first score is `v`. */
  lemma {:induction false} TiesHead(s: seq<Entry>, v: real)
    requires NonIncreasing(s) && s != [] && Ties(s, v) != []
    ensures s[0].1 >= v
  {
    TiesMembers(s, v);
    var e := Ties(s, v)[0];
    assert e in Ties(s, v);
    var j :| 0 <= j < |s| && s[j] == e;
  }

  /** Two ranked lists with the same ties for every score are equal. */
  lemma {:induction false} RankedByTies(a: seq<Entry>, b: seq<Entry>)
    requires NonIncreasing(a) && NonIncreasing(b)
    requires forall v :: Ties(a, v) == Ties(b, v)
    ensures a == b
    decreases |a| + |b|
  {
    if a == [] || b == [] {
      if a != [] {
        TiesNonEmpty(a, 0);
      } else if b != [] {
        TiesNonEmpty(b, 0);
      }
    } else {
      var va, vb := a[0].1, b[0].1;
      TiesNonEmpty(a, 0);
      TiesNonEmpty(b, 0);
      TiesHead(b, va);
      TiesHead(a, vb);
      assert va == vb;
      assert Ties(a, va)[0] == a[0];
      assert Ties(b, va)[0] == b[0];
      forall v
        ensures Ties(a[1..], v) == Ties(b[1..], v)
      {
        var head := if va == v then [a[0]] else [];
        assert Ties(a, v) == head + Ties(a[1..], v);
        assert Ties(b, v) == head + Ties(b[1..], v);
        assert Ties(a[1..], v) == Ties(a, v)[|head|..];
        assert Ties(b[1..], v) == Ties(b, v)[|head|..];
      }
      RankedByTies(a[1..], b[1..]);
      assert a == [a[0]] + a[1..] && b == [b[0]] + b[1..];
    }
  }

  /** A stable descending ranking is unique, so any stable sort (Python's
      Timsort included) produces exactly what the insertion sort produces. */
  lemma StableRankingUnique(out: seq<Entry>, input: seq<Entry>)
    requires IsStableRanking(out, input)
    ensures out == SortDescending(input)
  {
    SortIsStableRanking(input);
    RankedByTies(out, SortDescending(input));
  }

  /** The names appearing in `s`. */
  function NamesOf(s: seq<Entry>): set<string>
  {
    set i | 0 <= i < |s| :: s[i].0
  }

  /** No name appears twice. */
  predicate DistinctNames(s: seq<Entry>)
  {
    forall i, j :: 0 <= i < j < |s| ==> s[i].0 != s[j].0
  }

  /** `d[k] = v` on a dictionary kept as its list of items: an existing key
      keeps its position and takes the new value, a new key goes last. */
  function Assign(d: seq<Entry>, k: string, v: real): seq<Entry>
  {
    if d == [] then [(k, v)]
    else if d[0].0 == k then [(k, v)] + d[1..]
    else [d[0]] + Assign(d[1..], k, v)
  }

  /** `dict(pairs)`: the pairs assigned one after another. */
  function DictOf(ps: seq<Entry>): seq<Entry>
  {
    if ps == [] then [] else Assign(DictOf(ps[..|ps| - 1]), ps[|ps| - 1].0, ps[|ps| - 1].1)
  }

  /** The names of a list with one more item in front. */
  lemma {:induction false} NamesCons(e: Entry, s: seq<Entry>)
    ensures NamesOf([e] + s) == {e.0} + NamesOf(s)
  {
    var r := [e] + s;
    forall x | x in NamesOf(r) ensures x in {e.0} + NamesOf(s) {
      var i :| 0 <= i < |r| && r[i].0 == x;
      if i > 0 { assert s[i - 1].0 == x; }
    }
    forall x | x in NamesOf(s) ensures x in NamesOf(r) {
      var i :| 0 <= i < |s| && s[i].0 == x;
      assert r[i + 1].0 == x;
    }
    assert r[0].0 == e.0;
  }

  /** The names of a list with one more item at the end. */
  lemma {:induction false} NamesSnoc(s: seq<Entry>, e: Entry)
    ensures NamesOf(s + [e]) == NamesOf(s) + {e.0}
  {
    var r := s + [e];
    forall x | x in NamesOf(r) ensures x in NamesOf(s) + {e.0} {
      var i :| 0 <= i < |r| && r[i].0 == x;
      if i < |s| { assert s[i].0 == x; }
    }
    forall x | x in NamesOf(s) ensures x in NamesOf(r) {
      var i :| 0 <= i < |s| && s[i].0 == x;
      assert r[i].0 == x;
    }
    assert r[|s|].0 == e.0;
  }

  /** A list with one more item in front has distinct names exactly when the
      new name is fresh and the rest is distinct. */
  lemma {:induction false} DistinctCons(e: Entry, s: seq<Entry>)
    ensures DistinctNames([e] + s) <==> e.0 !in NamesOf(s) && DistinctNames(s)
  {
    var r := [e] + s;
    if DistinctNames(r) {
      forall i, j | 0 <= i < j < |s| ensures s[i].0 != s[j].0 {
        assert r[i + 1] == s[i] && r[j + 1] == s[j];
      }
      forall i | 0 <= i < |s| ensures s[i].0 != e.0 {
        assert r[0].0 != r[i + 1].0;
        assert r[i + 1] == s[i];
      }
    }
    if e.0 !in NamesOf(s) && DistinctNames(s) {
      forall i, j | 0 <= i < j < |r| ensures r[i].0 != r[j].0 {
        if i == 0 {
          assert s[j - 1].0 in NamesOf(s);
        } else {
          assert r[i] == s[i - 1] && r[j] == s[j - 1];
        }
      }
    }
  }

  lemma {:induction false} AssignNames(d: seq<Entry>, k: string, v: real)
    requires DistinctNames(d)
    ensures NamesOf(Assign(d, k, v)) == NamesOf(d) + {k}
    ensures DistinctNames(Assign(d, k, v))
  {
    if d == [] {
      NamesCons((k, v), []);
      DistinctCons((k, v), []);
      assert [(k, v)] + [] == Assign(d, k, v);
    } else {
      assert d == [d[0]] + d[1..];
      NamesCons(d[0], d[1..]);
      DistinctCons(d[0], d[1..]);
      if d[0].0 == k {
        NamesCons((k, v), d[1..]);
        DistinctCons((k, v), d[1..]);
      } else {
        AssignNames(d[1..], k, v);
        NamesCons(d[0], Assign(d[1..], k, v));
        DistinctCons(d[0], Assign(d[1..], k, v));
      }
    }
  }

  /** Assigning a name not yet present appends it. */
  lemma {:induction false} AssignFresh(d: seq<Entry>, k: string, v: real)
    requires k !in NamesOf(d)
    ensures Assign(d, k, v) == d + [(k, v)]
  {
    if d != [] {
      assert d == [d[0]] + d[1..];
      NamesCons(d[0], d[1..]);
      AssignFresh(d[1..], k, v);
    }
  }

  /** `dict(pairs)` has one item per distinct name of `pairs`. */
  lemma {:induction false} DictOfNames(ps: seq<Entry>)
    ensures DistinctNames(DictOf(ps))
    ensures NamesOf(DictOf(ps)) == NamesOf(ps)
  {
    if ps != [] {
      var k := |ps| - 1;
      DictOfNames(ps[..k]);
      AssignNames(DictOf(ps[..k]), ps[k].0, ps[k].1);
      assert ps == ps[..k] + [ps[k]];
      NamesSnoc(ps[..k], ps[k]);
    }
  }

  /** When no name repeats, `dict(pairs)` keeps every pair, in order. */
  lemma {:induction false} DictOfDistinct(ps: seq<Entry>)
    requires DistinctNames(ps)
    ensures DictOf(ps) == ps
  {
    if ps != [] {
      var k := |ps| - 1;
      assert DistinctNames(ps[..k]);
      DictOfDistinct(ps[..k]);
      assert ps[k].0 !in NamesOf(ps[..k]);
      AssignFresh(ps[..k], ps[k].0, ps[k].1);
      assert ps == ps[..k] + [ps[k]];
    }
  }

  /** Inserting an item with a fresh name adds that name and keeps the names distinct. */
  lemma {:induction false} InsertNames(x: Entry, l: seq<Entry>)
    requires DistinctNames(l) && x.0 !in NamesOf(l)
    ensures DistinctNames(Insert(x, l))
    ensures NamesOf(Insert(x, l)) == NamesOf(l) + {x.0}
  {
    if l == [] || x.1 >= l[0].1 {
      NamesCons(x, l);
      DistinctCons(x, l);
    } else {
      assert l == [l[0]] + l[1..];
      NamesCons(l[0], l[1..]);
      DistinctCons(l[0], l[1..]);
      InsertNames(x, l[1..]);
      var rest := Insert(x, l[1..]);
      NamesCons(l[0], rest);
      DistinctCons(l[0], rest);
    }
  }

  /** Sorting keeps the names, and keeps them distinct. */
  lemma {:induction false} SortNames(s: seq<Entry>)
    requires DistinctNames(s)
    ensures DistinctNames(SortDescending(s))
    ensures NamesOf(SortDescending(s)) == NamesOf(s)
  {
    if s != [] {
      var t := s[1..];
      assert s == [s[0]] + t;
      NamesCons(s[0], t);
      DistinctCons(s[0], t);
      SortNames(t);
      InsertNames(s[0], SortDescending(t));
    }
  }

  /** `dict(sorted(dict(pairs).items(), ...))`: the outer `dict` changes
      nothing, so the printed order is the stable ranking of `dict(pairs)`. */
  function RankedDict(ps: seq<Entry>): (r: seq<Entry>)
    ensures r == SortDescending(DictOf(ps))
    ensures IsStableRanking(r, DictOf(ps)) && DistinctNames(r)
    ensures NamesOf(r) == NamesOf(ps)
  {
    DictOfNames(ps);
    SortNames(DictOf(ps));
    SortIsStableRanking(DictOf(ps));
    DictOfDistinct(SortDescending(DictOf(ps)));
    DictOf(SortDescending(DictOf(ps)))
  }
}
