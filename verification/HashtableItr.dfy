/** hashtable_itr.c: an iterator that survives removing the entry it stands on. */
module HashtableItr {
  import opened Common
  import opened Hashtables

  /** Buckets `lo` to `hi`, one after the other. */
  ghost function Flat<K, V>(chains: seq<seq<Entry<K, V>>>, lo: nat, hi: nat): seq<Entry<K, V>>
    requires lo <= hi <= |chains|
    decreases hi
  {
    if lo == hi then [] else Flat(chains, lo, hi - 1) + chains[hi - 1]
  }

  lemma {:induction false} FlatSplit<K, V>(chains: seq<seq<Entry<K, V>>>, lo: nat, mid: nat, hi: nat)
    requires lo <= mid <= hi <= |chains|
    ensures Flat(chains, lo, hi) == Flat(chains, lo, mid) + Flat(chains, mid, hi)
    decreases hi
  {
    if mid < hi { FlatSplit(chains, lo, mid, hi - 1); }
  }

  lemma {:induction false} FlatLocal<K, V>(a: seq<seq<Entry<K, V>>>, b: seq<seq<Entry<K, V>>>, lo: nat, hi: nat)
    requires lo <= hi <= |a| == |b|
    requires forall i | lo <= i < hi :: a[i] == b[i]
    ensures Flat(a, lo, hi) == Flat(b, lo, hi)
    decreases hi
  {
    if lo < hi { FlatLocal(a, b, lo, hi - 1); }
  }

  lemma {:induction false} FlatEmpty<K, V>(chains: seq<seq<Entry<K, V>>>, lo: nat, hi: nat)
    requires lo <= hi <= |chains|
    requires forall i | lo <= i < hi :: chains[i] == []
    ensures Flat(chains, lo, hi) == []
    decreases hi
  {
    if lo < hi { FlatEmpty(chains, lo, hi - 1); }
  }

  /** Laid end to end, the buckets list every entry exactly once. */
  lemma {:induction false} FlatExact<K, V>(chains: seq<seq<Entry<K, V>>>, entries: set<Entry<K, V>>, hi: nat)
    requires 0 < |chains| && hi <= |chains| && Bucketed(chains, entries)
    ensures Distinct(Flat(chains, 0, hi))
    ensures forall e :: e in Flat(chains, 0, hi) <==> e in entries && e.h % |chains| < hi
    decreases hi
  {
    if hi > 0 {
      FlatExact(chains, entries, hi - 1);
      var a, c := Flat(chains, 0, hi - 1), chains[hi - 1];
      assert Distinct(c);
      assert forall e | e in c :: e in entries && e.h % |chains| == hi - 1;
      assert forall e | e in entries :: AtHome(e, chains);
      forall e ensures e in a + c <==> e in entries && e.h % |chains| < hi {
        assert e in a + c <==> e in a || e in c;
      }
      DistinctConcat(a, c);
    }
  }

  lemma DistinctConcat<T>(a: seq<T>, b: seq<T>)
    requires Distinct(a) && Distinct(b) && forall x | x in a :: x !in b
    ensures Distinct(a + b)
  {
    forall j, k | 0 <= j < k < |a + b| ensures (a + b)[j] != (a + b)[k] {
      if j < |a| <= k { assert (a + b)[j] in a && (a + b)[k] in b; }
    }
  }

  lemma {:induction false} DistinctLength<T>(s: seq<T>, elems: set<T>)
    requires Distinct(s) && forall x :: x in s <==> x in elems
    ensures |s| == |elems|
  {
    if s != [] {
      var rest := elems - {Last(s)};
      forall x ensures x in Front(s) <==> x in rest {
        assert s == Front(s) + [Last(s)];
      }
      DistinctLength(Front(s), rest);
    }
  }

  /** The counter is the total length of the chains. */
  lemma CountIsTotalLength<K, V>(h: Hashtable<K, V>)
    requires h.Valid()
    ensures h.entrycount == |Flat(h.chains, 0, |h.chains|)| == |h.Contents()|
  {
    FlatExact(h.chains, h.entries, |h.chains|);
    DistinctLength(Flat(h.chains, 0, |h.chains|), h.entries);
    SameSize(h);
  }

  lemma SameSize<K, V>(h: Hashtable<K, V>)
    requires h.Valid()
    ensures |h.entries| == |h.Contents()|
  {
    var keys := set e | e in h.entries :: e.k;
    assert keys == h.index.Keys == h.Contents().Keys;
    KeysInjective(h.entries, keys);
  }

  lemma {:induction false} KeysInjective<K, V>(es: set<Entry<K, V>>, keys: set<K>)
    requires forall e, f | e in es && f in es && e.k == f.k :: e == f
    requires forall k :: k in keys <==> exists e :: e in es && e.k == k
    ensures |es| == |keys|
    decreases es
  {
    if es == {} {
      assert keys == {};
    } else {
      var e :| e in es;
      KeysInjective(es - {e}, keys - {e.k});
    }
  }

  lemma NoEntries<K, V>(chains: seq<seq<Entry<K, V>>>, b: nat)
    requires b < |chains| && Bucketed(chains, {})
    ensures chains[b] == []
  {
    assert Nth(chains[b], 0) == null;
  }

  ghost function Keys<K, V>(all: seq<Entry<K, V>>, n: nat): (keys: seq<K>)
    requires n <= |all|
    ensures |keys| == n && forall j | 0 <= j < n :: keys[j] == all[j].k
  {
    if n == 0 then [] else Keys(all, n - 1) + [all[n - 1].k]
  }

  /** The keys of the entries, in table order, are the keys of the map, each once. */
  lemma KeysExact<K, V>(h: Hashtable<K, V>)
    requires h.Valid()
    ensures var all := Flat(h.chains, 0, |h.chains|);
            Distinct(Keys(all, |all|)) && forall k :: k in Keys(all, |all|) <==> k in h.Contents()
  {
    var all := Flat(h.chains, 0, |h.chains|);
    var keys := Keys(all, |all|);
    FlatExact(h.chains, h.entries, |h.chains|);
    assert Indexed(h.entries, h.index, h.hashfn);
    forall j, k | 0 <= j < k < |keys| ensures keys[j] != keys[k] {
      assert all[j] in h.entries && all[k] in h.entries && all[j] != all[k];
    }
    forall k ensures k in keys <==> k in h.Contents() {
      if k in keys {
        var j :| 0 <= j < |keys| && keys[j] == k;
        assert all[j] in h.entries;
      }
      if k in h.Contents() {
        assert h.index[k] in all;
        var j :| 0 <= j < |all| && all[j] == h.index[k];
        assert keys[j] == k;
      }
    }
  }

  lemma EntryOf<K, V>(h: Hashtable<K, V>, e: Entry<K, V>)
    requires h.Valid() && e in h.entries
    ensures e.k in h.Contents() && h.Contents()[e.k] == e.v
  {
    assert Indexed(h.entries, h.index, h.hashfn);
  }

  lemma ValueOf<K, V>(h: Hashtable<K, V>, all: seq<Entry<K, V>>, n: nat)
    requires h.Valid() && all == Flat(h.chains, 0, |h.chains|) && n < |all|
    ensures all[n].k in h.Contents() && h.Contents()[all[n].k] == all[n].v
  {
    assert all[n] in h.entries by { FlatExact(h.chains, h.entries, |h.chains|); }
    EntryOf(h, all[n]);
  }

  /** The entries before position `p` of bucket `i`; bucket `|chains|` is the end. */
  ghost function Passed<K, V>(chains: seq<seq<Entry<K, V>>>, i: nat, p: nat): seq<Entry<K, V>>
    requires i <= |chains| && (i < |chains| ==> p <= |chains[i]|)
  {
    if i == |chains| then Flat(chains, 0, i) else Flat(chains, 0, i) + chains[i][..p]
  }

  ghost function Ahead<K, V>(chains: seq<seq<Entry<K, V>>>, i: nat, p: nat): seq<Entry<K, V>>
    requires i <= |chains| && (i < |chains| ==> p <= |chains[i]|)
  {
    if i == |chains| then [] else chains[i][p..] + Flat(chains, i + 1, |chains|)
  }

  lemma {:induction false} FlatHead<K, V>(chains: seq<seq<Entry<K, V>>>, lo: nat, hi: nat)
    requires lo < hi <= |chains|
    ensures Flat(chains, lo, hi) == chains[lo] + Flat(chains, lo + 1, hi)
    decreases hi
  {
    if lo + 1 < hi { FlatHead(chains, lo, hi - 1); }
  }

  lemma Regroup<T>(a: seq<T>, s: seq<T>, p: nat, b: seq<T>)
    requires p <= |s|
    ensures a + (s + b) == (a + s[..p]) + (s[p..] + b)
  {
  }

  lemma PassedAndAhead<K, V>(chains: seq<seq<Entry<K, V>>>, i: nat, p: nat)
    requires i <= |chains| && (i < |chains| ==> p <= |chains[i]|)
    ensures Passed(chains, i, p) + Ahead(chains, i, p) == Flat(chains, 0, |chains|)
  {
    if i < |chains| {
      FlatSplit(chains, 0, i, |chains|);
      FlatHead(chains, i, |chains|);
      Regroup(Flat(chains, 0, i), chains[i], p, Flat(chains, i + 1, |chains|));
    }
  }

  /** Bucket `j` is the next non-empty one after bucket `i`, or the end. */
  ghost predicate NextBucket<K, V>(chains: seq<seq<Entry<K, V>>>, i: nat, j: nat) {
    i < j <= |chains| && (forall b | i < b < j :: chains[b] == []) && (j < |chains| ==> chains[j] != [])
  }

  /** Nothing lies between a bucket and the next non-empty one. */
  lemma SkipEmpty<K, V>(chains: seq<seq<Entry<K, V>>>, i: nat, j: nat)
    requires NextBucket(chains, i, j)
    ensures Flat(chains, 0, j) == Flat(chains, 0, i + 1)
    ensures Flat(chains, i + 1, |chains|) == Flat(chains, j, |chains|)
  {
    FlatEmpty(chains, i + 1, j);
    FlatSplit(chains, 0, i + 1, j);
    FlatSplit(chains, i + 1, j, |chains|);
  }

  lemma LeaveBucket<K, V>(chains: seq<seq<Entry<K, V>>>, i: nat, j: nat)
    requires NextBucket(chains, i, j)
    ensures Passed(chains, j, 0) == Passed(chains, i, |chains[i]|)
    ensures Ahead(chains, j, 0) == Flat(chains, i + 1, |chains|)
  {
    SkipEmpty(chains, i, j);
    assert chains[i][..|chains[i]|] == chains[i];
    if j < |chains| {
      FlatHead(chains, j, |chains|);
      assert chains[j][..0] == [] && chains[j][0..] == chains[j];
    }
  }

  /** Normalising a position at the end of its bucket changes neither side of it. */
  lemma Settle<K, V>(c: seq<seq<Entry<K, V>>>, i: nat, p: nat, j: nat, q: nat)
    requires i < |c| && p <= |c[i]|
    requires if p < |c[i]| then j == i && q == p else NextBucket(c, i, j) && q == 0
    ensures Passed(c, j, q) == Passed(c, i, p) && Ahead(c, j, q) == Ahead(c, i, p)
  {
    if p == |c[i]| {
      LeaveBucket(c, i, j);
      assert c[i][p..] == [];
    }
  }

  lemma TakeOne<T>(a: seq<T>, s: seq<T>, p: nat, b: seq<T>)
    requires p < |s|
    ensures a + s[..p + 1] == (a + s[..p]) + [s[p]]
    ensures s[p..] + b == [s[p]] + (s[p + 1..] + b)
  {
  }

  lemma Stepped<K, V>(c: seq<seq<Entry<K, V>>>, i: nat, p: nat, j: nat, q: nat)
    requires i < |c| && p < |c[i]|
    requires if p + 1 < |c[i]| then j == i && q == p + 1 else NextBucket(c, i, j) && q == 0
    ensures Passed(c, j, q) == Passed(c, i, p) + [c[i][p]]
    ensures Ahead(c, i, p) == [c[i][p]] + Ahead(c, j, q)
  {
    TakeOne(Flat(c, 0, i), c[i], p, Flat(c, i + 1, |c|));
    assert Passed(c, i, p + 1) == Passed(c, i, p) + [c[i][p]];
    assert Ahead(c, i, p) == [c[i][p]] + Ahead(c, i, p + 1);
    Settle(c, i, p + 1, j, q);
  }

  /** Taking the entry at position `p` out leaves what was passed, and what lies ahead
      of that entry. */
  lemma Shortened<K, V>(c: seq<seq<Entry<K, V>>>, d: seq<seq<Entry<K, V>>>, i: nat, p: nat)
    requires i < |c| && p < |c[i]| && d == c[i := Without(c[i], p)]
    ensures Passed(d, i, p) == Passed(c, i, p)
    ensures Ahead(c, i, p) == [c[i][p]] + Ahead(d, i, p)
  {
    FlatLocal(c, d, 0, i);
    FlatLocal(c, d, i + 1, |c|);
    assert d[i][..p] == c[i][..p] && d[i][p..] == c[i][p + 1..];
    TakeOne(Flat(c, 0, i), c[i], p, Flat(c, i + 1, |c|));
  }

  lemma WithoutAt<K, V>(s: seq<Entry<K, V>>, p: nat)
    requires p < |s|
    ensures |Without(s, p)| == |s| - 1 && Nth(Without(s, p), p) == Nth(s, p + 1)
    ensures p > 0 ==> Without(s, p)[p - 1] == s[p - 1]
  {
  }

  lemma StruckOut<K, V>(c: seq<seq<Entry<K, V>>>, d: seq<seq<Entry<K, V>>>, i: nat, p: nat, j: nat, q: nat)
    requires i < |c| && p < |c[i]| && d == c[i := Without(c[i], p)]
    requires if p < |d[i]| then j == i && q == p else NextBucket(d, i, j) && q == 0
    ensures Passed(d, j, q) == Passed(c, i, p)
    ensures Ahead(c, i, p) == [c[i][p]] + Ahead(d, j, q)
  {
    Shortened(c, d, i, p);
    Settle(d, i, p, j, q);
  }

  /** The loop of both the constructor and the advance: the first non-empty bucket from
      `start` on. */
  method Scan<K(==), V>(h: Hashtable<K, V>, start: nat) returns (found: Entry?<K, V>, at: nat)
    requires h.Valid() && start <= h.tablelength
    ensures start <= at <= |h.chains| && forall b | start <= b < at :: h.chains[b] == []
    ensures if at == |h.chains| then found == null else h.chains[at] != [] && found == h.chains[at][0]
  {
    at := start;
    while at < h.tablelength
      invariant start <= at <= h.tablelength
      invariant forall b | start <= b < at :: h.chains[b] == []
    {
      assert Linked(h.table[at], h.chains[at]);
      if h.table[at] != null { return h.table[at], at; }
      at := at + 1;
    }
    found := null;
  }

  class Iterator<K(==), V> {
    const h: Hashtable<K, V>
    var e: Entry?<K, V>
    var parent: Entry?<K, V>
    var index: nat
    ghost var pos: nat

    /** On an entry, with `parent` its true chain predecessor, or past the end. */
    ghost predicate Valid()
      reads this, h, h.Repr
    {
      && this !in h.Repr && h.Valid()
      && (e == null ==> index == |h.chains| && parent == null)
      && (e != null ==>
            && index < |h.chains| && pos < |h.chains[index]| && e == h.chains[index][pos]
            && parent == if pos == 0 then null else h.chains[index][pos - 1])
    }

    /** The entries passed, in the order they were passed. */
    ghost function Visited(): seq<Entry<K, V>>
      requires Valid()
      reads this, h, h.Repr
    {
      Passed(h.chains, index, pos)
    }

    /** The entries still to come, the current one first. */
    ghost function Coming(): seq<Entry<K, V>>
      requires Valid()
      reads this, h, h.Repr
    {
      Ahead(h.chains, index, pos)
    }

    constructor (h: Hashtable<K, V>)
      requires h.Valid()
      ensures Valid() && this.h == h && Visited() == []
      ensures e == null <==> h.entrycount == 0
    {
      this.h, parent, pos := h, null, 0;
      var found: Entry?<K, V> := null;
      var at := h.tablelength;
      if h.entrycount != 0 { found, at := Scan(h, 0); }
      e, index := found, at;
      new;
      ghost var some := h.entrycount != 0;
      forall b | 0 <= b < at ensures h.chains[b] == [] {
        if !some { NoEntries(h.chains, b); }
      }
      FlatEmpty(h.chains, 0, at);
      CountIsTotalLength(h);
    }

    /** `hashtable_iterator_advance`.  `nxt` is the position, in the current bucket, of
        the entry that `e.next` leads to: one past `pos`, or `pos` itself when `e` has
        just been taken out of the chain. */
    method Advance(ghost nxt: nat) returns (more: bool)
      requires this !in h.Repr && h.Valid()
      requires e != null ==> index < |h.chains| && nxt <= |h.chains[index]| && e.next == Nth(h.chains[index], nxt)
      modifies this
      ensures h.Valid() && more == (e != null)
      ensures old(e) == null ==> unchanged(this)
      ensures old(e) != null && nxt < |h.chains[old(index)]| ==>
                index == old(index) && pos == nxt && e == h.chains[index][nxt] && parent == old(e)
      ensures old(e) != null && nxt == |h.chains[old(index)]| ==>
                && parent == null && pos == 0 && NextBucket(h.chains, old(index), index)
                && e == if index < |h.chains| then h.chains[index][0] else null
    {
      hide Bucketed, Indexed;
      if e == null { return false; }
      var next := e.next;
      if next != null {
        parent, e, pos := e, next, nxt;
        return true;
      }
      parent, pos := null, 0;
      e, index := Scan(h, index + 1);
      more := e != null;
    }

    /** What has been visited and what is coming make up the whole table. */
    lemma WholeTable()
      requires Valid()
      ensures Visited() + Coming() == Flat(h.chains, 0, |h.chains|)
    {
      PassedAndAhead(h.chains, index, pos);
    }

    lemma Fresh(all: seq<Entry<K, V>>)
      requires Valid() && Visited() == [] && all == Flat(h.chains, 0, |h.chains|)
      ensures Coming() == all[0..] == all
    {
      WholeTable();
    }

    /** Advancing in an unchanged table: one more entry visited, one fewer to come. */
    method Next() returns (more: bool)
      requires Valid()
      modifies this
      ensures Valid() && more == (e != null)
      ensures old(e) == null ==> unchanged(this)
      ensures old(e) != null ==> old(Coming()) == [old(e)] + Coming() && Visited() == old(Visited()) + [old(e)]
    {
      ghost var i, p := index, pos;
      if e != null {
        assert Linked(h.table[i], h.chains[i]);
      }
      more := Advance(pos + 1);
      if old(e) != null {
        Stepped(h.chains, i, p, index, pos);
      }
    }

    /** `hashtable_iterator_remove`: the current entry leaves the table, nothing else
        does, and the iterator stands where it would have stood after an advance. */
    method Remove() returns (more: bool)
      requires Valid() && e != null
      modifies this, h, h.Repr
      ensures Valid() && h.Repr <= old(h.Repr) && more == (e != null)
      ensures h.Contents() == old(h.Contents()) - {old(e).k}
      ensures old(e).k in old(h.Contents()) && old(h.Contents())[old(e).k] == old(e).v
      ensures Visited() == old(Visited()) && old(Coming()) == [old(e)] + Coming()
    {
      ghost var c, i, p := h.chains, index, pos;
      more := TakeOut();
      StruckOut(c, h.chains, i, p, index, pos);
    }

    method Step(drop: bool, ghost all: seq<Entry<K, V>>, ghost n: nat)
      requires Valid() && e != null && n <= |all| && Coming() == all[n..]
      modifies this, h, h.Repr
      ensures Valid() && h.Repr <= old(h.Repr)
      ensures n < |all| && old(e) == all[n] && Coming() == all[n + 1..]
      ensures h.Contents() == if drop then old(h.Contents()) - {all[n].k} else old(h.Contents())
    {
      ghost var now := e;
      var more;
      if drop { more := Remove(); } else { more := Next(); }
      assert all[n..] == [now] + Coming();
      assert all[n..][0] == all[n] && all[n..][1..] == all[n + 1..];
    }

    /** `Next`, seen from a list of all entries. */
    method Pass(ghost all: seq<Entry<K, V>>, ghost n: nat) returns (more: bool)
      requires Valid() && n < |all| && Coming() == all[n..]
      modifies this
      ensures Valid() && Coming() == all[n + 1..] && more == (n + 1 < |all|)
    {
      ghost var now := e;
      more := Next();
      assert all[n..] == [now] + Coming();
      assert all[n..][0] == all[n] && all[n..][1..] == all[n + 1..];
    }

    /** What the iterator stands on. */
    lemma Current(all: seq<Entry<K, V>>, n: nat)
      requires Valid() && n < |all| && Coming() == all[n..]
      ensures e == all[n]
    {
      assert Coming()[0] == all[n];
    }

    lemma NothingComing()
      requires Valid() && e == null
      ensures |Coming()| == 0
    {
    }

    method Run(choose: nat -> bool, ghost m: map<K, V>, ghost all: seq<Entry<K, V>>)
      returns (ghost seen: seq<Entry<K, V>>)
      requires Valid() && Coming() == all && h.Contents() == m
      modifies this, h, h.Repr
      ensures Valid() && h.Repr <= old(h.Repr)
      ensures h.Contents() == Swept(m, all, choose, |all|) && seen == all
    {
      hide Iterator.Valid, Coming;
      var n := 0;
      seen := [];
      while e != null
        invariant Valid() && h.Repr <= old(h.Repr)
        invariant n <= |all| && Coming() == all[n..] && seen == all[..n]
        invariant h.Contents() == Swept(m, all, choose, n)
        decreases |all| - n
      {
        seen := seen + [e];
        Step(choose(n), all, n);
        assert all[..n + 1] == all[..n] + [all[n]];
        n := n + 1;
      }
      NothingComing();
    }

    method TakeOut() returns (more: bool)
      requires Valid() && e != null
      modifies this, h, h.table, h.entries
      ensures Valid() && h.Repr <= old(h.Repr) && more == (e != null)
      ensures h.Contents() == old(h.Contents()) - {old(e).k}
      ensures old(e).k in old(h.Contents()) && old(h.Contents())[old(e).k] == old(e).v
      ensures h.chains == old(h.chains)[old(index) := Without(old(h.chains[index]), old(pos))]
      ensures if old(pos) < |h.chains[old(index)]| then index == old(index) && pos == old(pos)
              else NextBucket(h.chains, old(index), index) && pos == 0
    {
      hide Holds, Indexed, Hashtable.Contents;
      Detach();
      more := StepOver();
    }

    /** The entry leaves its chain; the iterator still stands on it. */
    method Detach()
      requires Valid() && e != null
      modifies h, h.table, h.entries
      ensures this !in h.Repr && h.Valid() && h.Repr <= old(h.Repr)
      ensures h.Contents() == old(h.Contents()) - {e.k}
      ensures e.k in old(h.Contents()) && old(h.Contents())[e.k] == e.v
      ensures index < |h.chains| && h.chains == old(h.chains)[index := Without(old(h.chains[index]), pos)]
      ensures pos <= |h.chains[index]| && e.next == Nth(h.chains[index], pos)
      ensures parent == if pos == 0 then null else h.chains[index][pos - 1]
    {
      assert index < h.tablelength && Linked(h.table[index], h.chains[index]);
      hide Holds, Indexed, Hashtable.Contents;
      WithoutAt(h.chains[index], pos);
      h.RemoveAt(index, pos, parent, e);
    }

    /** The advance of a removal: `e` is already out of its chain, and must not become
        anybody's parent. */
    method StepOver() returns (more: bool)
      requires this !in h.Repr && h.Valid() && e != null
      requires index < |h.chains| && pos <= |h.chains[index]| && e.next == Nth(h.chains[index], pos)
      requires parent == if pos == 0 then null else h.chains[index][pos - 1]
      modifies this
      ensures Valid() && more == (e != null)
      ensures if old(pos) < |h.chains[old(index)]| then index == old(index) && pos == old(pos)
              else NextBucket(h.chains, old(index), index) && pos == 0
    {
      var rememberE, rememberParent := e, parent;
      more := Advance(pos);
      if parent == rememberE { parent := rememberParent; }
    }
  }

  /** The table after the first `n` steps of a sweep that removes the entries it chooses. */
  ghost function Swept<K, V>(m: map<K, V>, all: seq<Entry<K, V>>, choose: nat -> bool, n: nat): map<K, V>
    requires n <= |all|
  {
    if n == 0 then m
    else if choose(n - 1) then Swept(m, all, choose, n - 1) - {all[n - 1].k}
    else Swept(m, all, choose, n - 1)
  }

  lemma {:induction false} SweptExact<K, V>(m: map<K, V>, all: seq<Entry<K, V>>, choose: nat -> bool, n: nat)
    requires n <= |all|
    ensures forall k :: k in Swept(m, all, choose, n) <==>
                          k in m && forall j | 0 <= j < n && all[j].k == k :: !choose(j)
    ensures forall k | k in Swept(m, all, choose, n) :: Swept(m, all, choose, n)[k] == m[k]
  {
    if n > 0 { SweptExact(m, all, choose, n - 1); }
  }

  /** Runs an iterator over the table, removing at the steps chosen: the entries it stood on
      are all the entries, each once, and exactly the chosen ones are gone. */
  method Sweep<K(==), V>(h: Hashtable<K, V>, choose: nat -> bool) returns (ghost seen: seq<Entry<K, V>>)
    requires h.Valid()
    modifies h, h.Repr
    ensures h.Valid() && h.Repr <= old(h.Repr)
    ensures seen == old(Flat(h.chains, 0, |h.chains|)) && Distinct(seen)
    ensures h.Contents() == Swept(old(h.Contents()), seen, choose, |seen|)
  {
    FlatExact(h.chains, h.entries, |h.chains|);
    var it := new Iterator(h);
    it.Fresh(Flat(h.chains, 0, |h.chains|));
    seen := it.Run(choose, h.Contents(), Flat(h.chains, 0, |h.chains|));
  }

  /** Removing at every step. */
  method SweepAll<K(==), V>(h: Hashtable<K, V>)
    requires h.Valid()
    modifies h, h.Repr
    ensures h.Valid() && h.Repr <= old(h.Repr) && h.Contents() == map[]
  {
    ghost var m, all := h.Contents(), Flat(h.chains, 0, |h.chains|);
    KeysExact(h);
    ghost var seen := Sweep(h, n => true);
    SweptExact(m, all, n => true, |all|);
  }
}
