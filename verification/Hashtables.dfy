/** hashtable.c: a chained hash table over heap-linked entries, refining a finite map. */
module Hashtables {
  import opened Common

  const PRIMES: seq<nat> := [
    53, 97, 193, 389,
    769, 1543, 3079, 6151,
    12289, 24593, 49157, 98317,
    196613, 393241, 786433, 1572869,
    3145739, 6291469, 12582917, 25165843,
    50331653, 100663319, 201326611, 402653189,
    805306457, 1610612741]

  const MAX_SIZE := 0x4000_0000

  /** The place value of the last of 24 significant bits. */
  function Ulp(n: nat): (u: nat)
    ensures u > 0
  {
    if n < 0x100_0000 then 1 else 2 * Ulp(n / 2)
  }

  /** Rounded to single precision, ties to even. */
  function Single(n: nat): nat {
    var u := Ulp(n);
    var q, r := n / u, n % u;
    if 2 * r > u || (2 * r == u && q % 2 == 1) then (q + 1) * u else q * u
  }

  /** 0.65 in single precision, in units of 2^-24. */
  const LOAD_FACTOR := 10905190

  /** `ceil(size * max_load_factor)`: a product of single-precision numbers. */
  function LoadLimit(size: nat): nat {
    (Single(Single(size) * LOAD_FACTOR) + 0xFF_FFFF) / 0x100_0000
  }

  class Entry<K, V> {
    const k: K
    const v: V
    const h: nat
    var next: Entry?<K, V>

    constructor (k: K, v: V, h: nat, next: Entry?<K, V>)
      ensures this.k == k && this.v == v && this.h == h && this.next == next
    {
      this.k, this.v, this.h, this.next := k, v, h, next;
    }
  }

  /** The entry at position `j` of a chain, or the null that ends it. */
  function Nth<K, V>(s: seq<Entry<K, V>>, j: nat): Entry?<K, V> {
    if j < |s| then s[j] else null
  }

  /** The entries of `s`, in order, are what the `next` pointers from `head` spell out. */
  ghost predicate Linked<K, V>(head: Entry?<K, V>, s: seq<Entry<K, V>>)
    reads s
  {
    head == Nth(s, 0) && forall j {:trigger s[j].next} | 0 <= j < |s| :: s[j].next == Nth(s, j + 1)
  }

  ghost predicate Distinct<T>(s: seq<T>) { forall j, k | 0 <= j < k < |s| :: s[j] != s[k] }

  ghost predicate AtHome<K, V>(e: Entry<K, V>, chains: seq<seq<Entry<K, V>>>)
    requires |chains| > 0
  {
    e in chains[e.h % |chains|]
  }

  /** Bucket by bucket, with no repetition inside a bucket; every entry is in the
      bucket of its hash. */
  ghost predicate Bucketed<K, V>(chains: seq<seq<Entry<K, V>>>, entries: set<Entry<K, V>>)
    requires |chains| > 0
  {
    && (forall i, j | 0 <= i < |chains| && 0 <= j < |chains[i]| ::
          chains[i][j] in entries && chains[i][j].h % |chains| == i)
    && (forall e {:trigger AtHome(e, chains)} | e in entries :: AtHome(e, chains))
    && (forall i {:trigger Distinct(chains[i])} | 0 <= i < |chains| :: Distinct(chains[i]))
  }

  lemma LinkedTail<K, V>(head: Entry?<K, V>, s: seq<Entry<K, V>>)
    requires s != [] && Linked(head, s)
    ensures Linked(s[0].next, s[1..])
  {
    forall j | 0 <= j < |s| - 1 ensures s[1..][j].next == Nth(s[1..], j + 1) {
      assert s[1..][j] == s[j + 1];
    }
  }

  /** The chain once the entry before position `j` points past it. */
  lemma Bypassed<K, V>(head: Entry?<K, V>, s: seq<Entry<K, V>>, j: nat)
    requires 0 < j < |s| && head == s[0] && s[j - 1].next == Nth(s, j + 1)
    requires forall b | 0 <= b < |s| && b != j - 1 :: s[b].next == Nth(s, b + 1)
    ensures Linked(head, Without(s, j))
  {
    var t := Without(s, j);
    forall b | 0 <= b < |t| ensures t[b].next == Nth(t, b + 1) {
      assert t[b] == if b < j then s[b] else s[b + 1];
    }
  }

  /** Each bucket of the array spells out its chain. */
  ghost predicate Chained<K, V>(table: array<Entry?<K, V>>, chains: seq<seq<Entry<K, V>>>)
    reads table, set i, j | 0 <= i < |chains| && 0 <= j < |chains[i]| :: chains[i][j]
  {
    && table.Length == |chains|
    && forall b {:trigger Linked(table[b], chains[b])} | 0 <= b < |chains| :: Linked(table[b], chains[b])
  }

  /** The head of bucket `i` is nowhere else. */
  ghost predicate Apart<K, V>(rest: seq<seq<Entry<K, V>>>, moved: seq<seq<Entry<K, V>>>, i: nat)
    requires i < |rest| && rest[i] != []
  {
    && rest[i][0] !in rest[i][1..]
    && (forall b | 0 <= b < |rest| && b != i :: rest[i][0] !in rest[b])
    && (forall b | 0 <= b < |moved| :: rest[i][0] !in moved[b])
  }

  /** The head of bucket `i` of the old table goes to its bucket in the new one. */
  lemma HeadMoves<K, V>(rest: seq<seq<Entry<K, V>>>, moved: seq<seq<Entry<K, V>>>, entries: set<Entry<K, V>>,
                        done: set<Entry<K, V>>, i: nat)
    requires i < |rest| && rest[i] != [] && |moved| > 0 && done <= entries
    requires Bucketed(rest, entries - done) && Bucketed(moved, done)
    ensures var e := rest[i][0]; var index := e.h % |moved|;
            && e in entries - done && Apart(rest, moved, i)
            && Bucketed(rest[i := rest[i][1..]], entries - (done + {e}))
            && Bucketed(moved[index := [e] + moved[index]], done + {e})
  {
    var e := rest[i][0];
    BucketedRemove(rest, entries - done, i, 0);
    BucketedPush(moved, done, e);
    assert Without(rest[i], 0) == rest[i][1..];
    assert entries - (done + {e}) == entries - done - {e};
  }

  /** The bucket array holds exactly `entries`, chained as `chains` says. */
  ghost predicate Holds<K, V>(table: array<Entry?<K, V>>, chains: seq<seq<Entry<K, V>>>, entries: set<Entry<K, V>>)
    reads table, entries
  {
    && table.Length == |chains| > 0
    && Bucketed(chains, entries)
    && Chained(table, chains)
  }

  /** One entry per key. */
  ghost predicate Indexed<K, V>(entries: set<Entry<K, V>>, index: map<K, Entry<K, V>>, hashfn: K -> nat) {
    && (forall e | e in entries :: e.h == hashfn(e.k) && e.k in index && index[e.k] == e)
    && (forall k | k in index :: index[k] in entries && index[k].k == k)
  }

  ghost function Values<K, V>(index: map<K, Entry<K, V>>): map<K, V> {
    map k | k in index :: index[k].v
  }

  lemma ValuesInsert<K, V>(index: map<K, Entry<K, V>>, k: K, e: Entry<K, V>)
    ensures Values(index[k := e]) == Values(index)[k := e.v]
  {
  }

  lemma ValuesRemove<K, V>(index: map<K, Entry<K, V>>, k: K)
    ensures Values(index - {k}) == Values(index) - {k}
  {
  }

  function Without<T>(s: seq<T>, j: nat): seq<T>
    requires j < |s|
  {
    s[..j] + s[j + 1..]
  }

  lemma BucketedRemove<K, V>(chains: seq<seq<Entry<K, V>>>, entries: set<Entry<K, V>>, i: nat, j: nat)
    requires |chains| > 0 && Bucketed(chains, entries) && i < |chains| && j < |chains[i]|
    ensures Bucketed(chains[i := Without(chains[i], j)], entries - {chains[i][j]})
    ensures chains[i][j] !in Without(chains[i], j)
  {
    var c, e, rest := chains[i], chains[i][j], Without(chains[i], j);
    var after := chains[i := rest];
    assert Distinct(c);
    assert forall b | 0 <= b < |rest| :: rest[b] == if b < j then c[b] else c[b + 1];
    forall f | f in entries - {e} ensures AtHome(f, after) {
      assert AtHome(f, chains);
      if f.h % |chains| == i {
        var b :| 0 <= b < |c| && c[b] == f;
        assert rest[if b < j then b else b - 1] == f;
      }
    }
    forall b | 0 <= b < |after| ensures Distinct(after[b]) {
      assert Distinct(chains[b]);
    }
  }

  lemma BucketedPush<K, V>(chains: seq<seq<Entry<K, V>>>, entries: set<Entry<K, V>>, e: Entry<K, V>)
    requires |chains| > 0 && Bucketed(chains, entries) && e !in entries
    ensures var i := e.h % |chains|; Bucketed(chains[i := [e] + chains[i]], entries + {e})
  {
    var i := e.h % |chains|;
    var after := chains[i := [e] + chains[i]];
    forall f | f in entries + {e} ensures AtHome(f, after) {
      if f != e {
        assert AtHome(f, chains);
        assert f in chains[i] ==> f in [e] + chains[i];
      }
    }
    forall b | 0 <= b < |after| ensures Distinct(after[b]) {
      assert Distinct(chains[b]);
    }
  }

  /** The first prime above the size asked for. */
  method ChooseSize(minsize: nat) returns (pindex: nat, size: nat)
    requires minsize <= MAX_SIZE
    ensures pindex < |PRIMES| && size == PRIMES[pindex] > minsize
    ensures pindex > 0 ==> PRIMES[pindex - 1] <= minsize
  {
    pindex, size := 0, PRIMES[0];
    while pindex < |PRIMES|
      invariant 0 <= pindex <= |PRIMES| && size == PRIMES[0]
      invariant pindex > 0 ==> PRIMES[pindex - 1] <= minsize
    {
      if PRIMES[pindex] > minsize {
        size := PRIMES[pindex];
        break;
      }
      pindex := pindex + 1;
    }
    assert pindex < |PRIMES| by { assert PRIMES[25] > MAX_SIZE; }
  }

  class Hashtable<K(==), V> {
    const hashfn: K -> nat
    var tablelength: nat
    var table: array<Entry?<K, V>>
    var entrycount: nat
    var loadlimit: nat
    var primeindex: nat

    ghost var chains: seq<seq<Entry<K, V>>>
    ghost var entries: set<Entry<K, V>>
    ghost var index: map<K, Entry<K, V>>
    ghost var Repr: set<object>

    /** Everything but the counter. */
    ghost predicate Shape()
      reads this, Repr
    {
      && Repr == {this, table} + entries
      && primeindex < |PRIMES| && tablelength == PRIMES[primeindex]
      && table.Length == tablelength && loadlimit == LoadLimit(tablelength)
      && Holds(table, chains, entries)
      && Indexed(entries, index, hashfn)
    }

    /** The finite map the table stands for. */
    ghost function Contents(): map<K, V>
      reads this
    {
      Values(index)
    }

    /** The counter is exact, and bounded by the load limit until the last prime. */
    ghost predicate Valid()
      reads this, Repr
    {
      Shape() && entrycount == |entries| && (entrycount <= loadlimit || primeindex == |PRIMES| - 1)
    }

    constructor (minsize: nat, hashfn: K -> nat)
      requires minsize <= MAX_SIZE
      ensures Valid() && fresh(Repr) && Contents() == map[] && this.hashfn == hashfn
      ensures tablelength > minsize && (primeindex > 0 ==> PRIMES[primeindex - 1] <= minsize)
    {
      hide LoadLimit;
      this.hashfn := hashfn;
      var pindex, size := ChooseSize(minsize);
      assert size > 0 by { PrimesGrow(0, pindex); }
      tablelength, primeindex, entrycount := size, pindex, 0;
      var t: array<Entry?<K, V>> := new Entry?<K, V>[size](i => null);
      table := t;
      loadlimit := LoadLimit(size);
      chains := seq(size, i => []);
      entries := {};
      index := map[];
      Repr := {this, t};
    }

    /** Makes the table the next prime in size, moving every entry. */
    method Expand()
      requires Shape()
      modifies Repr
      ensures Shape() && fresh(Repr - old(Repr))
      ensures index == old(index) && entries == old(entries) && entrycount == old(entrycount)
      ensures primeindex == if old(primeindex) == |PRIMES| - 1 then old(primeindex) else old(primeindex) + 1
    {
      if primeindex == |PRIMES| - 1 { return; }
      var newsize := PRIMES[primeindex + 1];
      PrimesGrow(0, primeindex + 1);
      var newtable := new Entry?<K, V>[newsize](i => null);
      ghost var moved := Relocate(newtable, newsize);
      Install(newtable, newsize, moved);
    }

    method Install(newtable: array<Entry?<K, V>>, newsize: nat, ghost moved: seq<seq<Entry<K, V>>>)
      requires primeindex + 1 < |PRIMES| && newsize == PRIMES[primeindex + 1] == newtable.Length
      requires Holds(newtable, moved, entries) && Indexed(entries, index, hashfn)
      modifies this
      ensures Shape() && Repr == {this, newtable} + entries
      ensures index == old(index) && entries == old(entries) && entrycount == old(entrycount)
      ensures primeindex == old(primeindex) + 1
    {
      hide Indexed, Holds, LoadLimit;
      primeindex := primeindex + 1;
      table := newtable;
      tablelength := newsize;
      loadlimit := LoadLimit(newsize);
      chains := moved;
      Repr := {this, newtable} + entries;
    }

    /** The two nested loops of the expansion. */
    method Relocate(newtable: array<Entry?<K, V>>, newsize: nat) returns (ghost moved: seq<seq<Entry<K, V>>>)
      requires newtable != table && newtable.Length == newsize > 0
      requires forall b | 0 <= b < newsize :: newtable[b] == null
      requires table.Length == tablelength && Holds(table, chains, entries)
      modifies table, newtable, entries
      ensures unchanged(this)
      ensures Holds(newtable, moved, entries)
    {
      ghost var rest, done := chains, {};
      moved := seq(newsize, b => []);
      var i := 0;
      while i < tablelength
        invariant 0 <= i <= tablelength && unchanged(this)
        invariant Moving(newtable, newsize, rest, moved, done)
        invariant forall b | 0 <= b < i :: rest[b] == []
      {
        assert Linked(table[i], rest[i]);
        while table[i] != null
          invariant unchanged(this)
          invariant Moving(newtable, newsize, rest, moved, done)
          invariant forall b | 0 <= b < i :: rest[b] == []
          invariant table[i] == Nth(rest[i], 0)
          decreases |rest[i]|
        {
          rest, moved, done := MoveHead(i, newtable, newsize, rest, moved, done);
          assert Linked(table[i], rest[i]);
        }
        i := i + 1;
      }
      forall e | e in entries ensures e in done {
        assert e !in done ==> AtHome(e, rest);
      }
      assert done == entries;
    }

    /** The inner step of the expansion: the head of bucket `i` becomes the head of
        its new bucket. */
    method MoveHead(i: nat, newtable: array<Entry?<K, V>>, newsize: nat, ghost rest: seq<seq<Entry<K, V>>>,
                    ghost moved: seq<seq<Entry<K, V>>>, ghost done: set<Entry<K, V>>)
      returns (ghost rest': seq<seq<Entry<K, V>>>, ghost moved': seq<seq<Entry<K, V>>>, ghost done': set<Entry<K, V>>)
      requires Moving(newtable, newsize, rest, moved, done)
      requires i < tablelength && table[i] != null && rest[i] != []
      modifies table, newtable, entries
      ensures unchanged(this)
      ensures Moving(newtable, newsize, rest', moved', done')
      ensures rest' == rest[i := rest[i][1..]]
    {
      hide Indexed, Bucketed;
      assert Linked(table[i], rest[i]);
      var index := table[i].h % newsize;
      HeadMoves(rest, moved, entries, done, i);
      Relink(i, newtable, index, rest, moved);
      rest', moved' := rest[i := rest[i][1..]], moved[index := [rest[i][0]] + moved[index]];
      done' := done + {rest[i][0]};
    }

    /** The relinking itself: three writes. */
    method Relink(i: nat, newtable: array<Entry?<K, V>>, index: nat,
                  ghost rest: seq<seq<Entry<K, V>>>, ghost moved: seq<seq<Entry<K, V>>>)
      requires newtable != table && i < table.Length && index < newtable.Length
      requires Chained(table, rest) && Chained(newtable, moved) && rest[i] != [] && table[i] != null
      requires Apart(rest, moved, i)
      modifies table, newtable, rest[i][0]
      ensures unchanged(this)
      ensures Chained(table, rest[i := rest[i][1..]])
      ensures Chained(newtable, moved[index := [rest[i][0]] + moved[index]])
    {
      assert Linked(table[i], rest[i]);
      var e: Entry<K, V> := table[i];
      LinkedTail(e, rest[i]);
      assert forall b | 0 <= b < |rest| :: Linked(table[b], rest[b]);
      assert forall b | 0 <= b < |moved| :: Linked(newtable[b], moved[b]);
      table[i] := e.next;
      e.next := newtable[index];
      newtable[index] := e;
      assert forall b | 0 <= b < |rest| && b != i :: Linked(table[b], rest[b]);
      assert forall b | 0 <= b < |moved| && b != index :: Linked(newtable[b], moved[b]);
      assert Linked(newtable[index], [e] + moved[index]);
    }

    /** Halfway through an expansion: `rest` is still in the old table, `moved` and
        `done` in the new one. */
    ghost predicate Moving(newtable: array<Entry?<K, V>>, newsize: nat, rest: seq<seq<Entry<K, V>>>,
                           moved: seq<seq<Entry<K, V>>>, done: set<Entry<K, V>>)
      reads this, table, newtable, entries
    {
      && newtable != table && table.Length == tablelength && newtable.Length == newsize
      && done <= entries
      && Holds(table, rest, entries - done)
      && Holds(newtable, moved, done)
    }

    /** `hashtable_insert`; the key must be absent. */
    method Insert(k: K, v: V)
      requires Valid() && k !in Contents()
      modifies Repr
      ensures Valid() && fresh(Repr - old(Repr))
      ensures Contents() == old(Contents())[k := v]
      ensures entrycount == old(entrycount) + 1
    {
      hide Holds, Indexed, LoadLimit;
      CountUp();
      ghost var e := Link(k, v);
      ValuesInsert(old(index), k, e);
    }

    /** Counts the coming entry, and expands the table when it goes over the limit. */
    method CountUp()
      requires Valid()
      modifies Repr
      ensures Shape() && fresh(Repr - old(Repr))
      ensures index == old(index) && entries == old(entries) && entrycount == old(entrycount) + 1
      ensures entrycount <= loadlimit || primeindex == |PRIMES| - 1
    {
      ghost var before := primeindex;
      entrycount := entrycount + 1;
      if entrycount > loadlimit {
        Expand();
        PrimesGrow(before, primeindex);
      }
    }

    method Link(k: K, v: V) returns (ghost linked: Entry<K, V>)
      requires Shape() && k !in index
      modifies this, table
      ensures Shape() && fresh(Repr - old(Repr))
      ensures unchanged(`entrycount) && unchanged(`loadlimit) && unchanged(`primeindex)
      ensures linked !in old(entries) && linked.v == v
      ensures entries == old(entries) + {linked} && index == old(index)[k := linked]
    {
      hide LoadLimit, Chained, Bucketed;
      var h := hashfn(k);
      var i := h % tablelength;
      var e := new Entry(k, v, h, table[i]);
      PushHead(i, e);
      linked := e;
      chains, entries, index, Repr := chains[i := [e] + chains[i]], entries + {e}, index[k := e], Repr + {e};
    }

    method PushHead(i: nat, e: Entry<K, V>)
      requires Holds(table, chains, entries) && e !in entries
      requires i == e.h % |chains| && e.next == table[i]
      modifies table
      ensures unchanged(this)
      ensures Holds(table, chains[i := [e] + chains[i]], entries + {e})
    {
      assert forall b | 0 <= b < |chains| :: Linked(table[b], chains[b]);
      BucketedPush(chains, entries, e);
      table[i] := e;
      assert Linked(table[i], [e] + chains[i]);
    }

    /** `hashtable_search` */
    method Search(k: K) returns (r: Option<V>)
      requires Valid()
      ensures r == if k in Contents() then Some(Contents()[k]) else None
    {
      var hashvalue := hashfn(k);
      var i := hashvalue % tablelength;
      var e := table[i];
      ghost var j := 0;
      assert Linked(table[i], chains[i]);
      while e != null
        invariant j <= |chains[i]| && e == Nth(chains[i], j)
        invariant forall b | 0 <= b < j :: chains[i][b].k != k
        decreases |chains[i]| - j
      {
        if hashvalue == e.h && k == e.k { return Some(e.v); }
        e := e.next;
        j := j + 1;
      }
      assert k in index ==> AtHome(index[k], chains);
      r := None;
    }

    /** `hashtable_remove`; the pointer-to-pointer is the previous entry, or null for
        the bucket itself. */
    method Remove(k: K) returns (r: Option<V>)
      requires Valid()
      modifies Repr
      ensures Valid() && Repr <= old(Repr)
      ensures r == if k in old(Contents()) then Some(old(Contents())[k]) else None
      ensures Contents() == old(Contents()) - {k}
    {
      var hashvalue := hashfn(k);
      var i := hashvalue % tablelength;
      var prev: Entry?<K, V> := null;
      var e := table[i];
      ghost var j := 0;
      assert Linked(table[i], chains[i]);
      while e != null
        invariant j <= |chains[i]| && e == Nth(chains[i], j)
        invariant prev == if j == 0 then null else chains[i][j - 1]
        invariant forall b | 0 <= b < j :: chains[i][b].k != k
        decreases |chains[i]| - j
      {
        if hashvalue == e.h && k == e.k {
          RemoveAt(i, j, prev, e);
          return Some(e.v);
        }
        prev := e;
        e := e.next;
        j := j + 1;
      }
      assert k in index ==> AtHome(index[k], chains);
      r := None;
    }

    /** Takes the entry at position `j` of bucket `i` out of its chain, and uncounts it. */
    method RemoveAt(i: nat, ghost j: nat, prev: Entry?<K, V>, e: Entry<K, V>)
      requires Valid() && i < tablelength && j < |chains[i]| && e == chains[i][j]
      requires prev == if j == 0 then null else chains[i][j - 1]
      modifies this, table, entries
      ensures Valid() && Repr == old(Repr) - {e}
      ensures unchanged(`tablelength) && unchanged(`table)
      ensures chains == old(chains)[i := Without(old(chains[i]), j)]
      ensures entries == old(entries) - {e} && Contents() == old(Contents()) - {e.k}
      ensures e.k in old(Contents()) && old(Contents())[e.k] == e.v
      ensures e.next == old(e.next)
    {
      ValuesRemove(index, e.k);
      entrycount := entrycount - 1;
      Unlink(i, j, prev, e);
    }

    method Unlink(i: nat, ghost j: nat, prev: Entry?<K, V>, e: Entry<K, V>)
      requires Shape() && i < tablelength && j < |chains[i]| && e == chains[i][j]
      requires prev == if j == 0 then null else chains[i][j - 1]
      modifies this, table, entries
      ensures Shape() && Repr == old(Repr) - {e}
      ensures unchanged(`entrycount) && unchanged(`loadlimit) && unchanged(`primeindex) && unchanged(`tablelength)
      ensures unchanged(`table)
      ensures chains == old(chains)[i := Without(old(chains[i]), j)]
      ensures entries == old(entries) - {e} && e in old(entries) && index == old(index) - {e.k}
      ensures e.next == old(e.next)
    {
      hide LoadLimit, Chained;
      Splice(i, j, prev, e);
      chains, entries, index, Repr := chains[i := Without(chains[i], j)], entries - {e}, index - {e.k}, Repr - {e};
    }

    method Splice(i: nat, ghost j: nat, prev: Entry?<K, V>, e: Entry<K, V>)
      requires Holds(table, chains, entries) && i < |chains| && j < |chains[i]| && e == chains[i][j]
      requires prev == if j == 0 then null else chains[i][j - 1]
      modifies table, entries
      ensures unchanged(this) && e.next == old(e.next)
      ensures Holds(table, chains[i := Without(chains[i], j)], entries - {e})
    {
      ghost var c, c' := chains[i], Without(chains[i], j);
      BucketedRemove(chains, entries, i, j);
      assert Linked(table[i], c) && Distinct(c);
      assert forall b | 0 <= b < |chains| && b != i :: Linked(table[b], chains[b]);
      if prev == null {
        LinkedTail(table[i], c);
        assert c' == c[1..];
        table[i] := e.next;
      } else {
        assert forall b | 0 <= b < |chains| && b != i :: prev !in chains[b];
        prev.next := e.next;
        Bypassed(table[i], c, j);
      }
      assert forall b | 0 <= b < |chains| && b != i :: Linked(table[b], chains[b]);
    }
  }

  /** `create_hashtable`: no table above the largest size. */
  method CreateHashtable<K(==), V>(minsize: nat, hashfn: K -> nat) returns (h: Hashtable?<K, V>)
    ensures h == null <==> minsize > MAX_SIZE
    ensures h != null ==> h.Valid() && fresh(h) && fresh(h.Repr) && h.Contents() == map[] && h.hashfn == hashfn
  {
    if minsize > MAX_SIZE { return null; }
    h := new Hashtable(minsize, hashfn);
  }

  lemma {:induction false} UlpIsSmall(n: nat)
    ensures Ulp(n) == 1 || Ulp(n) * 0x80_0000 <= n
  {
    if n >= 0x100_0000 { UlpIsSmall(n / 2); }
  }

  /** Rounding is off by no more than one part in 2^24. */
  lemma SingleIsNear(n: nat)
    ensures 0x100_0000 * (n - Single(n)) <= n && 0x100_0000 * (Single(n) - n) <= n
  {
    var u := Ulp(n);
    UlpIsSmall(n);
    Nearest(n, u, n / u, n % u);
  }

  lemma Nearest(n: nat, u: nat, q: nat, r: nat)
    requires u > 0 && n == q * u + r && r < u && (u == 1 || u * 0x80_0000 <= n)
    ensures (q + 1) * u - n == u - r && n - q * u == r
    ensures 2 * r >= u ==> 0x100_0000 * ((q + 1) * u - n) <= n
    ensures 2 * r <= u ==> 0x100_0000 * (n - q * u) <= n
  {
    assert (q + 1) * u == q * u + u;
  }

  /** The load limit is 65 percent of the size, rounded up, but for what is lost in single
      precision: one part in a million. */
  lemma LimitIsLoad(size: nat)
    ensures 100 * LoadLimit(size) * 1_000_000 >= 65 * size * 999_999
    ensures 100 * LoadLimit(size) * 1_000_000 <= 65 * size * 1_000_001 + 100_000_000
  {
    hide Single;
    SingleIsNear(size);
    SingleIsNear(Single(size) * LOAD_FACTOR);
  }

  /** Half as many buckets again, and the limit is higher. */
  lemma LimitsGrow(a: nat, b: nat)
    requires 50 <= a && 3 * a <= 2 * b
    ensures LoadLimit(a) < LoadLimit(b)
  {
    hide Single;
    SingleIsNear(a);
    SingleIsNear(b);
    SingleIsNear(Single(a) * LOAD_FACTOR);
    SingleIsNear(Single(b) * LOAD_FACTOR);
    var p, q := Single(Single(a) * LOAD_FACTOR), Single(Single(b) * LOAD_FACTOR);
    assert p + 0x100_0000 <= q;
  }

  lemma {:induction false} PrimesGrow(i: nat, j: nat)
    requires i <= j < |PRIMES|
    ensures 50 <= PRIMES[i] <= PRIMES[j]
    ensures i < j ==> LoadLimit(PRIMES[i]) < LoadLimit(PRIMES[j])
    decreases j
  {
    hide LoadLimit;
    assert forall k | 0 <= k < |PRIMES| - 1 :: 50 <= PRIMES[k] && 3 * PRIMES[k] <= 2 * PRIMES[k + 1];
    if i < j {
      PrimesGrow(i, j - 1);
      LimitsGrow(PRIMES[j - 1], PRIMES[j]);
    }
  }
}
