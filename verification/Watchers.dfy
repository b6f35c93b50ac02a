/** zk_hashtable.c: the tables of active watchers, and the lists they deliver. */
module Watchers {
  import opened Common
  import opened Hashtables
  import opened HashtableItr
  import opened WatchRegistry

  /** Which table a watcher list hangs in, and under which path. */
  datatype Slot = Delivery | Held(kind: Kind, path: Path)

  class WatcherList {
    ghost const slot: Slot
    var items: seq<Watcher>

    constructor (items: seq<Watcher>, ghost slot: Slot)
      ensures this.items == items && this.slot == slot
    {
      this.items, this.slot := items, slot;
    }

    /** `search_watcher`: two watchers are equal when function and context are. */
    method Search(w: Watcher) returns (found: bool)
      ensures found == (w in items)
    {
      var i := 0;
      while i < |items|
        invariant i <= |items| && w !in items[..i]
      {
        if items[i] == w { return true; }
        i := i + 1;
      }
      found := false;
    }

    /** `add_to_list` */
    method Add(w: Watcher) returns (res: bool)
      modifies this
      ensures items == if w in old(items) then old(items) else [w] + old(items)
      ensures items == Added(old(items), w) && res == (w !in old(items))
    {
      var found := Search(w);
      if !found { items := [w] + items; }
      res := !found;
    }

    /** `copy_watchers`, into this list */
    method Copy(from: WatcherList)
      requires from != this
      modifies this
      ensures items == Merged(old(items), from.items, |from.items|)
    {
      hide Added;
      var i := 0;
      while i < |from.items|
        invariant i <= |from.items| && from.items == old(from.items)
        invariant items == Merged(old(items), from.items, i)
      {
        var _ := Add(from.items[i]);
        i := i + 1;
      }
    }
  }

  const BUCKETS := 32

  class ZkHashtable {
    const ht: Hashtable<Path, WatcherList>
    ghost const kind: Kind
    ghost var lists: set<WatcherList>
    ghost var Repr: set<object>

    ghost predicate Keeps(p: Path)
      requires p in ht.Contents()
      reads `lists, ht, lists
    {
      var l := ht.Contents()[p];
      l in lists && l.slot == Held(kind, p) && l.items != [] && Distinct(l.items)
    }

    /** Everything but the footprint. */
    ghost predicate Sound()
      reads `lists, ht, ht.Repr, lists
    {
      && ht.Valid() && lists !! ht.Repr && this !in ht.Repr
      && forall p {:trigger Keeps(p)} | p in ht.Contents() :: Keeps(p)
    }

    ghost predicate Valid()
      reads this, Repr
    {
      && this in Repr && ht in Repr && ht.Repr <= Repr && lists <= Repr
      && Sound()
    }

    /** The table as a value: the watchers at each path, latest first. */
    ghost function Table(): Table
      requires Sound()
      reads `lists, ht, ht.Repr, lists
    {
      map p | p in ht.Contents() :: Items(p)
    }

    ghost function Items(p: Path): seq<Watcher>
      requires Sound() && p in ht.Contents()
      reads `lists, ht, ht.Repr, lists
    {
      assert Keeps(p);
      ht.Contents()[p].items
    }

    constructor (ghost kind: Kind)
      ensures Valid() && fresh(Repr) && Table() == map[] && this.kind == kind
    {
      hide Hashtable.Valid;
      this.kind, lists := kind, {};
      ht := new Hashtable(BUCKETS, StringHash);
      new;
      Repr := {this, ht} + ht.Repr;
    }

    /** `do_insert_watcher_object` */
    method Insert(path: Path, w: Watcher)
      requires Valid()
      modifies Repr
      ensures Valid() && fresh(Repr - old(Repr))
      ensures Table() == Inserted(old(Table()), path, w)
    {
      hide Sound, Table, Inserted;
      Put(path, w);
      Repr := Repr + ht.Repr + lists;
    }

    method Put(path: Path, w: Watcher)
      requires Sound()
      modifies this, ht, ht.Repr, lists
      ensures Sound() && fresh(ht.Repr - old(ht.Repr)) && fresh(lists - old(lists)) && Repr == old(Repr)
      ensures this !in ht.Repr
      ensures Table() == Inserted(old(Table()), path, w)
    {
      hide Hashtable.Valid, Hashtable.Contents, Keeps, Inserted, Table;
      var wl := ht.Search(path);
      if wl.None? { InsertNew(path, w); } else { InsertMore(path, w, wl.value); }
    }

    method InsertNew(path: Path, w: Watcher)
      requires Sound() && path !in ht.Contents()
      modifies this, ht, ht.Repr
      ensures Sound() && fresh(ht.Repr - old(ht.Repr)) && fresh(lists - old(lists)) && Repr == old(Repr)
      ensures this !in ht.Repr
      ensures Table() == Inserted(old(Table()), path, w)
    {
      hide Hashtable.Valid, Hashtable.Contents;
      ghost var l := Attach(path, w);
      forall p | p in ht.Contents() ensures Keeps(p) {
        assert p != path ==> old(Keeps(p));
      }
    }

    method Attach(path: Path, w: Watcher) returns (ghost l: WatcherList)
      requires Sound() && path !in ht.Contents()
      modifies this, ht, ht.Repr
      ensures ht.Valid() && lists !! ht.Repr && this !in ht.Repr && fresh(ht.Repr - old(ht.Repr))
      ensures ht.Contents() == old(ht.Contents())[path := l] && lists == old(lists) + {l} && Repr == old(Repr)
      ensures fresh(l) && l.items == [w] && l.slot == Held(kind, path)
      ensures forall x | x in old(lists) :: unchanged(x)
    {
      hide Hashtable.Valid, Hashtable.Contents, Keeps;
      var head := new WatcherList([w], Held(kind, path));
      ht.Insert(path, head);
      l := head;
      lists := lists + {l};
    }

    method InsertMore(path: Path, w: Watcher, wl: WatcherList)
      requires Sound() && path in ht.Contents() && ht.Contents()[path] == wl
      modifies lists
      ensures Sound()
      ensures Table() == Inserted(old(Table()), path, w)
    {
      hide Hashtable.Valid;
      assert Keeps(path);
      var _ := wl.Add(w);
      forall p | p in ht.Contents() ensures Keeps(p) {
        assert old(Keeps(p));
      }
    }

    /** `add_for_event`: the watchers at a path leave the table for a delivery list. */
    method AddForEvent(path: Path, list: WatcherList)
      requires Valid() && list !in Repr
      modifies Repr, list
      ensures Valid() && Repr == old(Repr)
      ensures Table() == old(Table()) - {path}
      ensures list.items == MovedTo(old(list.items), old(Table()), path)
    {
      hide Hashtable.Valid;
      assert path in ht.Contents() ==> Keeps(path);
      var wl := ht.Remove(path);
      forall p | p in ht.Contents() ensures Keeps(p) {
        assert old(Keeps(p));
      }
      if wl.Some? { list.Copy(wl.value); }
    }

    /** `collect_keys` */
    method CollectKeys() returns (keys: seq<Path>)
      requires Valid()
      ensures Enumerates(keys, Table()) && |keys| == ht.entrycount
    {
      hide Hashtable.Valid, Iterator.Valid, Iterator.Coming, Iterator.Visited, Flat, Enumerates, Table;
      var count := ht.entrycount;
      keys := [];
      ghost var all := Flat(ht.chains, 0, |ht.chains|);
      CountIsTotalLength(ht);
      var it := new Iterator(ht);
      it.Fresh(all);
      var i := 0;
      while i < count
        invariant it.Valid() && i <= count == |all|
        invariant it.Coming() == all[i..]
        invariant keys == Keys(all, i)
      {
        it.Current(all, i);
        keys := keys + [it.e.k];
        var _ := it.Pass(all, i);
        i := i + 1;
      }
      KeysEnumerate();
    }

    lemma KeysEnumerate()
      requires Valid()
      ensures var all := Flat(ht.chains, 0, |ht.chains|); Enumerates(Keys(all, |all|), Table())
    {
      KeysExact(ht);
    }

    lemma GatheredHere(to: seq<Watcher>)
      requires Valid() && Distinct(to)
      ensures var all := Flat(ht.chains, 0, |ht.chains|);
              var l := Gathered(to, Table(), Keys(all, |all|), |all|);
              Distinct(l) && forall w :: w in l <==> w in to || Anywhere(Table(), w)
    {
      KeysExact(ht);
      var all := Flat(ht.chains, 0, |ht.chains|);
      GatheredAll(to, Table(), Keys(all, |all|));
    }

    /** `copy_table`: every watcher of the table joins the list, once; the table keeps
        them all. */
    method CopyTable(to: WatcherList)
      requires Valid() && to !in Repr && Distinct(to.items)
      modifies to
      ensures Distinct(to.items)
      ensures forall w :: w in to.items <==> w in old(to.items) || Anywhere(Table(), w)
    {
      hide Hashtable.Valid, Iterator.Valid, Iterator.Coming, Iterator.Visited, Flat, Table;
      ghost var t, all := Table(), Flat(ht.chains, 0, |ht.chains|);
      ghost var keys := Keys(all, |all|);
      CountIsTotalLength(ht);
      GatheredHere(to.items);
      if ht.entrycount == 0 { return; }
      var it := new Iterator(ht);
      it.Fresh(all);
      ghost var n := 0;
      var hasMore := true;
      while hasMore
        invariant it.Valid() && Valid() && Table() == t
        invariant n <= |all| && it.Coming() == all[n..] && hasMore == (n < |all|)
        invariant to.items == Gathered(old(to.items), t, keys, n)
        decreases |all| - n
      {
        hasMore := CopyNext(it, to, all, n);
        n := n + 1;
      }
    }

    method CopyNext(it: Iterator<Path, WatcherList>, to: WatcherList, ghost all: seq<Entry<Path, WatcherList>>,
                    ghost n: nat)
      returns (hasMore: bool)
      requires Valid() && to !in Repr && all == Flat(ht.chains, 0, |ht.chains|)
      requires it.h == ht && it.Valid() && n < |all| && it.Coming() == all[n..]
      modifies it, to
      ensures Valid() && Table() == old(Table()) && to.items == MovedTo(old(to.items), Table(), all[n].k)
      ensures it.Valid() && it.Coming() == all[n + 1..] && hasMore == (n + 1 < |all|)
    {
      hide Hashtable.Valid, Iterator.Valid, Iterator.Coming, Iterator.Visited, Flat, Table, MovedTo;
      it.Current(all, n);
      ValueOf(ht, all, n);
      CopyAt(all[n].k, it.e.v, to);
      hasMore := it.Pass(all, n);
    }

    method CopyAt(ghost p: Path, wl: WatcherList, to: WatcherList)
      requires Valid() && to !in Repr
      requires p in ht.Contents() && wl == ht.Contents()[p]
      modifies to
      ensures Valid() && Table() == old(Table()) && to.items == MovedTo(old(to.items), Table(), p)
    {
      hide Hashtable.Valid;
      assert Keeps(p);
      to.Copy(wl);
      forall q | q in ht.Contents() ensures Keeps(q) {
        assert old(Keeps(q));
      }
    }

    /** `do_clean_hashtable` */
    method Clean()
      requires Valid()
      modifies Repr
      ensures Valid() && Repr == old(Repr) && Table() == map[]
    {
      if ht.entrycount == 0 {
        CountIsTotalLength(ht);
        assert ht.Contents().Keys == {};
        return;
      }
      SweepAll(ht);
    }
  }

  /** The watcher part of the handle: the default watcher and the three tables. */
  class ActiveWatchers {
    var global: Watcher
    const node: ZkHashtable
    const exist: ZkHashtable
    const child: ZkHashtable

    ghost var Repr: set<object>

    ghost predicate Valid()
      reads this, Repr
    {
      && node in Repr && node.Repr <= Repr && exist in Repr && exist.Repr <= Repr && child in Repr && child.Repr <= Repr
      && this in Repr && this !in node.Repr && this !in exist.Repr && this !in child.Repr
      && node.Repr !! exist.Repr && exist.Repr !! child.Repr && child.Repr !! node.Repr
      && node.Valid() && exist.Valid() && child.Valid()
    }

    ghost function Active(): Registry
      requires Valid()
      reads this, Repr
    {
      Registry(node.Table(), exist.Table(), child.Table())
    }

    constructor (global: Watcher)
      ensures Valid() && fresh(Repr) && Active() == Registry(map[], map[], map[]) && this.global == global
    {
      hide ZkHashtable.Sound, ZkHashtable.Table;
      this.global := global;
      node := new ZkHashtable(Node);
      exist := new ZkHashtable(Exist);
      child := new ZkHashtable(Child);
      new;
      Repr := {this} + node.Repr + exist.Repr + child.Repr;
    }

    /** `activateWatcher` */
    method Activate(reg: Registration, rc: int)
      requires Valid()
      modifies Repr
      ensures Valid() && fresh(Repr - old(Repr))
      ensures Active() == Activated(old(Active()), reg, rc)
    {
      hide ZkHashtable.Sound, ZkHashtable.Table;
      var kind := ResultChecker(reg.checker, rc);
      if kind == Some(Node) { node.Insert(reg.path, reg.watcher); }
      if kind == Some(Exist) { exist.Insert(reg.path, reg.watcher); }
      if kind == Some(Child) { child.Insert(reg.path, reg.watcher); }
      Repr := Repr + node.Repr + exist.Repr + child.Repr;
    }

    /** The paths of the three tables. */
    method CollectPaths(ghost r: Registry) returns (d: seq<Path>, e: seq<Path>, c: seq<Path>)
      requires Valid() && Active() == r
      ensures Enumerates(d, r.node) && Enumerates(e, r.exist) && Enumerates(c, r.child)
    {
      hide ZkHashtable.Sound, ZkHashtable.Table;
      d := node.CollectKeys();
      e := exist.CollectKeys();
      c := child.CollectKeys();
    }

    /** `collectWatchers`.  A node event takes exactly the watchers due for the path out of
        the tables, and clears nothing else; a session event takes nothing out, and goes to
        the default watcher and every stored one.  Either way each watcher comes once. */
    method CollectWatchers(event: int, path: Path) returns (list: WatcherList)
      requires Valid()
      modifies Repr
      ensures Valid() && Repr == old(Repr) && fresh(list) && global == old(global) && Distinct(list.items)
      ensures event == SESSION_EVENT ==>
                && Active() == old(Active())
                && forall w :: w in list.items <==> w == global || Stored(Active(), w)
      ensures event != SESSION_EVENT ==>
                && Active() == Fired(old(Active()), event, path)
                && forall w :: w in list.items <==> Due(old(Active()), event, path, w)
    {
      hide ZkHashtable.Sound, ZkHashtable.Table, Fired, Delivered, Due;
      list := new WatcherList([], Delivery);
      if event == SESSION_EVENT {
        var _ := list.Add(global);
        CollectSession(list);
      } else {
        DeliveredExact(Active(), event, path);
        CollectNode(event, path, list);
      }
    }

    method CollectSession(list: WatcherList)
      requires Valid() && list !in Repr && Distinct(list.items)
      modifies list
      ensures Valid() && Active() == old(Active()) && Distinct(list.items)
      ensures forall w :: w in list.items <==> w in old(list.items) || Stored(Active(), w)
    {
      hide ZkHashtable.Sound, ZkHashtable.Table, Anywhere;
      node.CopyTable(list);
      exist.CopyTable(list);
      child.CopyTable(list);
    }

    method CollectNode(event: int, path: Path, list: WatcherList)
      requires Valid() && list !in Repr && list.items == [] && event != SESSION_EVENT
      modifies Repr, list
      ensures Valid() && Repr == old(Repr) && global == old(global)
      ensures Active() == Fired(old(Active()), event, path)
      ensures list.items == Delivered(old(Active()), event, path)
    {
      hide ZkHashtable.Sound, ZkHashtable.Table, MovedTo;
      if event == CREATED_EVENT || event == CHANGED_EVENT {
        node.AddForEvent(path, list);
        exist.AddForEvent(path, list);
      } else if event == CHILD_EVENT {
        child.AddForEvent(path, list);
      } else if event == DELETED_EVENT {
        node.AddForEvent(path, list);
        exist.AddForEvent(path, list);
        child.AddForEvent(path, list);
      }
    }
  }
}
