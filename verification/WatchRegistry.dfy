/** The watch registry as values: three tables from paths to lists of watchers, what arms
    a watch, and what clears it. */
module WatchRegistry {
  import opened Codes
  import opened Common
  import opened Bytes
  import opened Hashtables

  type Path = seq<byte>

  /** A watcher function and its context, both as addresses. */
  datatype Watcher = Watcher(fn: int, context: int)

  type Table = map<Path, seq<Watcher>>

  datatype Kind = Node | Exist | Child

  datatype Registry = Registry(node: Table, exist: Table, child: Table) {
    function Of(kind: Kind): Table {
      match kind
      case Node => node
      case Exist => exist
      case Child => child
    }

    function With(kind: Kind, t: Table): Registry {
      match kind
      case Node => this.(node := t)
      case Exist => this.(exist := t)
      case Child => this.(child := t)
    }

    predicate Holds(kind: Kind, path: Path, w: Watcher) {
      path in Of(kind) && w in Of(kind)[path]
    }
  }

  /** djb2 over the bytes of a path, as signed chars, in 32-bit arithmetic. */
  function StringHashUpTo(path: Path, n: nat): nat
    requires n <= |path|
  {
    if n == 0 then 5381 else
      var c: int := path[n - 1];
      (StringHashUpTo(path, n - 1) * 33 + if c < 128 then c else c - 256) % 0x1_0000_0000
  }

  function StringHash(path: Path): nat { StringHashUpTo(path, |path|) }

  function Added(l: seq<Watcher>, w: Watcher): seq<Watcher> {
    if w in l then l else [w] + l
  }

  /** `to`, with the first `n` watchers of `from` added one by one. */
  function Merged(to: seq<Watcher>, from: seq<Watcher>, n: nat): seq<Watcher>
    requires n <= |from|
  {
    if n == 0 then to else Added(Merged(to, from, n - 1), from[n - 1])
  }

  lemma {:induction false} MergedIsUnion(to: seq<Watcher>, from: seq<Watcher>, n: nat)
    requires n <= |from| && Distinct(to)
    ensures Distinct(Merged(to, from, n))
    ensures forall w :: w in Merged(to, from, n) <==> w in to || w in from[..n]
  {
    if n > 0 {
      MergedIsUnion(to, from, n - 1);
      assert from[..n] == from[..n - 1] + [from[n - 1]];
    }
  }

  /** New watchers are each put in front: copied to a list, they come out in reverse. */
  lemma {:induction false} MergedReverses(to: seq<Watcher>, from: seq<Watcher>, n: nat)
    requires n <= |from| && Distinct(from) && forall w | w in from :: w !in to
    ensures Merged(to, from, n) == Reverse(from[..n]) + to
  {
    hide Reverse;
    if n > 0 {
      MergedReverses(to, from, n - 1);
      var w, back := from[n - 1], Reverse(from[..n - 1]);
      forall k | 0 <= k < |back| ensures back[k] != w {
        assert back[k] == from[n - 2 - k];
      }
      assert Reverse(from[..n]) == [w] + back;
    }
  }

  function Inserted(t: Table, path: Path, w: Watcher): Table {
    t[path := if path in t then Added(t[path], w) else [w]]
  }

  /** `to`, with what the table holds for the path added. */
  function MovedTo(to: seq<Watcher>, t: Table, path: Path): seq<Watcher> {
    if path in t then Merged(to, t[path], |t[path]|) else to
  }

  /** `keys` lists the paths of a table, each once. */
  ghost predicate Enumerates(keys: seq<Path>, t: Table) {
    Distinct(keys) && forall p :: p in keys <==> p in t
  }

  ghost predicate Anywhere(t: Table, w: Watcher) { exists p :: p in t && w in t[p] }

  /** `to`, with what the table holds for the first `n` keys added. */
  function Gathered(to: seq<Watcher>, t: Table, keys: seq<Path>, n: nat): seq<Watcher>
    requires n <= |keys|
  {
    if n == 0 then to else MovedTo(Gathered(to, t, keys, n - 1), t, keys[n - 1])
  }

  lemma {:induction false} GatheredIsUnion(to: seq<Watcher>, t: Table, keys: seq<Path>, n: nat)
    requires n <= |keys| && Distinct(to)
    ensures Distinct(Gathered(to, t, keys, n))
    ensures forall w :: w in Gathered(to, t, keys, n) <==>
                          w in to || exists j :: 0 <= j < n && keys[j] in t && w in t[keys[j]]
  {
    if n > 0 {
      GatheredIsUnion(to, t, keys, n - 1);
      var l, k := Gathered(to, t, keys, n - 1), keys[n - 1];
      if k in t {
        MergedIsUnion(l, t[k], |t[k]|);
        assert t[k][..|t[k]|] == t[k];
      }
    }
  }

  lemma GatheredAll(to: seq<Watcher>, t: Table, keys: seq<Path>)
    requires Distinct(to) && forall p | p in t :: p in keys
    ensures Distinct(Gathered(to, t, keys, |keys|))
    ensures forall w :: w in Gathered(to, t, keys, |keys|) <==> w in to || Anywhere(t, w)
  {
    GatheredIsUnion(to, t, keys, |keys|);
    forall w | Anywhere(t, w) ensures w in Gathered(to, t, keys, |keys|) {
      var p :| p in t && w in t[p];
      var j :| 0 <= j < |keys| && keys[j] == p;
    }
  }

  // ---------------------------------------------------------------- arming and clearing

  const SESSION_EVENT := -1
  const CREATED_EVENT := 1
  const DELETED_EVENT := 2
  const CHANGED_EVENT := 3
  const CHILD_EVENT := 4

  datatype Checker = ExistsChecker | DataChecker | ChildChecker

  datatype Registration = Registration(checker: Checker, path: Path, watcher: Watcher)

  /** The table a reply code puts the watch into, if any. */
  function ResultChecker(checker: Checker, rc: int): Option<Kind> {
    match checker
    case ExistsChecker => if rc == ZOK then Some(Node) else if rc == ZNONODE then Some(Exist) else None
    case DataChecker => if rc == ZOK then Some(Node) else None
    case ChildChecker => if rc == ZOK then Some(Child) else None
  }

  /** The tables a node event takes the path's watchers from. */
  predicate Clears(event: int, kind: Kind) {
    match kind
    case Node => event == CREATED_EVENT || event == CHANGED_EVENT || event == DELETED_EVENT
    case Exist => event == CREATED_EVENT || event == CHANGED_EVENT || event == DELETED_EVENT
    case Child => event == CHILD_EVENT || event == DELETED_EVENT
  }

  function Activated(r: Registry, reg: Registration, rc: int): Registry {
    match ResultChecker(reg.checker, rc)
    case None => r
    case Some(kind) => r.With(kind, Inserted(r.Of(kind), reg.path, reg.watcher))
  }

  function Fired(r: Registry, event: int, path: Path): Registry {
    Registry(if Clears(event, Node) then r.node - {path} else r.node,
             if Clears(event, Exist) then r.exist - {path} else r.exist,
             if Clears(event, Child) then r.child - {path} else r.child)
  }

  /** What a node event delivers: the watchers stored for the path in the tables it clears. */
  ghost predicate Due(r: Registry, event: int, path: Path, w: Watcher) {
    exists kind: Kind :: Clears(event, kind) && r.Holds(kind, path, w)
  }

  ghost predicate Stored(r: Registry, w: Watcher) {
    Anywhere(r.node, w) || Anywhere(r.exist, w) || Anywhere(r.child, w)
  }

  /** The delivery list of a node event, in its order. */
  function Delivered(r: Registry, event: int, path: Path): seq<Watcher> {
    var none := [];
    var nodes := if Clears(event, Node) then MovedTo(none, r.node, path) else none;
    var existing := if Clears(event, Exist) then MovedTo(nodes, r.exist, path) else nodes;
    if Clears(event, Child) then MovedTo(existing, r.child, path) else existing
  }

  lemma MovedIsUnion(to: seq<Watcher>, t: Table, path: Path)
    requires Distinct(to)
    ensures Distinct(MovedTo(to, t, path))
    ensures forall w :: w in MovedTo(to, t, path) <==> w in to || (path in t && w in t[path])
  {
    if path in t {
      MergedIsUnion(to, t[path], |t[path]|);
      assert t[path][..|t[path]|] == t[path];
    }
  }

  /** The delivery list is exactly what is due, each watcher once. */
  lemma DeliveredExact(r: Registry, event: int, path: Path)
    ensures Distinct(Delivered(r, event, path))
    ensures forall w :: w in Delivered(r, event, path) <==> Due(r, event, path, w)
  {
    var none: seq<Watcher> := [];
    MovedIsUnion(none, r.node, path);
    var nodes := if Clears(event, Node) then MovedTo(none, r.node, path) else none;
    MovedIsUnion(nodes, r.exist, path);
    var existing := if Clears(event, Exist) then MovedTo(nodes, r.exist, path) else nodes;
    MovedIsUnion(existing, r.child, path);
    forall w ensures w in Delivered(r, event, path) <==> Due(r, event, path, w) {
      assert r.Holds(Node, path, w) <==> path in r.node && w in r.node[path];
      assert r.Holds(Exist, path, w) <==> path in r.exist && w in r.exist[path];
      assert r.Holds(Child, path, w) <==> path in r.child && w in r.child[path];
    }
  }

  // ---------------------------------------------------------------- histories

  /** What happens to the registry: a reply with code `rc` completes a request that carried
      a watch, or an event arrives. */
  datatype Happening = Completed(reg: Registration, rc: int) | Notified(event: int, path: Path)

  function Happened(r: Registry, h: Happening): Registry {
    match h
    case Completed(reg, rc) => Activated(r, reg, rc)
    case Notified(event, path) => Fired(r, event, path)
  }

  /** The registry after the first `n` happenings. */
  function Replay(hs: seq<Happening>, n: nat): Registry
    requires n <= |hs|
  {
    if n == 0 then Registry(map[], map[], map[]) else Happened(Replay(hs, n - 1), hs[n - 1])
  }

  /** `h` arms watcher `w` at `path` in the table `kind`. */
  predicate Arms(h: Happening, kind: Kind, path: Path, w: Watcher) {
    h.Completed? && ResultChecker(h.reg.checker, h.rc) == Some(kind) && h.reg.path == path && h.reg.watcher == w
  }

  predicate Disarms(h: Happening, kind: Kind, path: Path) {
    h.Notified? && Clears(h.event, kind) && h.path == path
  }

  /** Armed by one of the first `n` happenings, and by none of the later ones disarmed. */
  ghost predicate Outstanding(hs: seq<Happening>, n: nat, kind: Kind, path: Path, w: Watcher)
    requires n <= |hs|
  {
    exists i :: 0 <= i < n && Arms(hs[i], kind, path, w) && forall j | i < j < n :: !Disarms(hs[j], kind, path)
  }

  /** One happening decides by itself, or leaves the matter as it was. */
  lemma OneStep(r: Registry, h: Happening, kind: Kind, path: Path, w: Watcher)
    ensures Happened(r, h).Holds(kind, path, w) <==>
              Arms(h, kind, path, w) || (r.Holds(kind, path, w) && !Disarms(h, kind, path))
  {
  }

  /** The registry equals its history. */
  lemma {:induction false} RegistryIsHistory(hs: seq<Happening>, n: nat, kind: Kind, path: Path, w: Watcher)
    requires n <= |hs|
    ensures Replay(hs, n).Holds(kind, path, w) <==> Outstanding(hs, n, kind, path, w)
  {
    if n > 0 {
      RegistryIsHistory(hs, n - 1, kind, path, w);
      OneStep(Replay(hs, n - 1), hs[n - 1], kind, path, w);
      if Outstanding(hs, n, kind, path, w) {
        var i :| 0 <= i < n && Arms(hs[i], kind, path, w) && forall j | i < j < n :: !Disarms(hs[j], kind, path);
        assert i < n - 1 ==> !Disarms(hs[n - 1], kind, path);
      }
    }
  }

  /** A watch fires at most once: after an event that delivers it, another event delivers
      it again only if a reply armed it in between. */
  lemma {:induction false} OneShot(hs: seq<Happening>, i: nat, n: nat, kind: Kind, path: Path, w: Watcher)
    requires i < n <= |hs| && Disarms(hs[i], kind, path) && Replay(hs, n).Holds(kind, path, w)
    ensures exists j :: i < j < n && Arms(hs[j], kind, path, w)
  {
    RegistryIsHistory(hs, n, kind, path, w);
    var j :| 0 <= j < n && Arms(hs[j], kind, path, w) && forall k | j < k < n :: !Disarms(hs[k], kind, path);
    assert j != i && !(j < i);
  }

  // ---------------------------------------------------------------- what a watch is for

  /** Where a reply puts the watch its request carried: after "ok", a watch on the data or on the
      existence of a node with the node watches, one on its children with the child watches;
      after "no node", a watch on its existence with the exist watches.  Any other code changes
      nothing. */
  lemma WhereArmed(r: Registry, reg: Registration, rc: int)
    ensures Activated(r, reg, rc) ==
              if rc == ZOK && reg.checker == ChildChecker then r.(child := Inserted(r.child, reg.path, reg.watcher))
              else if rc == ZOK then r.(node := Inserted(r.node, reg.path, reg.watcher))
              else if rc == ZNONODE && reg.checker == ExistsChecker then
                r.(exist := Inserted(r.exist, reg.path, reg.watcher))
              else r
  {
  }

  /** What an event on a node delivers, and what it leaves. */
  lemma WhatFires(r: Registry, event: int, path: Path, w: Watcher)
    ensures w in Delivered(r, event, path) <==>
              || (event in {CREATED_EVENT, DELETED_EVENT, CHANGED_EVENT}
                  && ((path in r.node && w in r.node[path]) || (path in r.exist && w in r.exist[path])))
              || (event in {CHILD_EVENT, DELETED_EVENT} && path in r.child && w in r.child[path])
    ensures Fired(r, event, path) ==
              if event == DELETED_EVENT then Registry(r.node - {path}, r.exist - {path}, r.child - {path})
              else if event in {CREATED_EVENT, CHANGED_EVENT} then
                r.(node := r.node - {path}, exist := r.exist - {path})
              else if event == CHILD_EVENT then r.(child := r.child - {path})
              else r
  {
    DeliveredExact(r, event, path);
    if w in Delivered(r, event, path) {
      var kind: Kind :| Clears(event, kind) && r.Holds(kind, path, w);
    }
    assert Clears(event, Node) ==> Due(r, event, path, w) || !r.Holds(Node, path, w);
    assert Clears(event, Exist) ==> Due(r, event, path, w) || !r.Holds(Exist, path, w);
    assert Clears(event, Child) ==> Due(r, event, path, w) || !r.Holds(Child, path, w);
  }

  const NO_WATCHES := Registry(map[], map[], map[])

  /** A watch set by a get is delivered by exactly the creation, the change and the deletion of
      its node, once, if the get has succeeded; otherwise by nothing. */
  lemma DataWatch(path: Path, w: Watcher, rc: int, event: int, p: Path)
    ensures var r := Activated(NO_WATCHES, Registration(DataChecker, path, w), rc);
            var due := rc == ZOK && p == path && event in {CREATED_EVENT, CHANGED_EVENT, DELETED_EVENT};
            && r == (if rc == ZOK then NO_WATCHES.(node := map[path := [w]]) else NO_WATCHES)
            && Delivered(r, event, p) == (if due then [w] else [])
            && Fired(r, event, p) == if due then NO_WATCHES else r
  {
    LoneWatch(NO_WATCHES.(node := map[path := [w]]), path, w, event, p);
    WhereArmed(NO_WATCHES, Registration(DataChecker, path, w), rc);
    NothingFires(event, p);
  }

  /** The same for a watch set by an exists, if there is such a node, or definitely none. */
  lemma ExistsWatch(path: Path, w: Watcher, rc: int, event: int, p: Path)
    ensures var r := Activated(NO_WATCHES, Registration(ExistsChecker, path, w), rc);
            var due := rc in {ZOK, ZNONODE} && p == path && event in {CREATED_EVENT, CHANGED_EVENT, DELETED_EVENT};
            && r == (if rc == ZOK then NO_WATCHES.(node := map[path := [w]])
                     else if rc == ZNONODE then NO_WATCHES.(exist := map[path := [w]]) else NO_WATCHES)
            && Delivered(r, event, p) == (if due then [w] else [])
            && Fired(r, event, p) == if due then NO_WATCHES else r
  {
    LoneWatch(NO_WATCHES.(node := map[path := [w]]), path, w, event, p);
    LoneWatch(NO_WATCHES.(exist := map[path := [w]]), path, w, event, p);
    WhereArmed(NO_WATCHES, Registration(ExistsChecker, path, w), rc);
    NothingFires(event, p);
  }

  /** A watch set by a get_children is delivered by exactly a change of the children and the
      deletion of the node. */
  lemma ChildrenWatch(path: Path, w: Watcher, rc: int, event: int, p: Path)
    ensures var r := Activated(NO_WATCHES, Registration(ChildChecker, path, w), rc);
            var due := rc == ZOK && p == path && event in {CHILD_EVENT, DELETED_EVENT};
            && r == (if rc == ZOK then NO_WATCHES.(child := map[path := [w]]) else NO_WATCHES)
            && Delivered(r, event, p) == (if due then [w] else [])
            && Fired(r, event, p) == if due then NO_WATCHES else r
  {
    LoneWatch(NO_WATCHES.(child := map[path := [w]]), path, w, event, p);
    WhereArmed(NO_WATCHES, Registration(ChildChecker, path, w), rc);
    NothingFires(event, p);
  }

  /** One stored watch, in one of the tables. */
  lemma LoneWatch(r: Registry, path: Path, w: Watcher, event: int, p: Path)
    requires r in {NO_WATCHES.(node := map[path := [w]]), NO_WATCHES.(exist := map[path := [w]]),
                   NO_WATCHES.(child := map[path := [w]])}
    ensures var due := p == path && if r.child == map[] then event in {CREATED_EVENT, CHANGED_EVENT, DELETED_EVENT}
                                    else event in {CHILD_EVENT, DELETED_EVENT};
            && Delivered(r, event, p) == (if due then [w] else [])
            && Fired(r, event, p) == if due then NO_WATCHES else r
  {
    assert Merged([], [w], 1) == [w] by { assert Merged([], [w], 0) == []; }
  }

  lemma NothingFires(event: int, p: Path)
    ensures Delivered(NO_WATCHES, event, p) == [] && Fired(NO_WATCHES, event, p) == NO_WATCHES
  {
  }

  /** Only a definite answer about the node arms a watch: a code other than "ok" and, for
      `exists`, "no node" changes nothing, and nothing else does but a watch that is there. */
  lemma FailureArmsNothing(r: Registry, reg: Registration, rc: int)
    ensures Activated(r, reg, rc) == r <==>
              if rc == ZOK then r.Holds(if reg.checker == ChildChecker then Child else Node, reg.path, reg.watcher)
              else rc == ZNONODE && reg.checker == ExistsChecker ==> r.Holds(Exist, reg.path, reg.watcher)
  {
    if ResultChecker(reg.checker, rc).Some? {
      var kind := ResultChecker(reg.checker, rc).value;
      OneStep(r, Completed(reg, rc), kind, reg.path, reg.watcher);
      if r.Holds(kind, reg.path, reg.watcher) {
        assert Inserted(r.Of(kind), reg.path, reg.watcher) == r.Of(kind);
      }
    }
  }
}
