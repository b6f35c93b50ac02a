/** The path language of the client: the scanner `isValidPath`, the grammar it
    recognises, and the chroot translation (`prepend_string`, `sub_string`). */
module Paths {
  import opened Common

  /** A C string: the bytes before the terminating NUL. */
  type CString = s: string | '\0' !in s

  const ZOO_SEQUENCE: bv32 := 2

  predicate Sequential(flags: bv32) { flags & ZOO_SEQUENCE != 0 }

  // ---------------------------------------------------------------- pieces

  /** One more byte after the pieces read so far. */
  function Extend(parts: seq<string>, c: char): (r: seq<string>)
    requires parts != []
    ensures r != []
  {
    if c == '/' then parts + [""] else parts[|parts| - 1 := Last(parts) + [c]]
  }

  /** The pieces of `s[lo..hi]` between slashes; there is always at least one. */
  function Pieces(s: string, lo: nat, hi: nat): (parts: seq<string>)
    requires lo <= hi <= |s|
    ensures parts != []
    decreases hi
  {
    if lo == hi then [""] else Extend(Pieces(s, lo, hi - 1), s[hi - 1])
  }

  /** The first `n` pieces put back together. */
  function Join(parts: seq<string>, n: nat): string
    requires 1 <= n <= |parts|
  {
    if n == 1 then parts[0] else Join(parts, n - 1) + "/" + parts[n - 1]
  }

  /** Two lists of pieces side by side: the meeting pieces become one. */
  function Fuse(x: seq<string>, y: seq<string>): (r: seq<string>)
    requires x != [] && y != []
    ensures |r| == |x| + |y| - 1
    ensures forall i | 0 <= i < |x| - 1 :: r[i] == x[i]
    ensures r[|x| - 1] == Last(x) + y[0]
    ensures forall i | 1 <= i < |y| :: r[|x| - 1 + i] == y[i]
  {
    x[|x| - 1 := Last(x) + y[0]] + y[1..]
  }

  lemma FuseExtend(x: seq<string>, y: seq<string>, c: char)
    requires x != [] && y != []
    ensures Extend(Fuse(x, y), c) == Fuse(x, Extend(y, c))
  {
    if |y| == 1 && c != '/' {
      assert Last(x) + y[0] + [c] == Last(x) + (y[0] + [c]);
    }
  }

  lemma {:induction false} PiecesConcat(s: string, lo: nat, mid: nat, hi: nat)
    requires lo <= mid <= hi <= |s|
    ensures Pieces(s, lo, hi) == Fuse(Pieces(s, lo, mid), Pieces(s, mid, hi))
    decreases hi
  {
    if mid == hi {
      assert Last(Pieces(s, lo, mid)) + "" == Last(Pieces(s, lo, mid));
    } else {
      PiecesConcat(s, lo, mid, hi - 1);
      FuseExtend(Pieces(s, lo, mid), Pieces(s, mid, hi - 1), s[hi - 1]);
    }
  }

  /** The pieces depend only on the bytes in the range. */
  lemma {:induction false} PiecesLocal(s: string, lo: nat, hi: nat, t: string, at: nat, end: nat)
    requires lo <= hi <= |s| && at <= end <= |t| && end - at == hi - lo
    requires forall k | lo <= k < hi :: s[k] == t[k - lo + at]
    ensures Pieces(s, lo, hi) == Pieces(t, at, end)
    decreases hi
  {
    if lo < hi {
      PiecesLocal(s, lo, hi - 1, t, at, end - 1);
      assert s[hi - 1] == t[hi - 1 - lo + at];
    }
  }

  /** `q` is `a` followed by `b`, seen byte by byte. */
  ghost predicate Follows(q: string, a: string, b: string) {
    && |q| == |a| + |b|
    && (forall k | 0 <= k < |a| :: q[k] == a[k])
    && (forall k | |a| <= k < |q| :: q[k] == b[k - |a|])
  }

  lemma ConcatFollows(a: string, b: string)
    ensures Follows(a + b, a, b)
  {
  }

  lemma FollowsPieces(q: string, a: string, b: string, lo: nat)
    requires Follows(q, a, b) && lo <= |a|
    ensures Pieces(q, lo, |a|) == Pieces(a, lo, |a|)
    ensures Pieces(q, |a|, |q|) == Pieces(b, 0, |b|)
    ensures Pieces(q, lo, |q|) == Fuse(Pieces(q, lo, |a|), Pieces(q, |a|, |q|))
  {
    PiecesLocal(q, lo, |a|, a, lo, |a|);
    PiecesLocal(q, |a|, |q|, b, 0, |b|);
    PiecesConcat(q, lo, |a|, |q|);
  }

  lemma {:induction false} PiecesSlashFree(s: string, lo: nat, hi: nat)
    requires lo <= hi <= |s|
    requires forall k | lo <= k < hi :: s[k] != '/'
    ensures Pieces(s, lo, hi) == [s[lo..hi]]
    decreases hi
  {
    if lo == hi {
      assert s[lo..hi] == "";
    } else {
      PiecesSlashFree(s, lo, hi - 1);
      assert s[lo..hi] == s[lo..hi - 1] + [s[hi - 1]];
    }
  }

  /** Cutting is sound: the pieces hold no slash and rejoin to the original. */
  lemma {:induction false} JoinPieces(s: string, lo: nat, hi: nat)
    requires lo <= hi <= |s|
    ensures var parts := Pieces(s, lo, hi);
            Join(parts, |parts|) == s[lo..hi] && forall i | 0 <= i < |parts| :: '/' !in parts[i]
    decreases hi
  {
    if lo < hi {
      JoinPieces(s, lo, hi - 1);
      var before, parts := Pieces(s, lo, hi - 1), Pieces(s, lo, hi);
      JoinLocal(before, parts, |before| - 1);
      assert s[lo..hi] == s[lo..hi - 1] + [s[hi - 1]];
      if s[hi - 1] == '/' {
        JoinLocal(before, parts, |before|);
        assert Join(parts, |parts|) == s[lo..hi - 1] + "/" + "";
      }
    }
  }

  lemma {:induction false} JoinLocal(x: seq<string>, y: seq<string>, n: nat)
    requires n <= |x| && n <= |y| && forall i | 0 <= i < n :: x[i] == y[i]
    ensures n >= 1 ==> Join(x, n) == Join(y, n)
  {
    if n > 1 { JoinLocal(x, y, n - 1); }
  }

  /** Cutting is the only way to read a string as slash-free pieces. */
  lemma {:induction false} PiecesJoin(parts: seq<string>, n: nat)
    requires 1 <= n <= |parts|
    requires forall i | 0 <= i < n :: '/' !in parts[i]
    ensures var s := Join(parts, n); Pieces(s, 0, |s|) == parts[..n]
  {
    var s := Join(parts, n);
    if n == 1 {
      PiecesSlashFree(s, 0, |s|);
      assert s[0..|s|] == s;
    } else {
      PiecesJoin(parts, n - 1);
      var t := Join(parts, n - 1);
      ConcatFollows(t, "/");
      ConcatFollows(t + "/", parts[n - 1]);
      OnePieceMore(t, t + "/", parts[n - 1], s);
      assert parts[..n - 1] + [parts[n - 1]] == parts[..n];
    }
  }

  /** A slash separates what is before it from what is after it. */
  lemma AroundSlash(s: string, lo: nat, m: nat, hi: nat)
    requires lo <= m < hi <= |s| && s[m] == '/'
    ensures Pieces(s, lo, hi) == Pieces(s, lo, m) + Pieces(s, m + 1, hi)
  {
    PiecesConcat(s, lo, m + 1, hi);
    FuseAfterSlash(Pieces(s, lo, m), Pieces(s, m + 1, hi));
  }

  lemma FuseAfterSlash(x: seq<string>, y: seq<string>)
    requires y != []
    ensures Fuse(x + [""], y) == x + y
  {
    assert "" + y[0] == y[0];
  }

  lemma OnePieceMore(t: string, head: string, leaf: string, s: string)
    requires '/' !in leaf && Follows(head, t, "/") && Follows(s, head, leaf)
    ensures Pieces(s, 0, |s|) == Pieces(t, 0, |t|) + [leaf]
  {
    hide Pieces;
    PiecesLocal(s, 0, |t|, t, 0, |t|);
    FollowsPieces(s, head, leaf, 0);
    PiecesSlashFree(leaf, 0, |leaf|);
    assert leaf[0..|leaf|] == leaf;
    AroundSlash(s, 0, |t|, |s|);
  }

  // ---------------------------------------------------------------- grammar

  predicate GoodComponent(c: string) { c != "" && c != "." && c != ".." }

  predicate Forbidden(c: char) { 0 < c as int < 0x1f }

  predicate Printable(s: string, lo: nat, hi: nat)
    requires lo <= hi <= |s|
  {
    forall i | lo <= i < hi :: !Forbidden(s[i])
  }

  /** Good components, except that the last one is free when the server will extend it. */
  predicate GoodPieces(parts: seq<string>, sequential: bool) {
    forall i | 0 <= i < |parts| :: (sequential && i == |parts| - 1) || GoodComponent(parts[i])
  }

  /** The grammar: the root, or a slash followed by good components separated by slashes. */
  predicate ValidPath(p: string, sequential: bool) {
    && p != ""
    && p[0] == '/'
    && (|p| == 1 || (Printable(p, 0, |p|) && GoodPieces(Pieces(p, 1, |p|), sequential)))
  }

  // ---------------------------------------------------------------- scanner

  /** Reading one past the end of a C string yields the NUL. */
  function At(p: string, i: nat): char
    requires i <= |p|
  {
    if i < |p| then p[i] else '\0'
  }

  /** The scanner walks the string once, looking one byte ahead and two behind. */
  method IsValidPath(path: Option<CString>, flags: bv32) returns (ok: bool)
    ensures ok == (path.Some? && ValidPath(path.value, flags & 2 != 0))
  {
    if path.None? { return false; }
    var p, sequential := path.value, Sequential(flags);
    var len := |p|;
    if len == 0 { return false; }
    if p[0] != '/' { return false; }
    if len == 1 { return true; }
    if p[len - 1] == '/' && !sequential {
      assert Last(Pieces(p, 1, len)) == "";
      return false;
    }
    var lastc := '/';
    var i := 1;
    while i < len
      invariant 1 <= i <= len
      invariant lastc == p[i - 1]
      invariant Scanned(p, i, sequential)
    {
      var c := p[i];
      if Stops(p, i, sequential) { ScanReject(p, i, sequential); }
      else { ScanStep(p, i, sequential); }
      if c == '/' && lastc == '/' {
        return false;
      } else if c == '.' && lastc == '.' {
        if p[i - 2] == '/' && ((i + 1 == len && !sequential) || At(p, i + 1) == '/') {
          return false;
        }
      } else if c == '.' {
        if p[i - 1] == '/' && ((i + 1 == len && !sequential) || At(p, i + 1) == '/') {
          return false;
        }
      } else if Forbidden(c) {
        return false;
      }
      lastc := p[i];
      i := i + 1;
    }
    ScanEnd(p, sequential);
    ok := true;
  }

  /** The component being read, as far as the scanner has come. */
  function Open(p: string, i: nat): string
    requires 1 <= i <= |p|
  {
    Last(Pieces(p, 1, i))
  }

  /** The component would end at `i`. */
  predicate Closes(p: string, i: nat, sequential: bool)
    requires i <= |p|
  {
    (i == |p| && !sequential) || At(p, i) == '/'
  }

  /** What is known when `p[..i]` has been passed. */
  ghost predicate Scanned(p: string, i: nat, sequential: bool)
    requires 1 <= i <= |p|
  {
    && p[0] == '/'
    && Printable(p, 0, i)
    && GoodPieces(Pieces(p, 1, i), true)
    && (Open(p, i) == "" <==> p[i - 1] == '/')
    && (Open(p, i) == "." <==> i >= 2 && p[i - 1] == '.' && p[i - 2] == '/')
    && (Open(p, i) == ".." <==> i >= 3 && p[i - 1] == '.' && p[i - 2] == '.' && p[i - 3] == '/')
    && (Open(p, i) == "." || Open(p, i) == ".." ==> !Closes(p, i, sequential))
  }

  /** The scanner's own test on the byte at `i`. */
  predicate Stops(p: string, i: nat, sequential: bool)
    requires 1 <= i < |p|
  {
    || (p[i] == '/' && p[i - 1] == '/')
    || (p[i] == '.' && Closes(p, i + 1, sequential)
         && (p[i - 1] == '/' || (i >= 2 && p[i - 1] == '.' && p[i - 2] == '/')))
    || Forbidden(p[i])
  }

  lemma ScanEnd(p: string, sequential: bool)
    requires |p| > 1 && Scanned(p, |p|, sequential) && (Last(p) == '/' ==> sequential)
    ensures ValidPath(p, sequential)
  {
  }

  lemma ScanStep(p: string, i: nat, sequential: bool)
    requires 1 <= i < |p| && Scanned(p, i, sequential) && !Stops(p, i, sequential)
    ensures Scanned(p, i + 1, sequential)
  {
    if p[i] != '/' {
      OneByteMore(Open(p, i), p[i]);
    }
  }

  lemma OneByteMore(s: string, c: char)
    ensures s + [c] != ""
    ensures s + [c] == "." <==> s == "" && c == '.'
    ensures s + [c] == ".." <==> s == "." && c == '.'
  {
    assert (s + [c])[..|s|] == s && (s + [c])[|s|] == c;
  }

  lemma ScanReject(p: string, i: nat, sequential: bool)
    requires 1 <= i < |p| && Scanned(p, i, sequential) && Stops(p, i, sequential)
    ensures !ValidPath(p, sequential)
  {
    if !Forbidden(p[i]) {
      if p[i] == '/' {
        RejectOpen(p, i, sequential);
      } else {
        OneByteMore(Open(p, i), '.');
        if i + 1 < |p| {
          RejectOpen(p, i + 1, sequential);
        } else {
          assert !GoodComponent(Last(Pieces(p, 1, |p|)));
        }
      }
    }
  }

  /** A bad component that a slash closes spoils the whole path. */
  lemma RejectOpen(p: string, i: nat, sequential: bool)
    requires 1 <= i < |p| && p[i] == '/' && !GoodComponent(Open(p, i))
    ensures !ValidPath(p, sequential)
  {
    PiecesConcat(p, 1, i + 1, |p|);
    var j := |Pieces(p, 1, i)| - 1;
    assert Pieces(p, 1, i + 1)[j] == Open(p, i);
    assert Pieces(p, 1, |p|)[j] == Open(p, i);
  }

  /** The grammar, component by component: whatever the pieces between the slashes are, the path
      they make is accepted exactly when it is the root, or has no control bytes and no empty,
      "." or ".." piece; only the last piece is free under the sequence flag. */
  lemma GrammarOfPieces(parts: seq<string>, sequential: bool)
    requires parts != [] && forall i | 0 <= i < |parts| :: '/' !in parts[i]
    ensures var p := "/" + Join(parts, |parts|);
            ValidPath(p, sequential) <==>
              || p == "/"
              || ((forall k | 0 <= k < |p| :: p[k] == '\0' || p[k] as int >= 0x1f)
                  && forall i | 0 <= i < |parts| ::
                       parts[i] !in {"", ".", ".."} || (sequential && i == |parts| - 1))
  {
    hide Pieces, Join;
    var s := Join(parts, |parts|);
    var p := "/" + s;
    PiecesJoin(parts, |parts|);
    PiecesLocal(p, 1, |p|, s, 0, |s|);
    assert parts[..|parts|] == parts;
    assert |p| == 1 ==> p == "/";
  }

  // ---------------------------------------------------------------- sequence nodes

  predicate Digits(d: string) { d != "" && forall i | 0 <= i < |d| :: '0' <= d[i] <= '9' }

  /** The relaxed check accepts a prefix exactly when every name the server can
      make from it, by appending a counter, passes the strict check. */
  lemma SequenceRelaxation(p: CString, d: string)
    requires Digits(d)
    ensures ValidPath(p, true) <==> ValidPath(p + d, false)
  {
    if p != "" {
      DigitsAppended(p, p + d);
    }
  }

  lemma DigitsAppended(p: string, q: string)
    requires 0 < |p| < |q| && p == q[..|p|]
    requires forall k | |p| <= k < |q| :: '0' <= q[k] <= '9'
    ensures ValidPath(p, true) <==> ValidPath(q, false)
  {
    PiecesConcat(q, 1, |p|, |q|);
    PiecesLocal(q, 1, |p|, p, 1, |p|);
    PiecesSlashFree(q, |p|, |q|);
    var before, after, counter := Pieces(p, 1, |p|), Pieces(q, 1, |q|), q[|p|..|q|];
    assert Last(after) == Last(before) + counter;
    assert GoodComponent(Last(after)) by {
      assert Last(Last(before) + counter) == q[|q| - 1];
    }
    assert |after| == |before| && forall i | 0 <= i < |before| - 1 :: after[i] == before[i];
    PrintableLocal(q, 0, |p|, p, 0, |p|);
  }

  lemma PrintableLocal(s: string, lo: nat, hi: nat, t: string, at: nat, end: nat)
    requires lo <= hi <= |s| && at <= end <= |t| && end - at == hi - lo
    requires forall k | lo <= k < hi :: s[k] == t[k - lo + at]
    ensures Printable(s, lo, hi) <==> Printable(t, at, end)
  {
    if Printable(s, lo, hi) {
      forall i | at <= i < end ensures !Forbidden(t[i]) {
        assert s[i - at + lo] == t[i];
      }
    }
  }

  lemma FollowsPrintable(q: string, a: string, b: string)
    requires Follows(q, a, b)
    ensures Printable(q, 0, |q|) <==> Printable(a, 0, |a|) && Printable(b, 0, |b|)
  {
    PrintableLocal(q, 0, |a|, a, 0, |a|);
    PrintableLocal(q, |a|, |q|, b, 0, |b|);
  }

  // ---------------------------------------------------------------- chroot

  /** `prepend_string`: the path sent to the server. */
  function PrependString(chroot: Option<CString>, client: CString): (server: CString)
  {
    if chroot.None? then client
    else if |client| == 1 then chroot.value
    else chroot.value + client
  }

  /** `sub_string`.  The comparison length is the truth value of
      "the chroot is non-empty", so only the first byte is compared.  Reading past
      the end of a shorter server path is excluded. */
  function SubString(chroot: Option<CString>, server: CString): (client: Option<string>)
    requires chroot.Some? ==> |server| >= |chroot.value| || At(server, 0) != At(chroot.value, 0)
  {
    if chroot.None? then Some(server)
    else
      var n := if |chroot.value| != 0 then 1 else 0;
      if n == 1 && At(server, 0) != At(chroot.value, 0) then None
      else if |server| == |chroot.value| then Some("/")
      else Some(server[|chroot.value|..])
  }

  /** What `zookeeper_init` accepts as a chroot: "/" itself is dropped. */
  predicate ValidChroot(chroot: Option<CString>) {
    chroot.Some? ==> |chroot.value| > 1 && ValidPath(chroot.value, false)
  }

  /** The last component of a chroot. */
  function Leaf(ch: string): string
    requires ch != ""
  {
    Last(Pieces(ch, 1, |ch|))
  }

  /** Appending an absolute path to a valid chroot. */
  lemma AbsoluteSuffix(ch: string, p: string, q: string, sequential: bool)
    requires |ch| > 1 && ValidPath(ch, false)
    requires |p| > 1 && p[0] == '/' && Follows(q, ch, p)
    ensures ValidPath(q, sequential) <==> ValidPath(p, sequential)
  {
    var m := |ch|;
    var cs, ps := Pieces(ch, 1, m), Pieces(p, 1, |p|);
    AroundSlash(q, 1, m, |q|);
    PiecesLocal(q, 1, m, ch, 1, m);
    PiecesLocal(q, m + 1, |q|, p, 1, |p|);
    GoodAppend(cs, ps, cs + ps, sequential);
    FollowsPrintable(q, ch, p);
  }

  lemma GoodAppend(cs: seq<string>, ps: seq<string>, all: seq<string>, sequential: bool)
    requires GoodPieces(cs, false) && ps != [] && |all| == |cs| + |ps|
    requires forall i | 0 <= i < |cs| :: all[i] == cs[i]
    requires forall i | 0 <= i < |ps| :: all[|cs| + i] == ps[i]
    ensures GoodPieces(all, sequential) <==> GoodPieces(ps, sequential)
  {
    if GoodPieces(ps, sequential) {
      forall i | |cs| <= i < |all| && !(sequential && i == |all| - 1) ensures GoodComponent(all[i]) {
        assert all[|cs| + (i - |cs|)] == ps[i - |cs|];
      }
    }
  }

  /** Appending anything else glues it to the chroot's last component. */
  lemma RelativeSuffix(ch: string, p: string, q: string, head: string, r: string, sequential: bool)
    requires |ch| > 1 && ValidPath(ch, false) && Follows(q, ch, p)
    requires Follows(head, "/", Leaf(ch)) && Follows(r, head, p)
    ensures ValidPath(q, sequential) <==> ValidPath(r, sequential)
  {
    var cs, ps := Pieces(ch, 1, |ch|), Pieces(p, 0, |p|);
    LeafPieces(ch, head);
    FollowsPieces(q, ch, p, 1);
    FollowsPieces(r, head, p, 1);
    FollowsPrintable(q, ch, p);
    FollowsPrintable(r, head, p);
    GoodAppend(cs[..|cs| - 1], Fuse([Leaf(ch)], ps), Fuse(cs, ps), sequential);
  }

  /** A slash and the chroot's last component. */
  lemma LeafPieces(ch: string, head: string)
    requires |ch| > 1 && ValidPath(ch, false) && Follows(head, "/", Leaf(ch))
    ensures Pieces(head, 1, |head|) == [Leaf(ch)] && Printable(head, 0, |head|) && |head| > 1
  {
    var leaf := Leaf(ch);
    LeafSuffix(ch, |ch|);
    assert '/' !in leaf by { JoinPieces(ch, 1, |ch|); }
    forall k | 1 <= k < |head| ensures head[k] != '/' && !Forbidden(head[k]) {
      assert head[k] == leaf[k - 1];
    }
    PiecesSlashFree(head, 1, |head|);
    assert head[1..|head|] == leaf;
    assert GoodComponent(leaf);
  }

  lemma {:induction false} LeafSuffix(ch: string, hi: nat)
    requires 1 <= hi <= |ch|
    ensures var leaf := Open(ch, hi);
            |leaf| < hi && forall k | 0 <= k < |leaf| :: leaf[k] == ch[hi - |leaf| + k]
  {
    if hi > 1 {
      LeafSuffix(ch, hi - 1);
      var shorter, leaf := Open(ch, hi - 1), Open(ch, hi);
      if ch[hi - 1] != '/' {
        assert leaf == shorter + [ch[hi - 1]];
      }
    }
  }

  /** Chroot is an embedding of valid paths: validity is kept, nothing collides,
      and `sub_string` gives the client path back. */
  lemma ChrootEmbedding(chroot: Option<CString>, p: CString, flags: bv32)
    requires ValidChroot(chroot)
    requires ValidPath(p, Sequential(flags))
    ensures ValidPath(PrependString(chroot, p), Sequential(flags))
    ensures SubString(chroot, PrependString(chroot, p)) == Some(p)
  {
    if chroot.Some? && |p| > 1 {
      ConcatFollows(chroot.value, p);
      AbsoluteSuffix(chroot.value, p, chroot.value + p, Sequential(flags));
      assert (chroot.value + p)[0] == '/';
      assert (chroot.value + p)[|chroot.value|..] == p;
    } else {
      assert |p| == 1 ==> p == "/";
    }
  }

  lemma ChrootInjective(chroot: Option<CString>, p: CString, q: CString)
    requires ValidChroot(chroot)
    requires ValidPath(p, true) && ValidPath(q, true)
    requires PrependString(chroot, p) == PrependString(chroot, q)
    ensures p == q
  {
    ChrootEmbedding(chroot, p, ZOO_SEQUENCE);
    ChrootEmbedding(chroot, q, ZOO_SEQUENCE);
  }

  /** The check runs after the chroot is prepended, so it accepts more client
      strings than it does without a chroot; this is exactly which. */
  lemma ChrootAcceptance(chroot: CString, p: CString, sequential: bool)
    requires ValidChroot(Some(chroot))
    ensures ValidPath(PrependString(Some(chroot), p), sequential) <==>
            (|p| == 1 || (
               if p != "" && p[0] == '/' then ValidPath(p, sequential)
               else ValidPath("/" + Leaf(chroot) + p, sequential)))
  {
    if p == "" || p[0] != '/' {
      var head := "/" + Leaf(chroot);
      ConcatFollows(chroot, p);
      ConcatFollows("/", Leaf(chroot));
      ConcatFollows(head, p);
      RelativeSuffix(chroot, p, chroot + p, head, head + p, sequential);
    } else if |p| > 1 {
      ConcatFollows(chroot, p);
      AbsoluteSuffix(chroot, p, chroot + p, sequential);
    }
  }

  lemma OneComponent(p: string)
    requires |p| > 1 && p[0] == '/' && Printable(p, 0, |p|)
    requires forall k | 1 <= k < |p| :: p[k] != '/' && p[k] != '.'
    ensures ValidPath(p, false)
  {
    PiecesSlashFree(p, 1, |p|);
    assert p[1..|p|][0] == p[1];
  }

  /** A relative client path is rejected without a chroot and accepted with one. */
  lemma RelativePathAccepted()
    ensures ValidChroot(Some("/a"))
    ensures !ValidPath("bc", false) && ValidPath(PrependString(Some("/a"), "bc"), false)
  {
    OneComponent("/a");
    OneComponent("/abc");
    assert "/a" + "bc" == "/abc";
  }

  /** On any server path that is not read past its end, `sub_string` gives nothing exactly when
      the path does not start with a slash; what it gives undoes `prepend_string` exactly when
      the chroot is a prefix of the path and the path is not exactly one byte longer. */
  lemma SubStringExact(chroot: CString, server: CString)
    requires ValidChroot(Some(chroot))
    requires |server| >= |chroot| || At(server, 0) != '/'
    ensures var client := SubString(Some(chroot), server);
            && (client.Some? <==> At(server, 0) == '/')
            && (client.Some? ==> (PrependString(Some(chroot), client.value) == server <==>
                                  chroot <= server && |server| != |chroot| + 1))
  {
    if |server| > |chroot| + 1 {
      assert chroot <= server ==> server == chroot + server[|chroot|..];
    }
  }

  /** A path outside the chroot is stripped all the same. */
  lemma SubStringForeign()
    ensures ValidChroot(Some("/a"))
    ensures SubString(Some("/a"), "/b/x") == Some("/x")
  {
    OneComponent("/a");
  }
}
