/** Accounting of an agent's directory by an explicit worklist, against the recursive definition. */
module DirectoryBytes {
  import opened Wrappers

  /** What a directory entry is to `lstat`; `Gone` is one that lstat fails on. An unreadable directory
      is one that readdir fails on. */
  datatype Entry =
    | File(size: nat)
    | Directory(readable: bool, children: seq<Entry>)
    | Link
    | Special
    | Gone

  const MAX_SAFE_INTEGER := 0x1F_FFFF_FFFF_FFFF

  /** The entries listed below a directory, at any depth. */
  function Count(e: Entry): nat {
    if e.Directory? && e.readable then |e.children| + CountAll(e.children) else 0
  }

  function CountAll(es: seq<Entry>): nat {
    if es == [] then 0 else Count(es[0]) + CountAll(es[1..])
  }

  /** The sizes of the regular files reached without following links. */
  function Bytes(e: Entry): nat {
    match e
    case File(size) => size
    case Directory(readable, children) => if readable then BytesAll(children) else 0
    case _ => 0
  }

  function BytesAll(es: seq<Entry>): nat {
    if es == [] then 0 else Bytes(es[0]) + BytesAll(es[1..])
  }

  /** The entry that a path of listing positions leads to; unreadable directories list nothing, and links
      lead nowhere. */
  function EntryAt(e: Entry, path: seq<nat>): Option<Entry>
    decreases |path|
  {
    if path == [] then Some(e)
    else if e.Directory? && e.readable && path[0] < |e.children| then EntryAt(e.children[path[0]], path[1..])
    else None
  }

  /** All entries below, the listed ones each before what is below it. */
  function Below(e: Entry): seq<Entry> {
    if e.Directory? && e.readable then BelowAll(e.children) else []
  }

  function BelowAll(es: seq<Entry>): seq<Entry> {
    if es == [] then [] else [es[0]] + Below(es[0]) + BelowAll(es[1..])
  }

  function SizeOf(e: Entry): nat {
    if e.File? then e.size else 0
  }

  function Sizes(es: seq<Entry>): nat {
    if es == [] then 0 else SizeOf(es[0]) + Sizes(es[1..])
  }

  predicate LeadsTo(e: Entry, path: seq<nat>, x: Entry) {
    path != [] && EntryAt(e, path) == Some(x)
  }

  /** Of these entries one is it or leads to it. */
  predicate OneLeadsTo(es: seq<Entry>, i: nat, path: seq<nat>, x: Entry) {
    i < |es| && EntryAt(es[i], path) == Some(x)
  }

  /** They are just what the paths lead to. */
  lemma {:induction false} BelowReached(e: Entry, x: Entry)
    ensures x in Below(e) <==> exists path :: LeadsTo(e, path, x)
    decreases e
  {
    if e.Directory? && e.readable {
      BelowAllReached(e.children, x);
      if x in Below(e) {
        var i: nat, path :| OneLeadsTo(e.children, i, path, x);
        assert ([i] + path)[1..] == path;
        assert LeadsTo(e, [i] + path, x);
      }
      forall path | LeadsTo(e, path, x) ensures x in Below(e) {
        assert OneLeadsTo(e.children, path[0], path[1..], x);
      }
    }
  }

  lemma {:induction false} BelowAllReached(es: seq<Entry>, x: Entry)
    ensures x in BelowAll(es) <==> exists i: nat, path :: OneLeadsTo(es, i, path, x)
    decreases es
  {
    if es != [] {
      var e, t := es[0], es[1..];
      BelowReached(e, x);
      BelowAllReached(t, x);
      if x == e {
        assert OneLeadsTo(es, 0, [], x);
      } else if x in Below(e) {
        var path :| LeadsTo(e, path, x);
        assert OneLeadsTo(es, 0, path, x);
      } else if x in BelowAll(t) {
        var i: nat, path :| OneLeadsTo(t, i, path, x);
        assert OneLeadsTo(es, i + 1, path, x);
      }
      forall i: nat, path | OneLeadsTo(es, i, path, x) ensures x in BelowAll(es) {
        if i > 0 {
          assert OneLeadsTo(t, i - 1, path, x);
        } else if path != [] {
          assert LeadsTo(e, path, x);
        }
      }
    }
  }

  lemma {:induction false} SizesConcat(a: seq<Entry>, b: seq<Entry>)
    ensures Sizes(a + b) == Sizes(a) + Sizes(b)
  {
    if a == [] {
      assert a + b == b;
    } else {
      SizesConcat(a[1..], b);
      assert (a + b)[1..] == a[1..] + b;
    }
  }

  /** The count is the number of entries below a directory, and the total the sizes of the files among them. */
  lemma {:induction false} TotalsBelow(e: Entry)
    ensures Count(e) == |Below(e)|
    ensures Bytes(e) == SizeOf(e) + Sizes(Below(e))
    decreases e
  {
    if e.Directory? && e.readable { TotalsBelowAll(e.children); }
  }

  lemma {:induction false} TotalsBelowAll(es: seq<Entry>)
    ensures |es| + CountAll(es) == |BelowAll(es)| && BytesAll(es) == Sizes(BelowAll(es))
    decreases es
  {
    if es != [] {
      TotalsBelow(es[0]);
      TotalsBelowAll(es[1..]);
      SizesConcat([es[0]] + Below(es[0]), BelowAll(es[1..]));
      SizesConcat([es[0]], Below(es[0]));
      assert [es[0]][1..] == [];
    }
  }

  lemma {:induction false} AllAppend(es: seq<Entry>, e: Entry)
    ensures CountAll(es + [e]) == CountAll(es) + Count(e)
    ensures BytesAll(es + [e]) == BytesAll(es) + Bytes(e)
  {
    if es == [] {
      assert [] + [e] == [e] && [e][1..] == [];
    } else {
      var x, t := es[0], es[1..];
      AllAppend(t, e);
      assert es + [e] == [x] + (t + [e]);
      assert ([x] + (t + [e]))[1..] == t + [e];
    }
  }

  lemma {:induction false} AllConcat(a: seq<Entry>, b: seq<Entry>)
    ensures CountAll(a + b) == CountAll(a) + CountAll(b)
    ensures BytesAll(a + b) == BytesAll(a) + BytesAll(b)
  {
    if a == [] {
      assert a + b == b;
    } else {
      var x, t := a[0], a[1..];
      AllConcat(t, b);
      assert (a + b)[1..] == t + b;
    }
  }

  lemma AllCons(x: Entry, t: seq<Entry>)
    ensures CountAll([x] + t) == Count(x) + CountAll(t)
    ensures BytesAll([x] + t) == Bytes(x) + BytesAll(t)
  {
    assert ([x] + t)[1..] == t;
  }

  /** Taking an element out of the listing takes out its share. */
  lemma AllWithout(b: seq<Entry>, x: Entry) returns (rest: seq<Entry>)
    requires x in b
    ensures CountAll(b) == Count(x) + CountAll(rest) && BytesAll(b) == Bytes(x) + BytesAll(rest)
    ensures multiset(b) == multiset{x} + multiset(rest) && |b| == |rest| + 1
  {
    var i :| 0 <= i < |b| && b[i] == x;
    var before, after := b[..i], b[i + 1..];
    assert b == before + ([x] + after);
    AllConcat(before, [x] + after);
    AllCons(x, after);
    AllConcat(before, after);
    rest := before + after;
    MultisetWithout(before, x, after);
  }

  lemma MultisetWithout(before: seq<Entry>, x: Entry, after: seq<Entry>)
    ensures multiset(before + ([x] + after)) == multiset{x} + multiset(before + after)
  {
    assert multiset([x] + after) == multiset{x} + multiset(after);
  }

  lemma SameRemainder(x: Entry, a: multiset<Entry>, b: multiset<Entry>)
    requires multiset{x} + a == multiset{x} + b
    ensures a == b
  {
    assert a == multiset{x} + a - multiset{x};
  }

  /** One listing is a permutation of the other. */
  lemma {:induction false} PermutationSums(a: seq<Entry>, b: seq<Entry>)
    requires multiset(a) == multiset(b)
    decreases |a|
    ensures CountAll(a) == CountAll(b) && BytesAll(a) == BytesAll(b)
  {
    assert |multiset(a)| == |a| && |multiset(b)| == |b|;
    if a != [] {
      var x := a[0];
      assert x in multiset(a);
      var restA := AllWithout(a, x);
      var restB := AllWithout(b, x);
      SameRemainder(x, multiset(restA), multiset(restB));
      PermutationSums(restA, restB);
    }
  }

  /** The same tree with every directory, at any depth, listed in some other order. */
  ghost predicate Reordered(a: Entry, b: Entry)
    decreases a
  {
    if a.Directory? then
      && b.Directory? && a.readable == b.readable
      && exists m: seq<Entry> :: multiset(m) == multiset(b.children) && ReorderedAll(a.children, m)
    else a == b
  }

  ghost predicate ReorderedAll(a: seq<Entry>, b: seq<Entry>)
    decreases a
  {
    |a| == |b| && forall i | 0 <= i < |a| :: Reordered(a[i], b[i])
  }

  /** Neither total depends on the order in which directories are listed. */
  lemma {:induction false} OrderIndependent(a: Entry, b: Entry)
    requires Reordered(a, b)
    ensures Count(a) == Count(b) && Bytes(a) == Bytes(b)
    decreases a
  {
    if a.Directory? {
      var m: seq<Entry> :| multiset(m) == multiset(b.children) && ReorderedAll(a.children, m);
      OrderIndependentAll(a.children, m);
      PermutationSums(m, b.children);
      assert |multiset(m)| == |m| && |multiset(b.children)| == |b.children|;
    }
  }

  lemma {:induction false} OrderIndependentAll(a: seq<Entry>, b: seq<Entry>)
    requires ReorderedAll(a, b)
    ensures CountAll(a) == CountAll(b) && BytesAll(a) == BytesAll(b)
    decreases a
  {
    if a != [] {
      OrderIndependent(a[0], b[0]);
      OrderIndependentAll(a[1..], b[1..]);
    }
  }

  /** Goes through one directory's children in listing order, pushing the directories among them. */
  method ScanDirectory(children: seq<Entry>, entries0: nat, total0: nat, pending0: seq<Entry>, maximumEntries: nat)
    returns (within: bool, entries: nat, total: nat, pending: seq<Entry>)
    requires forall d | d in pending0 :: d.Directory?
    requires entries0 <= maximumEntries && total0 <= MAX_SAFE_INTEGER
    ensures forall d | d in pending :: d.Directory?
    ensures within ==> entries == entries0 + |children| <= maximumEntries && total <= MAX_SAFE_INTEGER
    ensures within ==> CountAll(pending) == CountAll(pending0) + CountAll(children)
    ensures within ==> total + BytesAll(pending) == total0 + BytesAll(pending0) + BytesAll(children)
    ensures within ==> |pending| <= |pending0| + |children|
    ensures !within ==> entries0 + |children| > maximumEntries || total0 + BytesAll(children) > MAX_SAFE_INTEGER
  {
    entries, total, pending := entries0, total0, pending0;
    for i := 0 to |children|
      invariant forall d | d in pending :: d.Directory?
      invariant entries == entries0 + i <= maximumEntries && total <= MAX_SAFE_INTEGER
      invariant CountAll(pending) + CountAll(children[i..]) == CountAll(pending0) + CountAll(children)
      invariant total + BytesAll(pending) + BytesAll(children[i..]) == total0 + BytesAll(pending0) + BytesAll(children)
      invariant total + BytesAll(children[i..]) <= total0 + BytesAll(children)
      invariant |pending| <= |pending0| + i
    {
      var child, later := children[i], children[i + 1..];
      assert children[i..] == [child] + later;
      AllCons(child, later);
      entries := entries + 1;
      if entries > maximumEntries { return false, entries, total, pending; }
      if child.Gone? || child.Link? { continue; }
      if child.Directory? {
        AllAppend(pending, child);
        pending := pending + [child];
      } else if child.File? {
        total := total + child.size;
      }
      if total > MAX_SAFE_INTEGER { return false, entries, total, pending; }
    }
    within := true;
  }

  /** `pending` holds the directories still to be read, the last one next. The result is the recursive
      total, unless the recursive count exceeds the limit or that total is not a safe integer. */
  method DirectoryBytes(root: Entry, maximumEntries: nat) returns (result: Option<nat>)
    requires root.Directory?
    ensures result == if |Below(root)| <= maximumEntries && Sizes(Below(root)) <= MAX_SAFE_INTEGER
                      then Some(Sizes(Below(root))) else None
  {
    TotalsBelow(root);
    var entries: nat, total: nat := 0, 0;
    var pending := [root];
    AllCons(root, []);
    while pending != []
      invariant forall d | d in pending :: d.Directory?
      invariant entries + CountAll(pending) == Count(root)
      invariant total + BytesAll(pending) == Bytes(root)
      invariant entries <= maximumEntries && total <= MAX_SAFE_INTEGER
      decreases CountAll(pending) + |pending|
    {
      var current, rest := pending[|pending| - 1], pending[..|pending| - 1];
      assert pending == rest + [current];
      AllAppend(rest, current);
      pending := rest;
      if current.readable {
        var within;
        within, entries, total, pending := ScanDirectory(current.children, entries, total, rest, maximumEntries);
        if !within { return None; }
      }
    }
    result := Some(total);
  }
}
