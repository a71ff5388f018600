/** The circular doubly linked list of list.h, on the heap. */
module IntrusiveList {

  /**
   * A link embedded in some structure. `entry` stands for the structure that list_entry
   * recovers from the link's address; a list's head belongs to none.
   */
  class ListHead<T> {
    var next: ListHead?<T>
    var prev: ListHead?<T>
    const entry: T

    constructor (entry: T)
      ensures this.entry == entry && next == null && prev == null
    {
      this.entry := entry;
      next, prev := null, null;
    }
  }

  type Link<T> = ListHead<T>

  /** No link twice. */
  ghost predicate Distinct<T>(c: seq<Link<T>>) {
    forall i, j :: 0 <= i < j < |c| ==> c[i] != c[j]
  }

  /** The link after c[i] when c is read as a circle. */
  ghost function Following<T>(c: seq<Link<T>>, i: nat): Link<T>
    requires i < |c|
  {
    if i + 1 == |c| then c[0] else c[i + 1]
  }

  /** The links of c form a circle in this order: next and prev are inverse to each other. */
  ghost predicate Circle<T>(c: seq<Link<T>>)
    reads c
  {
    && |c| > 0
    && Distinct(c)
    && (forall i :: 0 <= i < |c| ==> c[i].next == Following(c, i) && Following(c, i).prev == c[i])
  }

  /** The list with this head holds exactly these links, in this order. */
  ghost predicate List<T>(head: Link<T>, links: seq<Link<T>>)
    reads [head] + links
  {
    Circle([head] + links)
  }

  /** The pointers alone determine which links a list holds and in which order. */
  lemma ListIsDetermined<T>(head: Link<T>, s: seq<Link<T>>, t: seq<Link<T>>)
    requires List(head, s) && List(head, t)
    ensures s == t
  {
    var c, d := [head] + s, [head] + t;
    SamePrefix(c, d, if |c| <= |d| then |c| - 1 else |d| - 1);
    assert Following(c, |c| - 1) == head && Following(d, |d| - 1) == head;
    assert |c| == |d|;
    assert c[1..] == s && d[1..] == t;
  }

  lemma {:induction false} SamePrefix<T>(c: seq<Link<T>>, d: seq<Link<T>>, k: nat)
    requires Circle(c) && Circle(d) && c[0] == d[0] && k < |c| && k < |d|
    ensures forall i :: 0 <= i <= k ==> c[i] == d[i]
  {
    if k > 0 {
      SamePrefix(c, d, k - 1);
      assert Following(c, k - 1) == c[k] && Following(d, k - 1) == d[k];
    }
  }

  method InitListHead<T>(head: Link<T>)
    modifies head
    ensures List(head, [])
  {
    head.next := head;
    head.prev := head;
  }

  /** __list_add, between the k-th link of a circle and the one that follows it. */
  method Insert<T>(entry: Link<T>, prev: Link<T>, next: Link<T>, ghost c: seq<Link<T>>, ghost k: nat)
    requires Circle(c) && k < |c| && prev == c[k] && next == Following(c, k) && entry !in c
    modifies entry, prev`next, next`prev
    ensures Circle(c[..k + 1] + [entry] + c[k + 1..])
  {
    next.prev := entry;
    entry.next := next;
    entry.prev := prev;
    prev.next := entry;
  }

  /** __list_del, of the k-th link of a circle: it keeps its own pointers. */
  method Unlink<T>(prev: Link<T>, next: Link<T>, ghost c: seq<Link<T>>, ghost k: nat)
    requires Circle(c) && 0 < k < |c| && prev == c[k].prev && next == c[k].next
    modifies prev`next, next`prev
    ensures Circle(c[..k] + c[k + 1..])
  {
    assert prev == c[k - 1] by { assert Following(c, k - 1) == c[k]; }
    next.prev := prev;
    prev.next := next;
  }

  lemma Neighbours<T>(c: seq<Link<T>>, k: nat)
    requires Circle(c) && k < |c|
    ensures c[k].next == Following(c, k) && c[k].next in c
    ensures c[k].prev == c[if k == 0 then |c| - 1 else k - 1] && c[k].prev in c
  {
    assert Following(c, if k == 0 then |c| - 1 else k - 1) == c[k];
  }

  lemma RemovedIsGone<T>(c: seq<Link<T>>, k: nat)
    requires Distinct(c) && k < |c|
    ensures c[k] !in c[..k] + c[k + 1..]
  {
  }

  lemma WithoutOne<T>(head: Link<T>, s: seq<Link<T>>, k: nat)
    requires k < |s|
    ensures ([head] + s)[..k + 1] + ([head] + s)[k + 2..] == [head] + (s[..k] + s[k + 1..])
  {
  }

  /** list_add: in front. */
  method ListAdd<T>(entry: Link<T>, head: Link<T>, ghost s: seq<Link<T>>)
    requires List(head, s) && entry !in [head] + s
    modifies entry, head, head.next
    ensures List(head, [entry] + s)
  {
    ghost var c := [head] + s;
    Neighbours(c, 0);
    Insert(entry, head, head.next, c, 0);
    assert c[..1] + [entry] + c[1..] == [head] + ([entry] + s);
  }

  /** list_add_tail: at the end. */
  method ListAddTail<T>(entry: Link<T>, head: Link<T>, ghost s: seq<Link<T>>)
    requires List(head, s) && entry !in [head] + s
    modifies entry, head, head.prev
    ensures List(head, s + [entry])
  {
    ghost var c := [head] + s;
    Neighbours(c, 0);
    Insert(entry, head.prev, head, c, |s|);
    assert c[..|s| + 1] + [entry] + c[|s| + 1..] == [head] + (s + [entry]);
  }

  /** The two calls that every removal makes: read the k-th link's neighbours and join them. */
  method Detach<T>(entry: Link<T>, ghost head: Link<T>, ghost s: seq<Link<T>>, ghost k: nat)
    requires List(head, s) && k < |s| && s[k] == entry
    modifies entry.prev, entry.next
    ensures List(head, s[..k] + s[k + 1..])
    ensures entry !in [head] + (s[..k] + s[k + 1..])
  {
    ghost var c := [head] + s;
    Neighbours(c, k + 1);
    RemovedIsGone(c, k + 1);
    WithoutOne(head, s, k);
    Unlink(entry.prev, entry.next, c, k + 1);
  }

  /** list_del: the k-th link leaves, with its pointers cleared. */
  method ListDel<T>(entry: Link<T>, ghost head: Link<T>, ghost s: seq<Link<T>>, ghost k: nat)
    requires List(head, s) && k < |s| && s[k] == entry
    modifies entry, entry.prev, entry.next
    ensures List(head, s[..k] + s[k + 1..])
    ensures entry.next == null && entry.prev == null
  {
    Detach(entry, head, s, k);
    entry.next := null;
    entry.prev := null;
  }

  /** list_del_init: the k-th link leaves and becomes an empty list. */
  method ListDelInit<T>(entry: Link<T>, ghost head: Link<T>, ghost s: seq<Link<T>>, ghost k: nat)
    requires List(head, s) && k < |s| && s[k] == entry
    modifies entry, entry.prev, entry.next
    ensures List(head, s[..k] + s[k + 1..])
    ensures List(entry, [])
  {
    Detach(entry, head, s, k);
    InitListHead(entry);
  }

  /** Two lists that share no link. */
  ghost predicate Apart<T>(h1: Link<T>, s1: seq<Link<T>>, h2: Link<T>, s2: seq<Link<T>>) {
    forall x :: x in [h1] + s1 ==> x !in [h2] + s2
  }

  /** A link and its neighbours are not in a list that shares no link with theirs. */
  lemma NotAmong<T>(entry: Link<T>, from: Link<T>, s: seq<Link<T>>, k: nat, head: Link<T>, t: seq<Link<T>>)
    requires List(from, s) && k < |s| && s[k] == entry && Apart(from, s, head, t)
    ensures entry !in [head] + t && entry.prev !in [head] + t && entry.next !in [head] + t
    ensures entry !in s[..k] + s[k + 1..] && entry != from
    ensures forall x :: x in [from] + (s[..k] + s[k + 1..]) ==> x !in [head] + t
    ensures List(head, t) ==> head.next in [head] + t && head.prev in [head] + t
  {
    var c := [from] + s;
    Neighbours(c, k + 1);
    assert c[k + 1] == entry && entry in c;
    RemovedIsGone(c, k + 1);
    WithoutOne(from, s, k);
    if List(head, t) {
      Neighbours([head] + t, 0);
    }
  }

  /** list_move: the k-th link of one list goes to the front of another. */
  method ListMove<T>(entry: Link<T>, ghost from: Link<T>, ghost s: seq<Link<T>>, ghost k: nat,
                     head: Link<T>, ghost t: seq<Link<T>>)
    requires List(from, s) && k < |s| && s[k] == entry && List(head, t) && Apart(from, s, head, t)
    modifies entry, entry.prev, entry.next, head, head.next
    ensures List(from, s[..k] + s[k + 1..])
    ensures List(head, [entry] + t)
  {
    NotAmong(entry, from, s, k, head, t);
    Detach(entry, from, s, k);
    assert List(head, t);
    ListAdd(entry, head, t);
  }

  /** list_move within one list, also when the link is already next to the head. */
  method ListMoveWithin<T>(entry: Link<T>, ghost s: seq<Link<T>>, ghost k: nat, head: Link<T>)
    requires List(head, s) && k < |s| && s[k] == entry
    modifies entry, entry.prev, entry.next, head, head.next
    ensures List(head, [entry] + (s[..k] + s[k + 1..]))
  {
    ghost var rest := s[..k] + s[k + 1..];
    Neighbours([head] + s, k + 1);
    Neighbours([head] + s, 0);
    Detach(entry, head, s, k);
    Neighbours([head] + rest, 0);
    assert head.next == if k == 0 then old(entry.next) else old(head.next);
    ListAdd(entry, head, rest);
  }

  /** list_move_tail: to the end of another list. */
  method ListMoveTail<T>(entry: Link<T>, ghost from: Link<T>, ghost s: seq<Link<T>>, ghost k: nat,
                         head: Link<T>, ghost t: seq<Link<T>>)
    requires List(from, s) && k < |s| && s[k] == entry && List(head, t) && Apart(from, s, head, t)
    modifies entry, entry.prev, entry.next, head, head.prev
    ensures List(from, s[..k] + s[k + 1..])
    ensures List(head, t + [entry])
  {
    NotAmong(entry, from, s, k, head, t);
    Detach(entry, from, s, k);
    assert List(head, t);
    ListAddTail(entry, head, t);
  }

  /** list_move_tail within one list, also when the link is already last. */
  method ListMoveTailWithin<T>(entry: Link<T>, ghost s: seq<Link<T>>, ghost k: nat, head: Link<T>)
    requires List(head, s) && k < |s| && s[k] == entry
    modifies entry, entry.prev, entry.next, head, head.prev
    ensures List(head, (s[..k] + s[k + 1..]) + [entry])
  {
    ghost var rest := s[..k] + s[k + 1..];
    Neighbours([head] + s, k + 1);
    Neighbours([head] + s, 0);
    Detach(entry, head, s, k);
    Neighbours([head] + rest, 0);
    assert head.prev == if k == |s| - 1 then old(entry.prev) else old(head.prev);
    ListAddTail(entry, head, rest);
  }

  method ListEmpty<T>(head: Link<T>, ghost s: seq<Link<T>>) returns (empty: bool)
    requires List(head, s)
    ensures empty <==> s == []
  {
    Neighbours([head] + s, 0);
    empty := head.next == head;
  }

  lemma JoinedDistinct<T>(list: Link<T>, s: seq<Link<T>>, head: Link<T>, t: seq<Link<T>>)
    requires Distinct([list] + s) && Distinct([head] + t) && Apart(list, s, head, t)
    ensures Distinct([head] + (s + t))
  {
    var c, d, e := [list] + s, [head] + t, [head] + (s + t);
    assert forall i :: 0 < i <= |s| ==> e[i] == c[i] && e[i] in c;
    assert forall i :: |s| < i < |e| ==> e[i] == d[i - |s|] && e[i] in d;
    assert e[0] == d[0] && e[0] in d;
    forall i, j | 0 <= i < j < |e| ensures e[i] != e[j] {
      if i == 0 && |s| < j {
        assert d[0] != d[j - |s|];
      } else if 0 < i <= |s| && j <= |s| {
        assert c[i] != c[j];
      } else if |s| < i {
        assert d[i - |s|] != d[j - |s|];
      }
    }
  }

  /** __list_splice: all links of a nonempty list go behind another head; the first head is stale. */
  method Splice<T>(list: Link<T>, ghost s: seq<Link<T>>, head: Link<T>, ghost t: seq<Link<T>>)
    requires List(list, s) && List(head, t) && Apart(list, s, head, t) && s != []
    modifies list.next, list.prev, head, head.next
    ensures List(head, s + t)
    ensures unchanged(list)
  {
    ghost var c, d := [list] + s, [head] + t;
    Neighbours(c, 0);
    Neighbours(d, 0);
    JoinedDistinct(list, s, head, t);
    var first := list.next;
    var last := list.prev;
    var at := head.next;
    first.prev := head;
    head.next := first;
    last.next := at;
    at.prev := last;
    ghost var e := [head] + (s + t);
    forall i | 0 <= i < |e|
      ensures e[i].next == Following(e, i) && Following(e, i).prev == e[i]
    {
      if 0 < i <= |s| {
        assert e[i] == c[i];
      } else if |s| < i {
        assert e[i] == d[i - |s|];
      }
    }
  }

  /** list_splice: an empty list adds nothing. */
  method ListSplice<T>(list: Link<T>, ghost s: seq<Link<T>>, head: Link<T>, ghost t: seq<Link<T>>)
    requires List(list, s) && List(head, t) && Apart(list, s, head, t)
    modifies list.next, list.prev, head, head.next
    ensures List(head, s + t)
    ensures s == [] ==> List(list, [])
    ensures s != [] ==> unchanged(list)
  {
    var empty := ListEmpty(list, s);
    if !empty {
      Splice(list, s, head, t);
    } else {
      assert [] + t == t;
    }
  }

  /** list_splice_init: and the list that was emptied is a list again. */
  method ListSpliceInit<T>(list: Link<T>, ghost s: seq<Link<T>>, head: Link<T>, ghost t: seq<Link<T>>)
    requires List(list, s) && List(head, t) && Apart(list, s, head, t)
    modifies list, list.next, list.prev, head, head.next
    ensures List(head, s + t)
    ensures List(list, [])
  {
    var empty := ListEmpty(list, s);
    if !empty {
      Splice(list, s, head, t);
      assert list !in s by { RemovedIsGone([list] + s, 0); }
      assert list in [list] + s;
      assert list !in [head] + (s + t);
      InitListHead(list);
    } else {
      assert [] + t == t;
    }
  }

  // ----- Traversal -----

  function Entries<T>(s: seq<Link<T>>): (r: seq<T>)
    ensures |r| == |s| && forall i :: 0 <= i < |s| ==> r[i] == s[i].entry
  {
    seq(|s|, i requires 0 <= i < |s| => s[i].entry)
  }

  function Reversed<T>(s: seq<T>): (r: seq<T>)
    ensures |r| == |s| && forall i :: 0 <= i < |s| ==> r[i] == s[|s| - 1 - i]
  {
    seq(|s|, i requires 0 <= i < |s| => s[|s| - 1 - i])
  }

  /** list_for_each with list_entry: the structures in the order of the list. */
  method ForEach<T>(head: Link<T>, ghost s: seq<Link<T>>) returns (visited: seq<T>)
    requires List(head, s)
    ensures visited == Entries(s)
  {
    ghost var c := [head] + s;
    visited := [];
    Neighbours(c, 0);
    var pos := head.next;
    ghost var i := 1;
    while pos != head
      invariant 1 <= i <= |c| && pos == (if i < |c| then c[i] else head)
      invariant |visited| == i - 1 && forall j :: 0 <= j < i - 1 ==> visited[j] == s[j].entry
      decreases |c| - i
    {
      Neighbours(c, i);
      visited := visited + [pos.entry];
      pos := pos.next;
      i := i + 1;
    }
    assert i == |c|;
  }

  /** list_for_each_prev with list_entry: the same structures backward. */
  method ForEachPrev<T>(head: Link<T>, ghost s: seq<Link<T>>) returns (visited: seq<T>)
    requires List(head, s)
    ensures visited == Reversed(Entries(s))
  {
    ghost var c := [head] + s;
    visited := [];
    Neighbours(c, 0);
    var pos := head.prev;
    ghost var i := |s|;
    while pos != head
      invariant 0 <= i <= |s| && pos == c[i]
      invariant |visited| == |s| - i && forall j :: 0 <= j < |s| - i ==> visited[j] == s[|s| - 1 - j].entry
      decreases i
    {
      Neighbours(c, i);
      visited := visited + [pos.entry];
      pos := pos.prev;
      i := i - 1;
    }
    assert i == 0;
  }
}
