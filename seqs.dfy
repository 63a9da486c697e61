/**
 * The list operations the code writes with `filter`, `includes` and `map` over arrays:
 * dropping elements, dropping documents by id, and replacing documents by id. Each keeps
 * the order of what it keeps, as the array methods do.
 */
module Seqs {
  import opened Models

  /** `s.filter(x => !drop.includes(x))`. */
  function Minus<T(==,!new)>(s: seq<T>, drop: seq<T>): (r: seq<T>)
    ensures forall x :: x in r <==> x in s && x !in drop
    ensures |r| <= |s|
  {
    if s == [] then []
    else if s[0] in drop then Minus(s[1..], drop)
    else [s[0]] + Minus(s[1..], drop)
  }

  /** Filtering a concatenation filters each part in place, so the kept elements keep their order. */
  lemma {:induction false} MinusAppend<T(!new)>(a: seq<T>, b: seq<T>, drop: seq<T>)
    ensures Minus(a + b, drop) == Minus(a, drop) + Minus(b, drop)
  {
    if a == [] {
      assert a + b == b;
    } else {
      assert (a + b)[0] == a[0];
      assert (a + b)[1..] == a[1..] + b;
      MinusAppend(a[1..], b, drop);
    }
  }

  /** A filter that drops nothing of `s` returns `s` itself. */
  lemma {:induction false} MinusDisjoint<T(!new)>(s: seq<T>, drop: seq<T>)
    requires forall x :: x in s ==> x !in drop
    ensures Minus(s, drop) == s
  {
    if s != [] {
      assert s[0] in s;
      forall x | x in s[1..] ensures x !in drop { assert x in s; }
      MinusDisjoint(s[1..], drop);
      assert [s[0]] + s[1..] == s;
    }
  }

  /** `docs.filter(d => d._id !== id)`. */
  function RemoveById<T(!new)>(docs: seq<Doc<T>>, id: nat): (r: seq<Doc<T>>)
    ensures forall d :: d in r <==> d in docs && d.id != id
    ensures |r| <= |docs|
  {
    if docs == [] then []
    else if docs[0].id == id then RemoveById(docs[1..], id)
    else [docs[0]] + RemoveById(docs[1..], id)
  }

  /** Removing by id from a concatenation removes from each part in place. */
  lemma {:induction false} RemoveByIdAppend<T(!new)>(a: seq<Doc<T>>, b: seq<Doc<T>>, id: nat)
    ensures RemoveById(a + b, id) == RemoveById(a, id) + RemoveById(b, id)
  {
    if a == [] {
      assert a + b == b;
    } else {
      assert (a + b)[0] == a[0];
      assert (a + b)[1..] == a[1..] + b;
      RemoveByIdAppend(a[1..], b, id);
    }
  }

  /** Removing an id that no document carries leaves the list as it was. */
  lemma {:induction false} RemoveByIdAbsent<T(!new)>(docs: seq<Doc<T>>, id: nat)
    requires forall d :: d in docs ==> d.id != id
    ensures RemoveById(docs, id) == docs
  {
    if docs != [] {
      assert docs[0] in docs;
      forall d | d in docs[1..] ensures d.id != id { assert d in docs; }
      RemoveByIdAbsent(docs[1..], id);
      assert [docs[0]] + docs[1..] == docs;
    }
  }

  /** `docs.map(d => d._id === id ? doc : d)`. */
  function ReplaceById<T>(docs: seq<Doc<T>>, id: nat, doc: Doc<T>): (r: seq<Doc<T>>)
    ensures |r| == |docs|
    ensures forall i :: 0 <= i < |docs| ==> r[i] == if docs[i].id == id then doc else docs[i]
  {
    if docs == [] then []
    else [if docs[0].id == id then doc else docs[0]] + ReplaceById(docs[1..], id, doc)
  }

  /** A task field the pages filter on, with the value a task must have there. */
  datatype TaskKey = StatusIs(status: Status) | PriorityIs(priority: Priority)

  predicate HasKey(t: Task, key: TaskKey) {
    match key
    case StatusIs(s) => t.status == s
    case PriorityIs(p) => t.priority == p
  }

  /** `tasks.filter(t => t.status === s)` and `tasks.filter(t => t.priority === p)`. */
  function Matching(tasks: seq<Doc<Task>>, key: TaskKey): (r: seq<Doc<Task>>)
    ensures forall d :: d in r <==> d in tasks && HasKey(d.fields, key)
    ensures |r| <= |tasks|
  {
    if tasks == [] then []
    else if HasKey(tasks[0].fields, key) then [tasks[0]] + Matching(tasks[1..], key)
    else Matching(tasks[1..], key)
  }

  /** The positions of the list that hold a task with the key. */
  function Positions(tasks: seq<Doc<Task>>, key: TaskKey): (r: set<nat>)
    ensures forall i :: i in r <==> 0 <= i < |tasks| && HasKey(tasks[i].fields, key)
  {
    set i: nat | i < |tasks| && HasKey(tasks[i].fields, key)
  }

  /** Filtering a list with one more task at the end filters the old list, then the new task. */
  lemma {:induction false} MatchingAppend(tasks: seq<Doc<Task>>, d: Doc<Task>, key: TaskKey)
    ensures Matching(tasks + [d], key) == Matching(tasks, key) + (if HasKey(d.fields, key) then [d] else [])
  {
    if tasks == [] {
      assert tasks + [d] == [d];
    } else {
      assert (tasks + [d])[0] == tasks[0];
      assert (tasks + [d])[1..] == tasks[1..] + [d];
      MatchingAppend(tasks[1..], d, key);
    }
  }

  /** Appending a task adds its own position when it has the key, and no other. */
  lemma PositionsAppend(tasks: seq<Doc<Task>>, d: Doc<Task>, key: TaskKey)
    ensures Positions(tasks + [d], key) == Positions(tasks, key) + (if HasKey(d.fields, key) then {|tasks|} else {})
  {
    forall i: nat
      ensures i in Positions(tasks + [d], key) <==>
              i in Positions(tasks, key) + (if HasKey(d.fields, key) then {|tasks|} else {})
    {
      if i < |tasks| {
        assert (tasks + [d])[i] == tasks[i];
      }
    }
  }

  /** A filter keeps one task for every position holding a task with the key. */
  lemma {:induction false} MatchingCount(tasks: seq<Doc<Task>>, key: TaskKey)
    ensures |Matching(tasks, key)| == |Positions(tasks, key)|
    decreases |tasks|
  {
    if tasks != [] {
      var init, last := tasks[..|tasks| - 1], tasks[|tasks| - 1];
      assert tasks == init + [last];
      MatchingAppend(init, last, key);
      MatchingCount(init, key);
      PositionsAppend(init, last, key);
      assert |init| !in Positions(init, key);
    }
  }

  /** The four status filters split the list: their lengths add up to its length. */
  lemma {:induction false} StatusPartition(tasks: seq<Doc<Task>>)
    ensures |Matching(tasks, StatusIs(ToDo))| + |Matching(tasks, StatusIs(InProgress))|
          + |Matching(tasks, StatusIs(Review))| + |Matching(tasks, StatusIs(Completed))| == |tasks|
  {
    if tasks != [] {
      StatusPartition(tasks[1..]);
    }
  }
}
