/** The task store of the page: the task record, the two updaters that move a
    task between the open and the completed list, the admin delete, and the
    demo records the page seeds itself with. */
module Tasks {
  import opened Text
  import opened Lists

  /** A task. The wizard's category is validated but never stored, so the
      record has no category. `offDays` keeps selection order. */
  datatype Task = Task(id: string, candidateName: string, offDays: seq<string>, isOffToday: bool)

  /** Three-letter weekday codes indexed as `Date.prototype.getDay` numbers
      them, Sunday first. */
  const DayMap: seq<string> := ["SUN", "MON", "TUE", "WED", "THU", "FRI", "SAT"]

  /** The finder `t => t.TaskID === id`. */
  function IdIs(id: string): Task -> bool {
    (t: Task) => t.id == id
  }

  /** The filter test `x => x.TaskID !== id`. */
  function IdIsNot(id: string): Task -> bool {
    (t: Task) => t.id != id
  }

  /** The ids occurring in a list. */
  function Ids(s: seq<Task>): set<string> {
    set t | t in s :: t.id
  }

  /** No two positions of s carry the same id. */
  predicate DistinctIds(s: seq<Task>) {
    forall i, j :: 0 <= i < j < |s| ==> s[i].id != s[j].id
  }

  /** Two lists of which every task, identified by its id, is in exactly one
      list and there only once. */
  predicate Separate(xs: seq<Task>, ys: seq<Task>) {
    DistinctIds(xs) && DistinctIds(ys) && Ids(xs) !! Ids(ys)
  }

  /** A task as the page produces it on a day `today`: a trimmed, non-empty
      name, at least three off days, and `isOffToday` telling whether today is
      one of them. */
  predicate WellFormed(t: Task, today: string) {
    t.candidateName != [] && Trimmed(t.candidateName) &&
    |t.offDays| >= 3 && t.isOffToday == (today in t.offDays)
  }

  predicate AllWellFormed(s: seq<Task>, today: string) {
    forall t :: t in s ==> WellFormed(t, today)
  }

  /** The updater pair shared by completeTask (from open to done) and undoTask
      (from done to open): the first task of `source` with the id is spliced
      out and put at the head of `target`; without such a task both lists are
      returned as they were. */
  function Move(source: seq<Task>, target: seq<Task>, id: string): (r: (seq<Task>, seq<Task>))
    ensures |r.0| + |r.1| == |source| + |target|
  {
    var i := FindIndex(source, IdIs(id));
    if i == -1 then (source, target)
    else (RemoveAt(source, i), [source[i]] + target)
  }

  /** The admin delete `prev.filter(x => x.TaskID !== id)`: no task with the
      id is left, and every other task stays. */
  function DeleteById(s: seq<Task>, id: string): (r: seq<Task>)
    ensures |r| <= |s|
    ensures id !in Ids(r)
    ensures forall t :: t in s && t.id != id ==> t in r
    ensures forall t :: t in r ==> t in s
  {
    var r := Filter(s, IdIsNot(id));
    forall t ensures t in r <==> t in s && t.id != id {
      FilterMember(s, IdIsNot(id), t);
    }
    r
  }

  /** The task of `findIndex` is where it is: after a prefix without the id. */
  lemma MoveFirstMatch(a: seq<Task>, t: Task, b: seq<Task>, target: seq<Task>, id: string)
    requires id !in Ids(a) && t.id == id
    ensures Move(a + [t] + b, target, id) == (a + b, [t] + target)
  {
    var s := a + [t] + b;
    forall j | 0 <= j < |a| ensures !IdIs(id)(a[j]) {
      assert a[j] in a;
    }
    FindIndexAt(a, t, b, IdIs(id));
    assert s[|a|] == t;
    assert RemoveAt(s, |a|) == a + b;
  }

  /** With no task of that id in `source`, neither list changes. */
  lemma MoveAbsent(source: seq<Task>, target: seq<Task>, id: string)
    requires id !in Ids(source)
    ensures Move(source, target, id) == (source, target)
  {
    forall j | 0 <= j < |source| ensures !IdIs(id)(source[j]) {
      assert source[j] in source;
    }
  }

  /** A move applies to an id that is present: it takes a task with the id. */
  lemma MovePresent(source: seq<Task>, target: seq<Task>, id: string)
    requires id in Ids(source)
    ensures |Move(source, target, id).0| == |source| - 1
    ensures Move(source, target, id).1[0].id == id
    ensures Move(source, target, id).1[1..] == target
  {
    var t :| t in source && t.id == id;
    var k :| 0 <= k < |source| && source[k] == t;
    assert IdIs(id)(source[k]);
  }

  /** A move loses and duplicates no task: the two lists together hold the
      same tasks, with the same multiplicities, before and after. */
  lemma MovePermutes(source: seq<Task>, target: seq<Task>, id: string)
    ensures var r := Move(source, target, id);
            multiset(r.0) + multiset(r.1) == multiset(source) + multiset(target)
  {
    var i := FindIndex(source, IdIs(id));
    if i != -1 {
      assert multiset([source[i]] + target) == multiset{source[i]} + multiset(target);
    }
  }

  /** Every task is in the same store before and after a move. */
  lemma MoveMembers(source: seq<Task>, target: seq<Task>, id: string, t: Task)
    ensures (t in Move(source, target, id).0 || t in Move(source, target, id).1) <==> (t in source || t in target)
  {
    var r := Move(source, target, id);
    MovePermutes(source, target, id);
    InEither(source, target, t);
    InEither(r.0, r.1, t);
  }

  /** Complete and then undo (or undo and then complete) on the id of a task
      puts the target list back as it was and the task at the head of its
      source list, the other tasks of the source keeping their order. */
  lemma MoveThenMoveBack(a: seq<Task>, t: Task, b: seq<Task>, target: seq<Task>, id: string)
    requires id !in Ids(a) && t.id == id
    ensures var (s1, t1) := Move(a + [t] + b, target, id);
            Move(t1, s1, id) == (target, [t] + (a + b))
  {
    MoveFirstMatch(a, t, b, target, id);
    MoveFirstMatch([], t, target, a + b, id);
    assert [] + [t] + target == [t] + target;
    assert [] + target == target;
  }

  lemma DistinctIdsTail(s: seq<Task>)
    requires |s| > 0 && DistinctIds(s)
    ensures DistinctIds(s[1..]) && s[0].id !in Ids(s[1..])
  {
    forall u | u in s[1..] ensures u.id != s[0].id {
      var k :| 0 <= k < |s[1..]| && s[1..][k] == u;
      assert s[k + 1] == u;
    }
  }

  lemma DistinctIdsCons(t: Task, s: seq<Task>)
    requires DistinctIds(s) && t.id !in Ids(s)
    ensures DistinctIds([t] + s)
  {
    var c := [t] + s;
    forall i, j | 0 <= i < j < |c| ensures c[i].id != c[j].id {
      assert c[j] == s[j - 1];
      if i == 0 { assert s[j - 1] in s; } else { assert c[i] == s[i - 1]; }
    }
  }

  /** Deleting keeps ids distinct: a filtered list is a sub-list. */
  lemma {:induction false} FilterDistinct(s: seq<Task>, keep: Task -> bool)
    requires DistinctIds(s)
    ensures DistinctIds(Filter(s, keep))
  {
    if |s| > 0 {
      DistinctIdsTail(s);
      FilterDistinct(s[1..], keep);
      var rest := Filter(s[1..], keep);
      if keep(s[0]) {
        forall u | u in rest ensures u.id != s[0].id {
          FilterMember(s[1..], keep, u);
        }
        DistinctIdsCons(s[0], rest);
      }
    }
  }

  lemma RemoveAtDistinct(s: seq<Task>, i: nat)
    requires i < |s| && DistinctIds(s)
    ensures DistinctIds(RemoveAt(s, i))
    ensures s[i].id !in Ids(RemoveAt(s, i))
    ensures Ids(RemoveAt(s, i)) <= Ids(s)
  {
    var r := RemoveAt(s, i);
    forall j, k | 0 <= j < k < |r| ensures r[j].id != r[k].id {
      var j' := if j < i then j else j + 1;
      var k' := if k < i then k else k + 1;
      assert r[j] == s[j'] && r[k] == s[k'];
    }
    forall u | u in r ensures u.id != s[i].id {
      var k :| 0 <= k < |r| && r[k] == u;
      assert u == s[if k < i then k else k + 1];
    }
    forall x | x in Ids(r) ensures x in Ids(s) {
      var u :| u in r && u.id == x;
      assert multiset(r)[u] > 0;
      assert u in s;
    }
  }

  /** Moving a task between two separate lists keeps them separate: a task
      is never in both lists and never twice in one. */
  lemma MovePreservesSeparate(source: seq<Task>, target: seq<Task>, id: string)
    requires Separate(source, target)
    ensures var r := Move(source, target, id); Separate(r.0, r.1)
  {
    var i := FindIndex(source, IdIs(id));
    if i != -1 {
      var r := Move(source, target, id);
      RemoveAtDistinct(source, i);
      assert source[i] in source;
      assert source[i].id !in Ids(target);
      DistinctIdsCons(source[i], target);
      assert Ids(r.1) == {source[i].id} + Ids(target) by {
        forall x ensures x in Ids(r.1) <==> x == source[i].id || x in Ids(target) {
          if x in Ids(r.1) {
            var u :| u in r.1 && u.id == x;
            assert u == source[i] || u in target;
          }
          if x in Ids(target) {
            var u :| u in target && u.id == x;
            assert u in r.1;
          }
        }
      }
    }
  }

  /** Admin delete keeps the lists separate. */
  lemma DeletePreservesSeparate(open: seq<Task>, done: seq<Task>, id: string)
    requires Separate(open, done)
    ensures Separate(DeleteById(open, id), done)
  {
    FilterDistinct(open, IdIsNot(id));
    var r := DeleteById(open, id);
    forall x | x in Ids(r) ensures x in Ids(open) {
      var u :| u in r && u.id == x;
      assert u in open;
    }
  }

  /** Deleting an id that is not open changes nothing. */
  lemma DeleteAbsent(s: seq<Task>, id: string)
    requires id !in Ids(s)
    ensures DeleteById(s, id) == s
  {
    forall j | 0 <= j < |s| ensures IdIsNot(id)(s[j]) {
      assert s[j] in s;
    }
    FilterKeepsAll(s, IdIsNot(id));
  }

  /** Deleting keeps the other tasks in their order: it distributes over
      any split of the list. */
  lemma DeleteConcat(a: seq<Task>, b: seq<Task>, id: string)
    ensures DeleteById(a + b, id) == DeleteById(a, id) + DeleteById(b, id)
  {
    FilterConcat(a, b, IdIsNot(id));
  }

  /** Deleting removes exactly the tasks with that id, counted with
      multiplicity, and nothing else. */
  lemma DeleteCount(s: seq<Task>, id: string, t: Task)
    ensures multiset(DeleteById(s, id))[t] == if t.id == id then 0 else multiset(s)[t]
  {
    FilterCount(s, IdIsNot(id), t);
  }

  /** The demo records, with `isOffToday` computed against the weekday
      `today`; each is well formed on every weekday. */
  function Alex(today: string): (r: Task)
    ensures r.id == "T_001" && WellFormed(r, today)
  {
    Task("T_001", "Alex Johnson", ["MON", "THU", "SAT"], today in ["MON", "THU", "SAT"])
  }

  function Maya(today: string): (r: Task)
    ensures r.id == "T_002" && WellFormed(r, today)
  {
    Task("T_002", "Maya Patel", ["SUN", "TUE", "FRI"], today in ["SUN", "TUE", "FRI"])
  }

  function Chris(today: string): (r: Task)
    ensures r.id == "T_003" && WellFormed(r, today)
  {
    Task("T_003", "Chris Lee", ["WED", "SAT", "SUN"], today in ["WED", "SAT", "SUN"])
  }

  /** The open list the first seeding timer installs: Alex and Maya, by
      two distinct ids. */
  function DemoOpen(today: string): (r: seq<Task>)
    ensures AllWellFormed(r, today) && DistinctIds(r)
    ensures Ids(r) == {"T_001", "T_002"}
  {
    var r := [Alex(today), Maya(today)];
    assert Ids(r) == {"T_001", "T_002"} by {
      forall x ensures x in Ids(r) <==> x == "T_001" || x == "T_002" {
        if x == "T_001" { assert r[0] in r; }
        if x == "T_002" { assert r[1] in r; }
      }
    }
    r
  }

  /** The completed list the second seeding timer installs: Chris alone. */
  function DemoDone(today: string): (r: seq<Task>)
    ensures AllWellFormed(r, today) && DistinctIds(r)
    ensures Ids(r) == {"T_003"}
  {
    var r := [Chris(today)];
    assert Ids(r) == {"T_003"} by {
      forall x ensures x in Ids(r) <==> x == "T_003" {
        if x == "T_003" { assert r[0] in r; }
      }
    }
    r
  }

  /** The demo records are well formed and separate on every weekday. */
  lemma DemoWellFormed(today: string)
    ensures AllWellFormed(DemoOpen(today), today) && AllWellFormed(DemoDone(today), today)
    ensures Separate(DemoOpen(today), DemoDone(today))
  {
  }

  /** Completing and undoing a task that heads the open list: the target
      list starts with the task, and undoing restores both lists exactly. */
  lemma CompleteUndoHead(t: Task, rest: seq<Task>, done: seq<Task>)
    ensures Move([t] + rest, done, t.id) == (rest, [t] + done)
    ensures Move([t] + done, rest, t.id) == (done, [t] + rest)
  {
    MoveFirstMatch([], t, rest, done, t.id);
    MoveFirstMatch([], t, done, rest, t.id);
    assert [] + [t] + rest == [t] + rest && [] + rest == rest;
    assert [] + [t] + done == [t] + done && [] + done == done;
  }

  /** Completing Alex's task on the demo data: Maya is left open and Alex
      heads the completed list, before Chris. */
  lemma DemoComplete(today: string)
    ensures Move(DemoOpen(today), DemoDone(today), "T_001") == ([Maya(today)], [Alex(today), Chris(today)])
  {
    assert [Alex(today), Maya(today)] == [Alex(today)] + [Maya(today)];
    assert [Alex(today), Chris(today)] == [Alex(today)] + [Chris(today)];
    CompleteUndoHead(Alex(today), [Maya(today)], [Chris(today)]);
  }

  /** Undoing it again: Alex heads the open list before Maya and only Chris
      is completed, as seeded. */
  lemma DemoUndo(today: string)
    ensures Move([Alex(today), Chris(today)], [Maya(today)], "T_001") == (DemoDone(today), DemoOpen(today))
  {
    assert [Alex(today), Maya(today)] == [Alex(today)] + [Maya(today)];
    assert [Alex(today), Chris(today)] == [Alex(today)] + [Chris(today)];
    CompleteUndoHead(Alex(today), [Chris(today)], [Maya(today)]);
  }

}
