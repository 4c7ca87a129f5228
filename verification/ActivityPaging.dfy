/** Reading a task's activities page by page, newest page first
    (src/main/persistence/activity-log-store.ts). */
module ActivityPaging {
  import opened Options
  import opened ActivityLog

  datatype Page = Page(activities: seq<Activity>, nextCursor: Option<Id>, hasMore: bool)

  /** The task's activities among the first `n`. */
  function OfTask(list: seq<Activity>, task: nat, n: nat): (r: seq<Activity>)
    requires n <= |list|
    ensures |r| <= n
  {
    if n == 0 then [] else OfTask(list, task, n - 1) + (if list[n - 1].task == task then [list[n - 1]] else [])
  }

  predicate IsCursor(a: Activity, task: nat, id: Id) { a.task == task && a.id == id }

  /** How many of the newest-first positions a cursor leaves: all of them when it names no activity. */
  function Before(list: seq<Activity>, task: nat, cursor: Option<Id>): (n: nat)
    ensures n <= |list|
  {
    if cursor.None? then |list| else BeforeFrom(list, task, cursor.value, 0)
  }

  function BeforeFrom(list: seq<Activity>, task: nat, id: Id, from: nat): (n: nat)
    requires from <= |list|
    ensures from <= n <= |list|
    ensures n < |list| ==> IsCursor(list[n], task, id)
    ensures forall k :: from <= k < n ==> !IsCursor(list[k], task, id)
    decreases |list| - from
  {
    if from == |list| then from
    else if IsCursor(list[from], task, id) then from
    else BeforeFrom(list, task, id, from + 1)
  }

  function Clamped(limit: Option<int>): (r: nat)
    ensures 1 <= r <= 100
  {
    var asked := if limit.Some? then limit.value else 40;
    if asked < 1 then 1 else if asked > 100 then 100 else asked
  }

  /** The last activities of the task before the cursor, in order. */
  function PageOf(list: seq<Activity>, task: nat, limit: Option<int>, cursor: Option<Id>): Page {
    var mine := OfTask(list, task, Before(list, task, cursor));
    var size := Clamped(limit);
    if |mine| <= size then Page(mine, None, false)
    else Page(mine[|mine| - size..], Some(mine[|mine| - size].id), true)
  }

  function Reversed<T>(s: seq<T>): (r: seq<T>)
    ensures |r| == |s| && forall i :: 0 <= i < |s| ==> r[i] == s[|s| - 1 - i]
  {
    if s == [] then [] else Reversed(s[1..]) + [s[0]]
  }

  /** Collects at most one activity more than fit, walking back from the cursor. */
  method Collect(list: seq<Activity>, task: nat, before: int, limit: nat) returns (collected: seq<Activity>)
    requires 0 <= before <= |list|
    ensures var mine := OfTask(list, task, before);
      && |collected| == (if |mine| > limit then limit + 1 else |mine|)
      && forall k :: 0 <= k < |collected| ==> collected[k] == mine[|mine| - 1 - k]
  {
    hide OfTask;
    ghost var mine := OfTask(list, task, before);
    NoneOfTask(list, task);
    collected := [];
    var index: int := before - 1;
    while index >= 0
      invariant -1 <= index < before && |collected| <= limit
      invariant |mine| == |OfTask(list, task, index + 1)| + |collected|
      invariant OfTask(list, task, index + 1) <= mine
      invariant forall k :: 0 <= k < |collected| ==> collected[k] == mine[|mine| - 1 - k]
    {
      var activity := list[index];
      OfTaskMore(list, task, index);
      index := index - 1;
      if activity.task != task {
        continue;
      }
      collected := collected + [activity];
      if |collected| > limit {
        break;
      }
    }
  }

  lemma NoneOfTask(list: seq<Activity>, task: nat)
    ensures OfTask(list, task, 0) == []
  {
  }

  lemma OfTaskMore(list: seq<Activity>, task: nat, n: nat)
    requires n < |list|
    ensures OfTask(list, task, n + 1) == OfTask(list, task, n) + if list[n].task == task then [list[n]] else []
  {
  }

  lemma LastReversed<T>(collected: seq<T>, mine: seq<T>, n: nat)
    requires n <= |collected| <= |mine|
    requires forall k :: 0 <= k < |collected| ==> collected[k] == mine[|mine| - 1 - k]
    ensures Reversed(collected[..n]) == mine[|mine| - n..]
  {
    hide Reversed;
  }

  method ReadPage(list: seq<Activity>, task: nat, limit: Option<int>, cursor: Option<Id>) returns (page: Page)
    ensures page == PageOf(list, task, limit, cursor)
  {
    hide OfTask, Reversed, Before;
    var asked := if limit.Some? then limit.value else 40;
    var most := if asked < 100 then asked else 100;
    if most < 1 { most := 1; }
    var collected := Collect(list, task, Before(list, task, cursor), most);
    var hasMore := |collected| > most;
    var fit := if hasMore then most else |collected|;
    LastReversed(collected, OfTask(list, task, Before(list, task, cursor)), fit);
    var shown := Reversed(collected[..fit]);
    return Page(shown, if hasMore then Some(shown[0].id) else None, hasMore);
  }

  /** The task's activities are those of the list with its number, in order. */
  lemma {:induction false} OfTaskIs(list: seq<Activity>, task: nat, n: nat)
    requires n <= |list|
    ensures forall a :: a in OfTask(list, task, n) <==> a in list[..n] && a.task == task
    ensures n > 0 ==>
      OfTask(list, task, n) == OfTask(list, task, n - 1) + if list[n - 1].task == task then [list[n - 1]] else []
  {
    if n > 0 {
      OfTaskIs(list, task, n - 1);
      assert list[..n] == list[..n - 1] + [list[n - 1]];
    }
  }

  /** A page holds as many activities as were asked for, forty if nothing was, never less than one nor more than a
      hundred, or all there are; there is more exactly when there are more. */
  lemma PageSize(list: seq<Activity>, task: nat, limit: Option<int>, cursor: Option<Id>)
    ensures var page, mine := PageOf(list, task, limit, cursor), |OfTask(list, task, Before(list, task, cursor))|;
      var asked := if limit.None? then 40 else limit.value;
      var most := if asked < 1 then 1 else if asked > 100 then 100 else asked;
      && |page.activities| == (if mine <= most then mine else most)
      && (page.hasMore <==> mine > most) && (page.nextCursor.Some? <==> page.hasMore)
  {
    hide OfTask, Before;
  }

  // ---------- following the cursors ----------

  /** No two activities of the task have the same identifier. */
  predicate UniqueIds(list: seq<Activity>, task: nat) {
    forall i, j :: 0 <= i < j < |list| && list[i].task == task && list[j].task == task ==> list[i].id != list[j].id
  }

  lemma {:induction false} PositionOf(list: seq<Activity>, task: nat, n: nat, k: nat) returns (q: nat)
    requires n <= |list| && k < |OfTask(list, task, n)|
    ensures q < n && list[q] == OfTask(list, task, n)[k] && list[q].task == task
    ensures OfTask(list, task, q) == OfTask(list, task, n)[..k]
  {
    var before := OfTask(list, task, n - 1);
    if k < |before| {
      q := PositionOf(list, task, n - 1, k);
    } else {
      q := n - 1;
    }
  }

  /** A page's cursor leaves exactly what the page did not show. */
  lemma NextPage(list: seq<Activity>, task: nat, limit: Option<int>, cursor: Option<Id>)
    requires UniqueIds(list, task) && PageOf(list, task, limit, cursor).hasMore
    ensures var page, n := PageOf(list, task, limit, cursor), Before(list, task, cursor);
      var next := Before(list, task, page.nextCursor);
      next < n && OfTask(list, task, n) == OfTask(list, task, next) + page.activities
  {
    var n := Before(list, task, cursor);
    var mine := OfTask(list, task, n);
    var k := |mine| - Clamped(limit);
    var q := PositionOf(list, task, n, k);
    var next := Before(list, task, Some(list[q].id));
    assert IsCursor(list[q], task, list[q].id);
    assert next == q;
    assert mine == mine[..k] + mine[k..];
  }

  /** The pages reached from a cursor, joined oldest first. */
  function AllPages(list: seq<Activity>, task: nat, limit: Option<int>, cursor: Option<Id>): seq<Activity>
    requires UniqueIds(list, task)
    decreases Before(list, task, cursor)
  {
    var page := PageOf(list, task, limit, cursor);
    if !page.hasMore then page.activities
    else
      NextPage(list, task, limit, cursor);
      AllPages(list, task, limit, page.nextCursor) + page.activities
  }

  lemma {:induction false} PagesFromCursor(list: seq<Activity>, task: nat, limit: Option<int>, cursor: Option<Id>)
    requires UniqueIds(list, task)
    ensures AllPages(list, task, limit, cursor) == OfTask(list, task, Before(list, task, cursor))
    decreases Before(list, task, cursor)
  {
    var page := PageOf(list, task, limit, cursor);
    if page.hasMore {
      NextPage(list, task, limit, cursor);
      PagesFromCursor(list, task, limit, page.nextCursor);
    }
  }

  /** From the newest page on, the pages joined oldest first are the task's activities, each once and
      in order, whatever the limit. */
  lemma PagesCoverTheTask(list: seq<Activity>, task: nat, limit: Option<int>)
    requires UniqueIds(list, task)
    ensures AllPages(list, task, limit, None) == OfTask(list, task, |list|)
    ensures forall i :: 0 <= i < |list| && list[i].task == task ==>
      multiset(AllPages(list, task, limit, None))[list[i]] == 1
  {
    PagesFromCursor(list, task, limit, None);
    forall i | 0 <= i < |list| && list[i].task == task
      ensures multiset(OfTask(list, task, |list|))[list[i]] == 1
    {
      OnceInTask(list, task, |list|, i);
    }
  }

  lemma CountMore<T>(s: seq<T>, x: T, y: T, more: bool)
    ensures multiset(s + if more then [x] else [])[y] == multiset(s)[y] + if more && x == y then 1 else 0
  {
    if more {
      assert multiset(s + [x]) == multiset(s) + multiset([x]);
    } else {
      assert s + [] == s;
    }
  }

  lemma OthersDiffer(list: seq<Activity>, task: nat, i: nat, j: nat)
    requires UniqueIds(list, task) && i < |list| && j < |list| && i != j
    requires list[i].task == task && list[j].task == task
    ensures list[i] != list[j]
  {
    assert i < j ==> list[i].id != list[j].id;
    assert j < i ==> list[j].id != list[i].id;
  }

  lemma {:induction false} OnceInTask(list: seq<Activity>, task: nat, n: nat, i: nat)
    requires UniqueIds(list, task) && n <= |list| && i < |list| && list[i].task == task
    ensures multiset(OfTask(list, task, n))[list[i]] == if i < n then 1 else 0
  {
    hide *;
    if n == 0 {
      NoneOfTask(list, task);
    } else {
      OnceInTask(list, task, n - 1, i);
      OnceMore(list, task, n - 1, i);
    }
  }

  lemma OnceMore(list: seq<Activity>, task: nat, n: nat, i: nat)
    requires UniqueIds(list, task) && n < |list| && i < |list| && list[i].task == task
    ensures multiset(OfTask(list, task, n + 1))[list[i]]
      == multiset(OfTask(list, task, n))[list[i]] + if i == n then 1 else 0
  {
    hide *;
    OfTaskMore(list, task, n);
    CountMore(OfTask(list, task, n), list[n], list[i], list[n].task == task);
    if i != n && list[n].task == task { OthersDiffer(list, task, i, n); }
  }
}
