/**
 * The external fetch routine, `get_external_todo_data`
 * (todos/helpers/todo_list_view_helper.py).
 *
 * The HTTP fetch is an input (`FetchResult`): either the decoded list of raw
 * items or a failure. `random.randint(1, 7)` is an oracle sequence `draws`,
 * consumed from the front, one draw per call. The uuid4 default of each new
 * `Todo(...)` instance is an oracle sequence `ids`, one per instance.
 */
module ExternalTodos {
  import opened Models

  /** A boolean member of a JSON object: absent, null, or a value. */
  datatype JsonBool = Absent | Null | Bool(value: bool)

  /**
   * One decoded JSON object of the external list. For userId, id and title
   * `item.get` gives None both when the member is absent and when it is null.
   */
  datatype RawItem = RawItem(
    userId: Option<int>,
    id: Option<int>,
    title: Option<string>,
    completed: JsonBool)

  /** `item.get("completed", False)`: the default applies only to an absent member. */
  function CompletedOf(item: RawItem): (c: Option<bool>)
    ensures c.None? <==> item.completed == Null
    ensures c == Some(true) <==> item.completed == Bool(true)
  {
    match item.completed
    case Absent => Some(false)
    case Null => None
    case Bool(b) => Some(b)
  }

  /** What `fetch_todos_from_api(url)` produced: the items, or an exception. */
  datatype FetchResult = Fetched(items: seq<RawItem>) | FetchFailed

  /**
   * How `get_external_todo_data` ends: it returns the whole table, or returns
   * None, or raises because the TODO_API_URL setting is missing.
   */
  datatype BatchResult = AllTodos(todos: map<Uuid, Todo>) | NoResult | ConfigMissing

  /** The bounds of `random.randint(1, 7)`. */
  const MinImage := 1
  const MaxImage := 7

  predicate DrawsInRange(draws: seq<int>) {
    forall k :: 0 <= k < |draws| ==> MinImage <= draws[k] <= MaxImage
  }

  predicate Distinct<T(==)>(s: seq<T>) {
    forall i, j :: 0 <= i < j < |s| ==> s[i] != s[j]
  }

  function UserIds(items: seq<RawItem>): (us: seq<Option<int>>)
    ensures |us| == |items|
    ensures forall k :: 0 <= k < |items| ==> us[k] == items[k].userId
  {
    seq(|items|, k requires 0 <= k < |items| => items[k].userId)
  }

  /** The distinct values of `s`, in order of first occurrence. */
  function FirstSeen<T(==, !new)>(s: seq<T>): (r: seq<T>)
    ensures forall x :: x in r <==> x in s
    ensures Distinct(r)
    ensures |r| <= |s|
    decreases |s|
  {
    if s == [] then []
    else
      var p := FirstSeen(s[..|s| - 1]);
      assert s == s[..|s| - 1] + [s[|s| - 1]];
      if s[|s| - 1] in p then p else p + [s[|s| - 1]]
  }

  /** The position of the first occurrence of `x` in `s`. */
  function IndexOf<T(==)>(s: seq<T>, x: T): (i: nat)
    requires x in s
    ensures i < |s| && s[i] == x
    ensures x !in s[..i]
  {
    if s[0] == x then 0
    else
      assert x in s[1..];
      var j := IndexOf(s[1..], x);
      assert s[..j + 1] == [s[0]] + s[1..][..j];
      1 + j
  }

  /**
   * The distinct values come in the order of their first occurrence: of two
   * values of `FirstSeen(s)`, the earlier one first occurs earlier in `s`.
   */
  lemma {:induction false} FirstSeenInOrder<T(!new)>(s: seq<T>)
    ensures forall i, j :: 0 <= i < j < |FirstSeen(s)| ==>
      IndexOf(s, FirstSeen(s)[i]) < IndexOf(s, FirstSeen(s)[j])
    decreases |s|
  {
    if s != [] {
      var init, last := s[..|s| - 1], s[|s| - 1];
      assert s == init + [last];
      var p := FirstSeen(init);
      FirstSeenInOrder(init);
      forall x | x in p
        ensures IndexOf(s, x) == IndexOf(init, x) < |init|
      {
        IndexOfAppend(init, last, x);
      }
      if last !in p {
        IndexOfAppend(init, last, last);
        assert FirstSeen(s) == p + [last];
      }
    }
  }

  /** A position holding `x` with no earlier `x` is the one IndexOf finds. */
  lemma FirstOccurrence<T>(s: seq<T>, x: T, i: nat)
    requires i < |s| && s[i] == x && x !in s[..i]
    ensures IndexOf(s, x) == i
  {
  }

  /** Appending a value leaves the positions of the values already present unchanged. */
  lemma IndexOfAppend<T>(p: seq<T>, y: T, x: T)
    requires x in p + [y]
    ensures x in p ==> IndexOf(p + [y], x) == IndexOf(p, x)
    ensures x !in p ==> IndexOf(p + [y], x) == |p|
  {
    if x in p {
      var i := IndexOf(p, x);
      assert (p + [y])[..i] == p[..i];
      FirstOccurrence(p + [y], x, i);
    } else {
      assert (p + [y])[..|p|] == p;
      FirstOccurrence(p + [y], x, |p|);
    }
  }

  /**
   * The reference image of item k: the users take the draws in the order in
   * which they first appear, so the j-th distinct user gets draws[j].
   */
  function ImageOf(items: seq<RawItem>, draws: seq<int>, k: int): int
    requires 0 <= k < |items| && |items| <= |draws|
  {
    var users := FirstSeen(UserIds(items));
    assert UserIds(items)[k] == items[k].userId;
    draws[IndexOf(users, items[k].userId)]
  }

  /** The reference instance built for item k. */
  function DraftOf(items: seq<RawItem>, draws: seq<int>, ids: seq<Uuid>, k: int): Draft
    requires 0 <= k < |items| && |items| <= |draws| && |items| <= |ids|
  {
    Draft(ids[k], items[k].id, items[k].userId, items[k].title,
          ImageOf(items, draws, k), CompletedOf(items[k]))
  }

  /** The reference batch: one instance per item, in item order. */
  function Drafts(items: seq<RawItem>, draws: seq<int>, ids: seq<Uuid>): seq<Draft>
    requires |items| <= |draws| && |items| <= |ids|
  {
    seq(|items|, k requires 0 <= k < |items| => DraftOf(items, draws, ids, k))
  }

  /**
   * The `for item in data` loop: builds the batch and the user-to-image
   * dictionary, drawing an image only for a userId not yet in the dictionary.
   * `used` is the number of draws taken.
   */
  method BuildDrafts(items: seq<RawItem>, draws: seq<int>, ids: seq<Uuid>)
    returns (batch: seq<Draft>, used: nat)
    requires |items| <= |draws| && |items| <= |ids|
    requires DrawsInRange(draws)
    ensures batch == Drafts(items, draws, ids)
    ensures |batch| == |items|
    ensures forall k :: 0 <= k < |items| ==>
      && batch[k].apiId == items[k].id
      && batch[k].userId == items[k].userId
      && batch[k].title == items[k].title
      && batch[k].completed == CompletedOf(items[k])
    ensures forall j, k :: 0 <= j < |items| && 0 <= k < |items| && items[j].userId == items[k].userId ==>
      batch[j].image == batch[k].image
    ensures forall k :: 0 <= k < |items| ==> MinImage <= batch[k].image <= MaxImage
    ensures used == |FirstSeen(UserIds(items))|
  {
    var userImage: map<Option<int>, int> := map[];
    ghost var seen: seq<Option<int>> := [];
    batch, used := [], 0;
    for i := 0 to |items|
      invariant LoopState(items, draws, ids, i, seen, userImage, batch, used)
    {
      var userId := items[i].userId;
      LoopStep(items, draws, ids, i, seen, userImage, batch, used);
      if userId !in userImage {
        userImage := userImage[userId := draws[used]];
        used := used + 1;
        seen := seen + [userId];
      }
      batch := batch + [Draft(ids[i], items[i].id, userId, items[i].title,
                              userImage[userId], CompletedOf(items[i]))];
    }
    LoopDone(items, draws, ids, seen, userImage, batch, used);
  }

  /**
   * The loop's invariant after the first i items: `seen` (ghost) lists the
   * userIds met so far in first-occurrence order, the dictionary gives the
   * j-th of them the j-th draw, and the batch holds one instance per item.
   */
  ghost predicate LoopState(items: seq<RawItem>, draws: seq<int>, ids: seq<Uuid>, i: int,
                            seen: seq<Option<int>>, userImage: map<Option<int>, int>,
                            batch: seq<Draft>, used: nat)
  {
    && 0 <= i <= |items| <= |draws| && |items| <= |ids|
    && |batch| == i
    && seen == FirstSeen(UserIds(items)[..i])
    && used == |seen| <= i
    && (forall x :: x in userImage <==> x in seen)
    && (forall x :: x in userImage ==> userImage[x] == draws[IndexOf(seen, x)])
    && (forall k :: 0 <= k < i ==> items[k].userId in userImage)
    && (forall k :: 0 <= k < i ==>
          batch[k] == Draft(ids[k], items[k].id, items[k].userId, items[k].title,
                            userImage[items[k].userId], CompletedOf(items[k])))
  }

  lemma LoopStep(items: seq<RawItem>, draws: seq<int>, ids: seq<Uuid>, i: int,
                 seen: seq<Option<int>>, userImage: map<Option<int>, int>,
                 batch: seq<Draft>, used: nat)
    requires i < |items|
    requires LoopState(items, draws, ids, i, seen, userImage, batch, used)
    ensures used < |draws|
    ensures var u := items[i].userId;
      var isNew := u !in userImage;
      var seen' := if isNew then seen + [u] else seen;
      var userImage' := if isNew then userImage[u := draws[used]] else userImage;
      var used' := if isNew then used + 1 else used;
      LoopState(items, draws, ids, i + 1, seen', userImage', batch + [Draft(ids[i], items[i].id, u,
                items[i].title, userImage'[u], CompletedOf(items[i]))], used')
  {
    var u := items[i].userId;
    var isNew := u !in userImage;
    var userImage' := if isNew then userImage[u := draws[used]] else userImage;
    StepDictionary(items, draws, ids, i, seen, userImage, batch, used);
    StepBatch(items, draws, ids, i, userImage, userImage', batch);
  }

  /** The dictionary part of one loop step. */
  lemma StepDictionary(items: seq<RawItem>, draws: seq<int>, ids: seq<Uuid>, i: int,
                       seen: seq<Option<int>>, userImage: map<Option<int>, int>,
                       batch: seq<Draft>, used: nat)
    requires i < |items|
    requires LoopState(items, draws, ids, i, seen, userImage, batch, used)
    ensures used < |draws|
    ensures var u := items[i].userId;
      var isNew := u !in userImage;
      var seen' := if isNew then seen + [u] else seen;
      var userImage' := if isNew then userImage[u := draws[used]] else userImage;
      var used' := if isNew then used + 1 else used;
      && seen' == FirstSeen(UserIds(items)[..i + 1])
      && used' == |seen'| <= i + 1
      && (forall x :: x in userImage' <==> x in seen')
      && (forall x :: x in userImage' ==> userImage'[x] == draws[IndexOf(seen', x)])
      && (forall x :: x in userImage ==> x in userImage' && userImage'[x] == userImage[x])
      && u in userImage'
  {
    var us := UserIds(items);
    var u := items[i].userId;
    assert us[i] == u;
    FirstSeenStep(us, i);
    var isNew := u !in userImage;
    var seen' := if isNew then seen + [u] else seen;
    var userImage' := if isNew then userImage[u := draws[used]] else userImage;
    forall x | x in userImage'
      ensures userImage'[x] == draws[IndexOf(seen', x)]
    {
      if x != u || !isNew {
        assert x in seen;
      }
    }
  }

  /** The batch part of one loop step: earlier instances keep their images. */
  lemma StepBatch(items: seq<RawItem>, draws: seq<int>, ids: seq<Uuid>, i: int,
                  userImage: map<Option<int>, int>, userImage': map<Option<int>, int>,
                  batch: seq<Draft>)
    requires i < |items| <= |ids| && |batch| == i
    requires forall k :: 0 <= k < i ==> items[k].userId in userImage
    requires forall k :: 0 <= k < i ==>
      batch[k] == Draft(ids[k], items[k].id, items[k].userId, items[k].title,
                        userImage[items[k].userId], CompletedOf(items[k]))
    requires forall x :: x in userImage ==> x in userImage' && userImage'[x] == userImage[x]
    requires items[i].userId in userImage'
    ensures var batch' := batch + [Draft(ids[i], items[i].id, items[i].userId, items[i].title,
                                         userImage'[items[i].userId], CompletedOf(items[i]))];
      forall k :: 0 <= k < i + 1 ==>
        && items[k].userId in userImage'
        && batch'[k] == Draft(ids[k], items[k].id, items[k].userId, items[k].title,
                              userImage'[items[k].userId], CompletedOf(items[k]))
  {
  }

  lemma LoopDone(items: seq<RawItem>, draws: seq<int>, ids: seq<Uuid>,
                 seen: seq<Option<int>>, userImage: map<Option<int>, int>,
                 batch: seq<Draft>, used: nat)
    requires LoopState(items, draws, ids, |items|, seen, userImage, batch, used)
    requires DrawsInRange(draws)
    ensures batch == Drafts(items, draws, ids)
    ensures |batch| == |items|
    ensures forall k :: 0 <= k < |items| ==>
      && batch[k].apiId == items[k].id
      && batch[k].userId == items[k].userId
      && batch[k].title == items[k].title
      && batch[k].completed == CompletedOf(items[k])
    ensures forall j, k :: 0 <= j < |items| && 0 <= k < |items| && items[j].userId == items[k].userId ==>
      batch[j].image == batch[k].image
    ensures forall k :: 0 <= k < |items| ==> MinImage <= batch[k].image <= MaxImage
    ensures used == |FirstSeen(UserIds(items))|
  {
    var us := UserIds(items);
    assert us[..|items|] == us;
    forall k | 0 <= k < |items|
      ensures batch[k] == Drafts(items, draws, ids)[k]
    {
      assert us[k] == items[k].userId;
    }
    assert batch == Drafts(items, draws, ids);
    DraftsFields(items, draws, ids);
  }

  /** The reference batch copies each item's fields and gives every user one image in 1..7. */
  lemma DraftsFields(items: seq<RawItem>, draws: seq<int>, ids: seq<Uuid>)
    requires |items| <= |draws| && |items| <= |ids| && DrawsInRange(draws)
    ensures var batch := Drafts(items, draws, ids);
      && (forall k :: 0 <= k < |items| ==>
            && batch[k].apiId == items[k].id
            && batch[k].userId == items[k].userId
            && batch[k].title == items[k].title
            && batch[k].completed == CompletedOf(items[k]))
      && (forall j, k :: 0 <= j < |items| && 0 <= k < |items| && items[j].userId == items[k].userId ==>
            batch[j].image == batch[k].image)
      && (forall k :: 0 <= k < |items| ==> MinImage <= batch[k].image <= MaxImage)
  {
    var batch := Drafts(items, draws, ids);
    forall j, k | 0 <= j < |items| && 0 <= k < |items| && items[j].userId == items[k].userId
      ensures batch[j].image == batch[k].image
    {
      SameUserSameImage(items, draws, ids, j, k);
    }
    forall k | 0 <= k < |items|
      ensures MinImage <= batch[k].image <= MaxImage
    {
      SameUserSameImage(items, draws, ids, k, k);
    }
  }

  /**
   * One step of the loop: extending the prefix by one userId either leaves
   * the distinct users unchanged or appends the new one, which then takes the
   * next position.
   */
  lemma FirstSeenStep<T(!new)>(us: seq<T>, i: int)
    requires 0 <= i < |us|
    ensures us[i] in FirstSeen(us[..i]) ==> FirstSeen(us[..i + 1]) == FirstSeen(us[..i])
    ensures us[i] !in FirstSeen(us[..i]) ==> FirstSeen(us[..i + 1]) == FirstSeen(us[..i]) + [us[i]]
    ensures us[i] !in FirstSeen(us[..i]) ==> IndexOf(FirstSeen(us[..i + 1]), us[i]) == |FirstSeen(us[..i])|
    ensures forall x :: x in FirstSeen(us[..i]) ==>
      IndexOf(FirstSeen(us[..i + 1]), x) == IndexOf(FirstSeen(us[..i]), x)
  {
    assert us[..i + 1][..i] == us[..i];
    var seen := FirstSeen(us[..i]);
    if us[i] !in seen {
      IndexOfAppend(seen, us[i], us[i]);
      forall x | x in seen
        ensures IndexOf(seen + [us[i]], x) == IndexOf(seen, x)
      {
        IndexOfAppend(seen, us[i], x);
      }
    }
  }

  /**
   * `get_external_todo_data`: read the URL setting (outside the try block, so
   * a missing setting raises), fetch, build the batch, and bulk-insert it when
   * it is not empty. A failed fetch or a failed insert is logged and yields
   * None; so does an empty list. On success the whole table is returned.
   */
  method FetchAndStore(store: TodoStore, apiUrl: Option<string>, fetched: FetchResult,
                       draws: seq<int>, ids: seq<Uuid>)
    returns (r: BatchResult)
    requires Consistent(store.rows)
    requires fetched.Fetched? ==> |fetched.items| <= |draws| && |fetched.items| <= |ids|
    requires DrawsInRange(draws)
    modifies store
    ensures Consistent(store.rows)
    ensures apiUrl.None? ==> r == ConfigMissing && store.rows == old(store.rows)
    ensures apiUrl.Some? && fetched.FetchFailed? ==> r == NoResult && store.rows == old(store.rows)
    ensures apiUrl.Some? && fetched.Fetched? ==>
      var batch := Drafts(fetched.items, draws, ids);
      if batch != [] && CanInsert(old(store.rows), batch)
      then r == AllTodos(store.rows) && store.rows == WithBatch(old(store.rows), batch)
      else r == NoResult && store.rows == old(store.rows)
  {
    if apiUrl.None? {
      return ConfigMissing;
    }
    match fetched
    case FetchFailed =>
      r := NoResult;
    case Fetched(items) =>
      var batch, used := BuildDrafts(items, draws, ids);
      r := NoResult;
      if batch != [] {
        var ok := store.BulkCreate(batch);
        if ok {
          r := AllTodos(store.rows);
        }
      }
  }

  /**
   * After a successful fetch the table holds the old rows unchanged plus one
   * new row per item, stored under that item's uuid, with the item's id,
   * userId and title, an image in 1..7, and one image per userId.
   */
  lemma StoredBatch(rows: map<Uuid, Todo>, items: seq<RawItem>, draws: seq<int>, ids: seq<Uuid>)
    requires Consistent(rows)
    requires |items| <= |draws| && |items| <= |ids| && DrawsInRange(draws)
    requires CanInsert(rows, Drafts(items, draws, ids))
    ensures var after := WithBatch(rows, Drafts(items, draws, ids));
      && Consistent(after)
      && |after| == |rows| + |items|
      && (forall u :: u in rows ==> u in after && after[u] == rows[u])
      && (forall k :: 0 <= k < |items| ==>
            && ids[k] in after
            && Some(after[ids[k]].apiId) == items[k].id
            && Some(after[ids[k]].userId) == items[k].userId
            && Some(after[ids[k]].title) == items[k].title
            && Some(after[ids[k]].completed) == CompletedOf(items[k])
            && MinImage <= after[ids[k]].image <= MaxImage)
      && (forall j, k :: 0 <= j < |items| && 0 <= k < |items| && items[j].userId == items[k].userId ==>
            after[ids[j]].image == after[ids[k]].image)
  {
    var batch := Drafts(items, draws, ids);
    BatchInserted(rows, batch);
    DraftsFields(items, draws, ids);
    var after := WithBatch(rows, batch);
    forall k | 0 <= k < |items|
      ensures ids[k] in after && after[ids[k]] == Persisted(batch[k])
    {
      assert batch[k].uuid == ids[k];
    }
  }

  /**
   * Every instance of one batch whose items share a userId carries the same
   * image, and that image lies in 1..7.
   */
  lemma SameUserSameImage(items: seq<RawItem>, draws: seq<int>, ids: seq<Uuid>, j: int, k: int)
    requires |items| <= |draws| && |items| <= |ids| && DrawsInRange(draws)
    requires 0 <= j < |items| && 0 <= k < |items| && items[j].userId == items[k].userId
    ensures Drafts(items, draws, ids)[j].image == Drafts(items, draws, ids)[k].image
    ensures MinImage <= Drafts(items, draws, ids)[k].image <= MaxImage
  {
    var users := FirstSeen(UserIds(items));
    assert UserIds(items)[k] == items[k].userId;
    assert IndexOf(users, items[k].userId) < |users| <= |draws|;
  }

  /** The j-th distinct userId of the batch gets the j-th draw. */
  lemma {:induction false} DrawsInFirstOccurrenceOrder(items: seq<RawItem>, draws: seq<int>, ids: seq<Uuid>,
                                                       j: int, k: int)
    requires |items| <= |draws| && |items| <= |ids|
    requires 0 <= j < |FirstSeen(UserIds(items))|
    requires 0 <= k < |items| && items[k].userId == FirstSeen(UserIds(items))[j]
    ensures Drafts(items, draws, ids)[k].image == draws[j]
  {
    var users := FirstSeen(UserIds(items));
    assert users[j] !in users[..j];
    FirstOccurrence(users, users[j], j);
  }

  /** A sequence without repetitions has as many elements as its set of values. */
  lemma {:induction false} DistinctCardinality<T>(s: seq<T>)
    requires Distinct(s)
    ensures |set x | x in s| == |s|
  {
    if s != [] {
      var init := s[..|s| - 1];
      assert Distinct(init);
      DistinctCardinality(init);
      assert s == init + [s[|s| - 1]];
      assert s[|s| - 1] !in init;
      assert (set x | x in s) == (set x | x in init) + {s[|s| - 1]};
    }
  }

  /**
   * The routine draws exactly once per distinct userId: the number of draws
   * equals the number of distinct userIds of the batch.
   */
  lemma DrawCountIsDistinctUsers(items: seq<RawItem>)
    ensures |FirstSeen(UserIds(items))| == |set k | 0 <= k < |items| :: items[k].userId|
  {
    var us := UserIds(items);
    var users := FirstSeen(us);
    DistinctCardinality(users);
    assert (set x | x in users) == (set k | 0 <= k < |items| :: items[k].userId) by {
      forall x | x in users
        ensures x in (set k | 0 <= k < |items| :: items[k].userId)
      {
        var k :| 0 <= k < |us| && us[k] == x;
      }
    }
  }
}
